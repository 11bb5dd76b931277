/** `remove_trailing_whitespace_changes` of utils/check-style.py on the values of a patchset: what it
    does to the lines of a chunk, which a removed, an added or a context line may share. */
module PatchFilter {
  import opened Options
  import opened PatchText

  predicate IsBlank(c: char) {
    c == ' ' || c == '\t'
  }

  /** The pattern for trailing blanks.  Its first group is greedy, so the second is always one character. */
  function TrailingBlank(text: string): Option<(string, string)> {
    var body := if text != "" && text[|text| - 1] == '\n' then text[..|text| - 1] else text;
    if body != "" && IsBlank(body[|body| - 1]) && NoNewline(body)
    then Some((body[..|body| - 1], body[|body| - 1..]))
    else None
  }

  /* ----- one chunk ----- */

  /** Where the lines of the two views stand among the first `n` lines. */
  ghost function SrcPlaces(lines: seq<Line>, n: nat): (ps: seq<nat>)
    requires n <= |lines|
    ensures forall i :: 0 <= i < |ps| ==> ps[i] < n && IsSrc(lines[ps[i]].kind)
    ensures forall i, j :: 0 <= i < j < |ps| ==> ps[i] < ps[j]
  {
    if n == 0 then [] else SrcPlaces(lines, n - 1) + if IsSrc(lines[n - 1].kind) then [n - 1] else []
  }

  ghost function DstPlaces(lines: seq<Line>, n: nat): (ps: seq<nat>)
    requires n <= |lines|
    ensures forall i :: 0 <= i < |ps| ==> ps[i] < n && IsDst(lines[ps[i]].kind)
    ensures forall i, j :: 0 <= i < j < |ps| ==> ps[i] < ps[j]
  {
    if n == 0 then [] else DstPlaces(lines, n - 1) + if IsDst(lines[n - 1].kind) then [n - 1] else []
  }

  lemma {:induction false} NextPlace(lines: seq<Line>, n: nat)
    requires n < |lines|
    ensures SrcPlaces(lines, 0) == [] && DstPlaces(lines, 0) == []
    ensures SrcPlaces(lines, n + 1) == SrcPlaces(lines, n) + if IsSrc(lines[n].kind) then [n] else []
    ensures DstPlaces(lines, n + 1) == DstPlaces(lines, n) + if IsDst(lines[n].kind) then [n] else []
  {
  }

  ghost function Sources(lines: seq<Line>): (ps: seq<nat>)
    ensures forall i :: 0 <= i < |ps| ==> ps[i] < |lines| && IsSrc(lines[ps[i]].kind)
    ensures forall i, j :: 0 <= i < j < |ps| ==> ps[i] < ps[j]
  {
    SrcPlaces(lines, |lines|)
  }

  ghost function Targets(lines: seq<Line>): (ps: seq<nat>)
    ensures forall i :: 0 <= i < |ps| ==> ps[i] < |lines| && IsDst(lines[ps[i]].kind)
    ensures forall i, j :: 0 <= i < j < |ps| ==> ps[i] < ps[j]
  {
    DstPlaces(lines, |lines|)
  }

  /** How many turns the loop over a chunk completes: behind the end of the shorter view it fails. */
  ghost function Turns(lines: seq<Line>): nat {
    if |Sources(lines)| <= |Targets(lines)| then |Sources(lines)| else |Targets(lines)|
  }

  /** Whether the line at `s` is the line at `d` with one blank more. */
  predicate OneBlankMore(lines: seq<Line>, s: nat, d: nat)
    requires s < |lines| && d < |lines|
  {
    TrailingBlank(lines[s].text).Some? && TrailingBlank(lines[s].text).value.0 == lines[d].text
  }

  function Touched(lines: seq<Line>, s: nat, d: nat): seq<Line>
    requires s < |lines| && d < |lines|
  {
    if OneBlankMore(lines, s, d)
    then lines[d := lines[d].(text := lines[d].text + TrailingBlank(lines[s].text).value.1)]
    else lines
  }

  /** The lines after `k` turns. */
  ghost function After(lines: seq<Line>, k: nat): (after: seq<Line>)
    requires k <= Turns(lines)
    ensures |after| == |lines| && forall p :: 0 <= p < |lines| ==> after[p].kind == lines[p].kind
  {
    if k == 0 then lines else Touched(After(lines, k - 1), Sources(lines)[k - 1], Targets(lines)[k - 1])
  }

  lemma {:induction false} AtFirst(lines: seq<Line>)
    ensures After(lines, 0) == lines
  {
  }

  /** Turn `i` changes a line. */
  ghost predicate Changes(lines: seq<Line>, i: nat)
    requires i < Turns(lines)
  {
    OneBlankMore(After(lines, i), Sources(lines)[i], Targets(lines)[i])
  }

  /** `after` is `before` with at most one blank more at its end. */
  predicate Grown(before: Line, after: Line) {
    && after.kind == before.kind
    && (after.text == before.text
        || (IsDst(before.kind) && |after.text| == |before.text| + 1 && before.text <= after.text
            && IsBlank(after.text[|before.text|])))
  }

  lemma {:induction false} TouchedGrown(lines: seq<Line>, s: nat, d: nat)
    requires s < |lines| && d < |lines| && IsDst(lines[d].kind)
    ensures Grown(lines[d], Touched(lines, s, d)[d])
    ensures forall p :: 0 <= p < |lines| && p != d ==> Touched(lines, s, d)[p] == lines[p]
  {
  }

  lemma {:induction false} OtherTurn(lines: seq<Line>, k: nat, p: nat)
    requires k < Turns(lines) && p < |lines| && p != Targets(lines)[k]
    ensures After(lines, k + 1)[p] == After(lines, k)[p]
  {
    hide OneBlankMore, Sources, Targets;
  }

  /** A line is written to in its own turn at most: before that, and if it is only removed, it is as it was. */
  lemma {:induction false} NotYet(lines: seq<Line>, k: nat, p: nat)
    requires k <= Turns(lines) && p < |lines| && forall i :: 0 <= i < k ==> Targets(lines)[i] != p
    ensures After(lines, k)[p] == lines[p]
  {
    hide OneBlankMore, Sources, Targets, Touched;
    if k > 0 {
      NotYet(lines, k - 1, p);
      OtherTurn(lines, k - 1, p);
    }
  }

  lemma {:induction false} TargetTurn(lines: seq<Line>, i: nat, j: nat)
    requires i < |Targets(lines)| && j < |Targets(lines)| && i != j
    ensures Targets(lines)[i] != Targets(lines)[j]
  {
    assert Targets(lines)[if i < j then i else j] < Targets(lines)[if i < j then j else i];
  }

  /** A line keeps what its own turn made of it. */
  lemma {:induction false} KeptSince(lines: seq<Line>, i: nat, k: nat)
    requires i < k <= Turns(lines)
    ensures After(lines, k)[Targets(lines)[i]] == After(lines, i + 1)[Targets(lines)[i]]
  {
    hide After, Sources, Targets;
    if k > i + 1 {
      KeptSince(lines, i, k - 1);
      TargetTurn(lines, i, k - 1);
      OtherTurn(lines, k - 1, Targets(lines)[i]);
    }
  }

  lemma {:induction false} OwnTurn(lines: seq<Line>, i: nat)
    requires i < Turns(lines)
    ensures var d := Targets(lines)[i];
      && After(lines, i)[d] == lines[d] && Grown(lines[d], After(lines, i + 1)[d])
      && (After(lines, i + 1)[d] == lines[d] <==> !Changes(lines, i))
  {
    hide Sources, Grown;
    var d := Targets(lines)[i];
    forall j | 0 <= j < i
      ensures Targets(lines)[j] != d
    {
      TargetTurn(lines, j, i);
    }
    NotYet(lines, i, d);
    TouchedGrown(After(lines, i), Sources(lines)[i], d);
  }

  /* ----- the whole patchset ----- */

  /** Filtering a chunk does not fail. */
  ghost predicate Complete(c: Chunk) {
    |Sources(c.lines)| <= |Targets(c.lines)|
  }

  ghost function FilteredChunk(c: Chunk): Chunk {
    c.(lines := After(c.lines, Turns(c.lines)))
  }

  ghost predicate PatchComplete(p: Patch) {
    forall c :: 0 <= c < |p.chunks| ==> Complete(p.chunks[c])
  }

  /** The first `n` chunks of a patch are filtered up to and including the first that is not complete. */
  ghost function FilteredChunks(chunks: seq<Chunk>, n: nat): seq<Chunk>
    requires n <= |chunks|
  {
    if n == 0 then []
    else
      FilteredChunks(chunks, n - 1)
      + [if forall c :: 0 <= c < n - 1 ==> Complete(chunks[c]) then FilteredChunk(chunks[n - 1]) else chunks[n - 1]]
  }

  /** The first `n` patches, of which none behind an incomplete one is touched. */
  ghost function FilteredPatches(ps: seq<Patch>, n: nat): seq<Patch>
    requires n <= |ps|
  {
    if n == 0 then []
    else
      FilteredPatches(ps, n - 1)
      + [if forall i :: 0 <= i < n - 1 ==> PatchComplete(ps[i])
         then ps[n - 1].(chunks := FilteredChunks(ps[n - 1].chunks, |ps[n - 1].chunks|)) else ps[n - 1]]
  }

  ghost function Filtered(ps: seq<Patch>): seq<Patch> {
    FilteredPatches(ps, |ps|)
  }
}
