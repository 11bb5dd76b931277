/** When the patchset that the whitespace filter of utils/check-style.py leaves can be read back: what can
    be told from the lines before they are filtered. */
module PatchReread {
  import opened Options
  import opened PatchText
  import opened PatchFilter
  import opened PatchRoundTrip
  import opened PatchViews

  /* ----- what each turn appends, from the lines as they are ----- */

  /** The source's trailing blank, if the target is the rest of the source. */
  ghost function BlankFor(source: string, target: string): string {
    match TrailingBlank(source)
    case None => ""
    case Some((front, blank)) => if front == target then blank else ""
  }

  /** The text of the line at `p` when turn `k` begins: its own, and what its own turn has appended. */
  ghost function TextAt(lines: seq<Line>, p: nat, k: nat): string
    requires k <= Turns(lines) && p < |lines|
    decreases k, 0
  {
    if k == 0 then lines[p].text
    else if Targets(lines)[k - 1] == p then lines[p].text + Appended(lines, k - 1)
    else TextAt(lines, p, k - 1)
  }

  /** What turn `k` appends to its target, if anything. */
  ghost function Appended(lines: seq<Line>, k: nat): string
    requires k < Turns(lines)
    decreases k, 1
  {
    BlankFor(TextAt(lines, Sources(lines)[k], k), lines[Targets(lines)[k]].text)
  }

  lemma {:induction false} TurnText(lines: seq<Line>, k: nat)
    requires k < Turns(lines)
    ensures var s, d := Sources(lines)[k], Targets(lines)[k];
      After(lines, k + 1)[d].text == lines[d].text + BlankFor(After(lines, k)[s].text, lines[d].text)
  {
    hide TrailingBlank, Sources, Targets, Grown, Changes;
    OwnTurn(lines, k);
    assert lines[Targets(lines)[k]].text + "" == lines[Targets(lines)[k]].text;
  }

  lemma {:induction false} TextAtAfter(lines: seq<Line>, p: nat, k: nat)
    requires k <= Turns(lines) && p < |lines|
    ensures After(lines, k)[p].text == TextAt(lines, p, k)
    decreases k
  {
    hide BlankFor, After, Sources, Targets;
    if k == 0 {
      AtFirst(lines);
    } else if Targets(lines)[k - 1] == p {
      TextAtAfter(lines, Sources(lines)[k - 1], k - 1);
      TurnText(lines, k - 1);
    } else {
      TextAtAfter(lines, p, k - 1);
      OtherTurn(lines, k - 1, p);
    }
  }

  lemma {:induction false} BlankAppended(lines: seq<Line>, k: nat)
    requires k < Turns(lines)
    ensures Appended(lines, k) == "" || Appended(lines, k) == " " || Appended(lines, k) == "\t"
  {
    hide TextAt;
    var text := TextAt(lines, Sources(lines)[k], k);
    assert TrailingBlank(text).Some? ==> |TrailingBlank(text).value.1| == 1 && IsBlank(TrailingBlank(text).value.1[0]);
  }

  lemma {:induction false} TextStaysFree(lines: seq<Line>, p: nat, k: nat)
    requires k <= Turns(lines) && p < |lines| && NoNewline(lines[p].text)
    ensures NoNewline(TextAt(lines, p, k))
    decreases k
  {
    hide Appended;
    if k > 0 {
      BlankAppended(lines, k - 1);
      TextStaysFree(lines, p, k - 1);
    }
  }

  /* ----- added lines that begin to look like a file name ----- */

  /** An added line `++` with a space more reads as a file name. */
  ghost predicate TurnsIntoHeader(before: Line, after: Line) {
    before.kind == Dst && before.text == "++" && after.text == "++ "
  }

  /** In turn `k` an added line `++` meets the source text `++ `. */
  ghost predicate MakesHeaderAt(lines: seq<Line>, k: nat)
    requires k < Turns(lines)
  {
    lines[Targets(lines)[k]] == Line(Dst, "++") && TextAt(lines, Sources(lines)[k], k) == "++ "
  }

  ghost predicate MakesHeader(lines: seq<Line>) {
    exists k {:trigger MakesHeaderAt(lines, k)} :: 0 <= k < Turns(lines) && MakesHeaderAt(lines, k)
  }

  lemma {:induction false} SpaceBehind(text: string)
    requires NoNewline(text)
    ensures TrailingBlank(text) == Some(("++", " ")) <==> text == "++ "
  {
    assert "++ "[..2] == "++" && "++ "[2..] == " ";
    if TrailingBlank(text) == Some(("++", " ")) {
      assert text == text[..|text| - 1] + text[|text| - 1..];
    }
  }

  lemma {:induction false} HeaderTurn(lines: seq<Line>, k: nat)
    requires k < Turns(lines) && LinesOk(lines) && lines[Targets(lines)[k]] == Line(Dst, "++")
    ensures After(lines, Turns(lines))[Targets(lines)[k]].text == "++ " <==> MakesHeaderAt(lines, k)
  {
    hide TrailingBlank, Sources, Targets, After;
    var s, d := Sources(lines)[k], Targets(lines)[k];
    KeptSince(lines, k, Turns(lines));
    TextAtAfter(lines, d, k + 1);
    assert LineOk(lines[s]);
    TextStaysFree(lines, s, k);
    SpaceBehind(TextAt(lines, s, k));
    BlankAppended(lines, k);
    assert TextAt(lines, d, k + 1) == "++" + Appended(lines, k);
    assert "++" + " " == "++ " && "++" + "" == "++" && ("++" + "\t")[2] == '\t';
  }

  /** Seen from the lines before they are filtered. */
  lemma {:induction false} HeaderMadeIff(lines: seq<Line>)
    requires LinesOk(lines)
    ensures MakesHeader(lines) <==>
            exists p :: 0 <= p < |lines| && TurnsIntoHeader(lines[p], After(lines, Turns(lines))[p])
  {
    hide LinesOk, After, Sources, Targets, MakesHeaderAt;
    if p: nat :| p < |lines| && TurnsIntoHeader(lines[p], After(lines, Turns(lines))[p]) {
      if k: nat :| k < Turns(lines) && Targets(lines)[k] == p {
        HeaderTurn(lines, k);
      } else {
        NotYet(lines, Turns(lines), p);
      }
    }
    if k: nat :| k < Turns(lines) && MakesHeaderAt(lines, k) {
      HeaderTarget(lines, k);
      HeaderTurn(lines, k);
      var d := Targets(lines)[k];
      assert d < |lines| && TurnsIntoHeader(lines[d], After(lines, Turns(lines))[d]);
    }
  }

  lemma {:induction false} HeaderTarget(lines: seq<Line>, k: nat)
    requires k < Turns(lines) && MakesHeaderAt(lines, k)
    ensures lines[Targets(lines)[k]] == Line(Dst, "++")
  {
  }

  lemma {:induction false} GrownOk(before: Line, after: Line)
    requires LineOk(before) && Grown(before, after)
    ensures LineOk(after) <==> !TurnsIntoHeader(before, after)
  {
    if after.text != before.text {
      var n := |before.text|;
      assert forall i :: 0 <= i < n ==> after.text[i] == before.text[i];
      assert NoNewline(after.text);
      assert before.text == after.text[..n] && after.text == before.text + [after.text[n]];
      assert n >= 3 ==> before.text[..3] == after.text[..3];
      assert n == 2 && "++ " <= after.text ==> before.text == "++ "[..2] == "++";
    }
  }

  /* ----- the whole patchset ----- */

  /** No chunk before it makes the filter stop. */
  ghost predicate ReachesChunk(ps: seq<Patch>, i: nat, c: nat)
    requires i < |ps| && c < |ps[i].chunks|
  {
    && (forall j :: 0 <= j < i ==> PatchComplete(ps[j]))
    && forall d :: 0 <= d < c ==> Complete(ps[i].chunks[d])
  }

  lemma {:induction false} FilteredChunksAt(chunks: seq<Chunk>, n: nat, c: nat)
    requires c < n <= |chunks|
    ensures |FilteredChunks(chunks, n)| == n
    ensures FilteredChunks(chunks, n)[c] ==
            if forall d :: 0 <= d < c ==> Complete(chunks[d]) then FilteredChunk(chunks[c]) else chunks[c]
  {
    hide Complete, FilteredChunk, ChunkKept;
    ChunksFiltered(chunks, n - 1);
    if c < n - 1 {
      FilteredChunksAt(chunks, n - 1, c);
    }
  }

  lemma {:induction false} FilteredPatchesAt(ps: seq<Patch>, n: nat, i: nat)
    requires i < n <= |ps|
    ensures |FilteredPatches(ps, n)| == n
    ensures FilteredPatches(ps, n)[i] ==
            if forall j :: 0 <= j < i ==> PatchComplete(ps[j])
            then ps[i].(chunks := FilteredChunks(ps[i].chunks, |ps[i].chunks|)) else ps[i]
  {
    hide PatchComplete, FilteredChunks, PatchKept;
    PatchesFiltered(ps, n - 1);
    if i < n - 1 {
      FilteredPatchesAt(ps, n - 1, i);
    }
  }

  lemma {:induction false} FilteredAt(ps: seq<Patch>, i: nat, c: nat)
    requires i < |ps| && c < |ps[i].chunks|
    ensures |Filtered(ps)| == |ps| && |Filtered(ps)[i].chunks| == |ps[i].chunks|
    ensures Filtered(ps)[i].chunks[c] ==
            if ReachesChunk(ps, i, c) then FilteredChunk(ps[i].chunks[c]) else ps[i].chunks[c]
  {
    hide Complete, PatchComplete, FilteredChunk;
    FilteredPatchesAt(ps, |ps|, i);
    FilteredChunksAt(ps[i].chunks, |ps[i].chunks|, c);
  }

  /** Whether a chunk's lines can still be read back once the filter is through. */
  lemma {:induction false} ChunkReadable(ps: seq<Patch>, i: nat, c: nat)
    requires i < |ps| && c < |ps[i].chunks| && LinesOk(ps[i].chunks[c].lines)
    ensures |Filtered(ps)| == |ps| && |Filtered(ps)[i].chunks| == |ps[i].chunks|
    ensures LinesOk(Filtered(ps)[i].chunks[c].lines) <==>
            !(ReachesChunk(ps, i, c) && MakesHeader(ps[i].chunks[c].lines))
  {
    hide ReachesChunk, MakesHeader, Filtered, LineOk, TurnsIntoHeader, Turns, After;
    FilteredAt(ps, i, c);
    var lines := ps[i].chunks[c].lines;
    if ReachesChunk(ps, i, c) {
      HeaderMadeIff(lines);
      forall p | 0 <= p < |lines|
        ensures LineOk(After(lines, Turns(lines))[p]) <==> !TurnsIntoHeader(lines[p], After(lines, Turns(lines))[p])
      {
        LinesGrow(lines, p);
        GrownOk(lines[p], After(lines, Turns(lines))[p]);
      }
    }
  }

  /** No chunk that the filter reaches has a turn that makes a file name of an added line. */
  ghost predicate NoHeaderMade(ps: seq<Patch>, i: nat)
    requires i < |ps|
  {
    forall c :: 0 <= c < |ps[i].chunks| && ReachesChunk(ps, i, c) ==> !MakesHeader(ps[i].chunks[c].lines)
  }

  lemma {:induction false} PatchReadable(ps: seq<Patch>, i: nat)
    requires i < |ps| && PatchOk(ps[i])
    ensures |Filtered(ps)| == |ps| && (PatchOk(Filtered(ps)[i]) <==> NoHeaderMade(ps, i))
  {
    hide ReachesChunk, MakesHeader, Filtered, LinesOk, FilteredPatches;
    PatchesFiltered(ps, |ps|);
    FilteredIs(ps);
    assert PatchKept(ps[i], Filtered(ps)[i]);
    forall c | 0 <= c < |ps[i].chunks|
      ensures LinesOk(Filtered(ps)[i].chunks[c].lines) <==>
              !(ReachesChunk(ps, i, c) && MakesHeader(ps[i].chunks[c].lines))
    {
      ChunkReadable(ps, i, c);
    }
  }

  lemma {:induction false} FilteredIs(ps: seq<Patch>)
    ensures Filtered(ps) == FilteredPatches(ps, |ps|)
  {
  }

  lemma {:induction false} KeptWritable(before: Patch, after: Patch)
    requires PatchKept(before, after) && PatchWritable(before)
    ensures PatchWritable(after)
  {
    forall c | 0 <= c < |after.chunks|
      ensures Writable(after.chunks[c].lines)
    {
      assert ChunkKept(before.chunks[c], after.chunks[c]) && Writable(before.chunks[c].lines);
      assert forall p :: 0 <= p < |before.chunks[c].lines| ==>
        Grown(before.chunks[c].lines[p], after.chunks[c].lines[p]);
    }
  }

  /** The filtered patchset is read back as it was written exactly when no chunk the filter reaches has a
      turn in which an added line `++` meets the source text `++ `. */
  lemma {:induction false} FilteredRoundTrip(ps: seq<Patch>)
    requires AllOk(ps) && AllWritable(ps)
    ensures Parsed(Printed(Filtered(ps))) == Some(Filtered(ps)) <==>
            forall i :: 0 <= i < |ps| ==> NoHeaderMade(ps, i)
  {
    hide FilteredPatches, PatchKept, PatchOk, PatchWritable, Printed, Parsed, NoHeaderMade;
    PatchesFiltered(ps, |ps|);
    forall i | 0 <= i < |ps|
      ensures PatchWritable(Filtered(ps)[i])
      ensures PatchOk(Filtered(ps)[i]) <==> NoHeaderMade(ps, i)
    {
      KeptWritable(ps[i], Filtered(ps)[i]);
      PatchReadable(ps, i);
    }
    RoundTripIff(Filtered(ps));
  }

  /* ----- it can fail ----- */

  const HEADER_LINES := [Line(Dst, "++"), Line(Src, "++ ")]

  lemma {:induction false} AddedThenRemoved(a: Line, b: Line)
    requires a.kind == Dst && b.kind == Src
    ensures Sources([a, b]) == [1] && Targets([a, b]) == [0] && Turns([a, b]) == 1
  {
    hide SrcPlaces, DstPlaces;
    NextPlace([a, b], 0);
    NextPlace([a, b], 1);
  }

  lemma {:induction false} HeaderLinesOk()
    ensures LineOk(HEADER_LINES[0]) && LineOk(HEADER_LINES[1])
  {
    assert "-- "[0] != "++ "[0];
  }

  lemma {:induction false} HeaderLinesMake()
    ensures LinesOk(HEADER_LINES) && Writable(HEADER_LINES) && MakesHeader(HEADER_LINES)
  {
    hide LineOk, Sources, Targets, Turns, Appended;
    HeaderLinesOk();
    AddedThenRemoved(HEADER_LINES[0], HEADER_LINES[1]);
    assert HEADER_LINES == [HEADER_LINES[0], HEADER_LINES[1]];
    assert MakesHeaderAt(HEADER_LINES, 0);
  }

  /** An added `++` beside a removed `++ `: the patchset can be read back before the filter, not after it. */
  lemma {:induction false} FilteredRoundTripFails(src: string, dst: string)
    requires NoNewline(src) && NoNewline(dst)
    ensures var ps := [Patch(src, dst, [Chunk(1, 1, HEADER_LINES)])];
      Parsed(Printed(ps)) == Some(ps) && Parsed(Printed(Filtered(ps))) != Some(Filtered(ps))
  {
    hide LinesOk, Writable, MakesHeader, Printed, Parsed, Filtered;
    var ps := [Patch(src, dst, [Chunk(1, 1, HEADER_LINES)])];
    HeaderLinesMake();
    assert PatchOk(ps[0]) && PatchWritable(ps[0]);
    RoundTripIff(ps);
    FilteredRoundTrip(ps);
    assert ReachesChunk(ps, 0, 0);
    assert !NoHeaderMade(ps, 0);
  }
}
