/** What one turn of the whitespace filter of utils/check-style.py does to the lines of a chunk, told from
    their texts alone. */
module PatchTurns {
  import opened Options
  import opened PatchText
  import opened PatchFilter

  /* ----- which lines meet ----- */

  lemma {:induction false} PlacesUpTo(lines: seq<Line>, n: nat)
    requires n <= |lines|
    ensures forall p :: 0 <= p < n ==> (p in SrcPlaces(lines, n) <==> lines[p].kind in {Src, Both})
    ensures forall p :: 0 <= p < n ==> (p in DstPlaces(lines, n) <==> lines[p].kind in {Dst, Both})
  {
    hide SrcPlaces, DstPlaces;
    if n > 0 {
      PlacesUpTo(lines, n - 1);
      NextPlace(lines, n - 1);
    }
  }

  /** Turn by turn the next removed or context line meets the next added or context line, until one of the
      two views ends. */
  lemma {:induction false} LinesMeet(lines: seq<Line>)
    ensures forall p :: 0 <= p < |lines| ==> (p in Sources(lines) <==> lines[p].kind in {Src, Both})
    ensures forall p :: 0 <= p < |lines| ==> (p in Targets(lines) <==> lines[p].kind in {Dst, Both})
    ensures forall i, j :: 0 <= i < j < |Sources(lines)| ==> Sources(lines)[i] < Sources(lines)[j]
    ensures forall i, j :: 0 <= i < j < |Targets(lines)| ==> Targets(lines)[i] < Targets(lines)[j]
    ensures Turns(lines) <= |Sources(lines)| && Turns(lines) <= |Targets(lines)|
    ensures Turns(lines) == |Sources(lines)| || Turns(lines) == |Targets(lines)|
  {
    hide SrcPlaces, DstPlaces;
    PlacesUpTo(lines, |lines|);
  }

  /** The lines at the given places. */
  ghost predicate At(view: seq<Line>, lines: seq<Line>, places: seq<nat>) {
    |view| == |places| && forall i :: 0 <= i < |places| ==> places[i] < |lines| && view[i] == lines[places[i]]
  }

  lemma {:induction false} OneMoreAt(view: seq<Line>, lines: seq<Line>, places: seq<nat>, n: nat, here: bool)
    requires At(view, lines, places) && n < |lines|
    ensures At(view + if here then [lines[n]] else [], lines, places + if here then [n] else [])
  {
  }

  lemma {:induction false} ViewsUpTo(lines: seq<Line>, n: nat)
    requires n <= |lines|
    ensures At(SrcView(lines[..n]), lines, SrcPlaces(lines, n))
    ensures At(DstView(lines[..n]), lines, DstPlaces(lines, n))
  {
    if n > 0 {
      hide At, SrcPlaces, DstPlaces;
      ViewsUpTo(lines, n - 1);
      NextPlace(lines, n - 1);
      assert lines[..n][..n - 1] == lines[..n - 1];
      OneMoreAt(SrcView(lines[..n - 1]), lines, SrcPlaces(lines, n - 1), n - 1, IsSrc(lines[n - 1].kind));
      OneMoreAt(DstView(lines[..n - 1]), lines, DstPlaces(lines, n - 1), n - 1, IsDst(lines[n - 1].kind));
    }
  }

  /** The two views hold these lines in order. */
  lemma {:induction false} ViewsAre(lines: seq<Line>)
    ensures At(SrcView(lines), lines, Sources(lines)) && At(DstView(lines), lines, Targets(lines))
  {
    hide SrcPlaces, DstPlaces, SrcView, DstView;
    ViewsUpTo(lines, |lines|);
    assert lines[..|lines|] == lines;
  }

  /* ----- what happens when two lines meet ----- */

  /** `text` is `front` and the character `c`, with one newline behind it or none. */
  predicate Follows(text: string, front: string, c: char) {
    NoNewline(front) && (text == front + [c] || text == front + [c, '\n'])
  }

  lemma {:induction false} BlankBehind(source: string, target: string)
    ensures TrailingBlank(source).Some? && TrailingBlank(source).value.0 == target <==>
            Follows(source, target, ' ') || Follows(source, target, '\t')
    ensures Follows(source, target, ' ') ==> TrailingBlank(source).value == (target, " ")
    ensures Follows(source, target, '\t') ==> TrailingBlank(source).value == (target, "\t")
  {
    var body := if source != "" && source[|source| - 1] == '\n' then source[..|source| - 1] else source;
    if TrailingBlank(source).Some? && TrailingBlank(source).value.0 == target {
      assert body == target + [body[|body| - 1]];
      assert source == body || source == body + "\n";
      assert body + "\n" == target + [body[|body| - 1], '\n'];
    }
    if c :| c in {' ', '\t'} && Follows(source, target, c) {
      assert source == target + [c, '\n'] ==> source[..|source| - 1] == target + [c];
      assert body == target + [c];
      assert body[..|body| - 1] == target && body[|body| - 1..] == [c];
    }
  }

  /** Turn `i` appends a space to its target if the source text is the target text and a space, a tab if it is
      the target text and a tab, and else nothing; all other lines stay as they are. */
  lemma {:induction false} TurnMeans(lines: seq<Line>, i: nat)
    requires i < Turns(lines)
    ensures var s, d := Sources(lines)[i], Targets(lines)[i];
      && var source, target := After(lines, i)[s].text, After(lines, i)[d].text;
      After(lines, i + 1) == After(lines, i)[d := Line(lines[d].kind,
        if Follows(source, target, ' ') then target + " "
        else if Follows(source, target, '\t') then target + "\t"
        else target)]
  {
    hide Sources, Targets, TrailingBlank, Follows;
    var s, d := Sources(lines)[i], Targets(lines)[i];
    var before := After(lines, i);
    BlankBehind(before[s].text, before[d].text);
    assert before[d := before[d]] == before;
  }

  /** So for texts without newlines a turn changes its target exactly if the source text is the target text
      with a space or a tab more, and makes it that text. */
  lemma {:induction false} TurnCopies(lines: seq<Line>, i: nat)
    requires i < Turns(lines) && NoNewline(After(lines, i)[Sources(lines)[i]].text)
    ensures var s, d := Sources(lines)[i], Targets(lines)[i];
      && var source, target := After(lines, i)[s].text, After(lines, i)[d].text;
      && After(lines, i + 1)[d].text == (if source in {target + " ", target + "\t"} then source else target)
      && (Changes(lines, i) <==> source in {target + " ", target + "\t"})
  {
    hide Sources, Targets, TrailingBlank;
    var source, target := After(lines, i)[Sources(lines)[i]].text, After(lines, i)[Targets(lines)[i]].text;
    BlankBehind(source, target);
    TurnMeans(lines, i);
    FollowsFree(source, target, ' ');
    FollowsFree(source, target, '\t');
  }

  lemma {:induction false} FollowsFree(source: string, target: string, c: char)
    requires NoNewline(source)
    ensures Follows(source, target, c) <==> source == target + [c]
  {
    if source == target + [c] {
      assert forall i :: 0 <= i < |target| ==> target[i] == source[i];
    }
    assert (target + [c, '\n'])[|target| + 1] == '\n';
  }
}
