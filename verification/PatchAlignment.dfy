/** Whether a line that the whitespace filter of utils/check-style.py has changed equals the source line it
    is aligned with. */
module PatchAlignment {
  import opened PatchText
  import opened PatchFilter

  /** A line of both views that comes later as a target than as a source is compared, in its turn as a
      target, with a source that has not been touched. */
  lemma {:induction false} LaterSourceUntouched(lines: seq<Line>, i: nat, j: nat)
    requires i < j < Turns(lines) && Targets(lines)[j] == Sources(lines)[i]
    ensures After(lines, j)[Sources(lines)[j]] == lines[Sources(lines)[j]]
  {
    hide OneBlankMore;
    var s := Sources(lines)[j];
    assert s > Sources(lines)[i];
    forall m | 0 <= m < j
      ensures Targets(lines)[m] != s
    {
      assert Targets(lines)[m] < Targets(lines)[j];
    }
    NotYet(lines, j, s);
  }

  /** The source line of turn `i` is a context line that a later turn makes longer, as can be seen from the
      lines themselves. */
  ghost predicate SourceGrowsLater(lines: seq<Line>, i: nat)
    requires i < Turns(lines)
  {
    exists j ::
      && i < j < Turns(lines) && Targets(lines)[j] == Sources(lines)[i]
      && OneBlankMore(lines, Sources(lines)[j], Targets(lines)[j])
  }

  lemma {:induction false} ChangesLater(lines: seq<Line>, i: nat, j: nat)
    requires i < j < Turns(lines) && Targets(lines)[j] == Sources(lines)[i]
    ensures Changes(lines, j) <==> OneBlankMore(lines, Sources(lines)[j], Targets(lines)[j])
  {
    LaterSourceUntouched(lines, i, j);
    OwnTurn(lines, j);
  }

  /** A line just changed equals the source line it is aligned with. */
  lemma {:induction false} AlignedThen(lines: seq<Line>, i: nat)
    requires i < Turns(lines) && Changes(lines, i) && NoNewline(After(lines, i)[Sources(lines)[i]].text)
    ensures After(lines, i + 1)[Targets(lines)[i]].text == After(lines, i)[Sources(lines)[i]].text
    ensures Targets(lines)[i] != Sources(lines)[i]
  {
    var text := After(lines, i)[Sources(lines)[i]].text;
    assert text == text[..|text| - 1] + text[|text| - 1..];
  }

  /** In the end it still does exactly when that source line is not itself made longer later on. */
  lemma {:induction false} AlignedIff(lines: seq<Line>, i: nat)
    requires i < Turns(lines) && Changes(lines, i) && NoNewline(After(lines, i)[Sources(lines)[i]].text)
    ensures var end := After(lines, Turns(lines));
      end[Targets(lines)[i]].text == end[Sources(lines)[i]].text <==> !SourceGrowsLater(lines, i)
  {
    hide OneBlankMore, Grown, Changes;
    var s, end := Sources(lines)[i], After(lines, Turns(lines));
    AlignedThen(lines, i);
    KeptSince(lines, i, Turns(lines));
    if j :| i < j < Turns(lines) && Targets(lines)[j] == s {
      ChangesLater(lines, i, j);
      OwnTurn(lines, j);
      KeptSince(lines, j, Turns(lines));
      OnlyTurn(lines, i, j);
      BeforeTurn(lines, i, j);
    } else {
      StaysFrom(lines, i, Turns(lines), s);
    }
  }

  /** A line written to in turn `j` was still itself in any turn before. */
  lemma {:induction false} BeforeTurn(lines: seq<Line>, i: nat, j: nat)
    requires i < j < Turns(lines)
    ensures After(lines, i)[Targets(lines)[j]] == lines[Targets(lines)[j]]
  {
    forall m | 0 <= m < i
      ensures Targets(lines)[m] != Targets(lines)[j]
    {
      TargetTurn(lines, m, j);
    }
    NotYet(lines, i, Targets(lines)[j]);
  }

  lemma {:induction false} OnlyTurn(lines: seq<Line>, i: nat, j: nat)
    requires i < j < Turns(lines) && Targets(lines)[j] == Sources(lines)[i]
    ensures SourceGrowsLater(lines, i) <==> OneBlankMore(lines, Sources(lines)[j], Targets(lines)[j])
  {
    hide OneBlankMore;
    forall m | i < m < Turns(lines) && Targets(lines)[m] == Sources(lines)[i]
      ensures m == j
    {
      if m != j {
        TargetTurn(lines, m, j);
      }
    }
  }

  lemma {:induction false} StaysFrom(lines: seq<Line>, i: nat, k: nat, p: nat)
    requires i < k <= Turns(lines) && p < |lines| && p != Targets(lines)[i]
    requires forall j :: i < j < Turns(lines) ==> Targets(lines)[j] != p
    ensures After(lines, k)[p] == After(lines, i)[p]
  {
    hide After, Sources, Targets;
    if k > i + 1 {
      StaysFrom(lines, i, k - 1, p);
    }
    OtherTurn(lines, k - 1, p);
  }

  /** An added `a`, a context line with one blank more and a removed line with two. */
  const STAIRCASE := [Line(Dst, "a"), Line(Both, "a "), Line(Src, "a  ")]

  lemma {:induction false} AddedBothRemoved(a: Line, b: Line, c: Line)
    requires a.kind == Dst && b.kind == Both && c.kind == Src
    ensures Sources([a, b, c]) == [1, 2] && Targets([a, b, c]) == [0, 1] && Turns([a, b, c]) == 2
  {
    hide SrcPlaces, DstPlaces;
    NextPlace([a, b, c], 0);
    NextPlace([a, b, c], 1);
    NextPlace([a, b, c], 2);
  }

  lemma {:induction false} StaircaseBlanks()
    ensures OneBlankMore(STAIRCASE, 1, 0) && OneBlankMore(STAIRCASE, 2, 1)
  {
    assert "a "[..1] == "a" && "a  "[..2] == "a ";
  }

  /** It can fail: the added line follows the context line, which then gets longer itself. */
  lemma {:induction false} AlignmentLost()
    ensures Turns(STAIRCASE) == 2 && Changes(STAIRCASE, 0)
    ensures After(STAIRCASE, 2)[Targets(STAIRCASE)[0]].text != After(STAIRCASE, 2)[Sources(STAIRCASE)[0]].text
  {
    hide OneBlankMore, Sources, Targets, Turns;
    AddedBothRemoved(STAIRCASE[0], STAIRCASE[1], STAIRCASE[2]);
    assert STAIRCASE == [STAIRCASE[0], STAIRCASE[1], STAIRCASE[2]];
    StaircaseBlanks();
    assert After(STAIRCASE, 0) == STAIRCASE;
    assert NoNewline(STAIRCASE[1].text);
    AlignedIff(STAIRCASE, 0);
  }
}
