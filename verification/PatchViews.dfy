/** What the whitespace filter of utils/check-style.py keeps: the lines but for a blank at their end, and
    both views of every chunk. */
module PatchViews {
  import opened PatchText
  import opened PatchFilter

  /** No line is added, dropped, reordered or retyped, and none gets longer by more than one blank, context
      lines, which both views share, included. */
  lemma {:induction false} LinesGrow(lines: seq<Line>, p: nat)
    requires p < |lines|
    ensures Grown(lines[p], After(lines, Turns(lines))[p])
  {
    hide Sources, OneBlankMore;
    if i :| 0 <= i < Turns(lines) && Targets(lines)[i] == p {
      OwnTurn(lines, i);
      KeptSince(lines, i, Turns(lines));
    } else {
      NotYet(lines, Turns(lines), p);
    }
  }

  /* ----- both views ----- */

  function Stripped(text: string): string {
    if text != "" && IsBlank(text[|text| - 1]) then Stripped(text[..|text| - 1]) else text
  }

  function StrippedLines(lines: seq<Line>): seq<Line> {
    if lines == [] then []
    else StrippedLines(lines[..|lines| - 1]) + [lines[|lines| - 1].(text := Stripped(lines[|lines| - 1].text))]
  }

  lemma {:induction false} GrownStripped(before: Line, after: Line)
    requires Grown(before, after)
    ensures Stripped(after.text) == Stripped(before.text)
  {
    if after.text != before.text {
      assert after.text[..|after.text| - 1] == before.text;
    }
  }

  ghost predicate AllGrown(before: seq<Line>, after: seq<Line>) {
    |after| == |before| && forall p :: 0 <= p < |before| ==> Grown(before[p], after[p])
  }

  lemma {:induction false} StrippedOneMore(lines: seq<Line>, line: Line)
    ensures StrippedLines(lines + [line]) == StrippedLines(lines) + [line.(text := Stripped(line.text))]
  {
    assert (lines + [line])[..|lines|] == lines;
  }

  /** Trailing blanks aside, both views stay as they were. */
  lemma {:induction false} ViewsKept(before: seq<Line>, after: seq<Line>)
    requires AllGrown(before, after)
    ensures StrippedLines(SrcView(after)) == StrippedLines(SrcView(before))
    ensures StrippedLines(DstView(after)) == StrippedLines(DstView(before))
  {
    hide Stripped;
    if before != [] {
      var n := |before| - 1;
      assert Grown(before[n], after[n]);
      ViewsKept(before[..n], after[..n]);
      GrownStripped(before[n], after[n]);
      StrippedOneMore(SrcView(before[..n]), before[n]);
      StrippedOneMore(SrcView(after[..n]), after[n]);
      StrippedOneMore(DstView(before[..n]), before[n]);
      StrippedOneMore(DstView(after[..n]), after[n]);
      assert forall v: seq<Line> {:trigger StrippedLines(v)} :: v + [] == v;
    }
  }

  /* ----- the whole patchset ----- */

  /** The same positions, and lines that have grown. */
  ghost predicate ChunkKept(before: Chunk, after: Chunk) {
    after.srcPos == before.srcPos && after.dstPos == before.dstPos && AllGrown(before.lines, after.lines)
  }

  ghost predicate PatchKept(before: Patch, after: Patch) {
    && after.src == before.src && after.dst == before.dst && |after.chunks| == |before.chunks|
    && forall c :: 0 <= c < |before.chunks| ==> ChunkKept(before.chunks[c], after.chunks[c])
  }

  lemma {:induction false} ChunkFiltered(c: Chunk)
    ensures ChunkKept(c, FilteredChunk(c)) && ChunkKept(c, c)
  {
    hide Grown, Turns;
    forall p | 0 <= p < |c.lines|
      ensures Grown(c.lines[p], After(c.lines, Turns(c.lines))[p])
    {
      LinesGrow(c.lines, p);
    }
    forall p | 0 <= p < |c.lines|
      ensures Grown(c.lines[p], c.lines[p])
    {
      SameGrown(c.lines[p]);
    }
  }

  lemma {:induction false} SameGrown(line: Line)
    ensures Grown(line, line)
  {
  }

  lemma {:induction false} ChunksSame(chunks: seq<Chunk>)
    ensures forall c :: 0 <= c < |chunks| ==> ChunkKept(chunks[c], chunks[c])
  {
    hide ChunkKept;
    if chunks != [] {
      var n := |chunks| - 1;
      ChunksSame(chunks[..n]);
      ChunkFiltered(chunks[n]);
      assert forall c :: 0 <= c < n ==> chunks[..n][c] == chunks[c];
    }
  }

  lemma {:induction false} ChunksFiltered(chunks: seq<Chunk>, n: nat)
    requires n <= |chunks|
    ensures |FilteredChunks(chunks, n)| == n
    ensures forall c :: 0 <= c < n ==> ChunkKept(chunks[c], FilteredChunks(chunks, n)[c])
  {
    hide ChunkKept, FilteredChunk, Complete;
    if n > 0 {
      ChunksFiltered(chunks, n - 1);
      ChunkFiltered(chunks[n - 1]);
    }
  }

  lemma {:induction false} PatchesFiltered(ps: seq<Patch>, n: nat)
    requires n <= |ps|
    ensures |FilteredPatches(ps, n)| == n
    ensures forall i :: 0 <= i < n ==> PatchKept(ps[i], FilteredPatches(ps, n)[i])
  {
    hide ChunkKept, FilteredChunks, PatchComplete;
    if n > 0 {
      PatchesFiltered(ps, n - 1);
      ChunksFiltered(ps[n - 1].chunks, |ps[n - 1].chunks|);
      ChunksSame(ps[n - 1].chunks);
    }
  }

  /** Whether or not the filter stops early, the patchset keeps its shape, no line grows by more than one
      blank, and both views of every chunk stay as they were but for trailing blanks. */
  lemma {:induction false} FilterKeeps(ps: seq<Patch>, i: nat, c: nat)
    requires i < |ps| && c < |ps[i].chunks|
    ensures |Filtered(ps)| == |ps| && PatchKept(ps[i], Filtered(ps)[i])
    ensures var before, after := ps[i].chunks[c].lines, Filtered(ps)[i].chunks[c].lines;
      && AllGrown(before, after)
      && StrippedLines(SrcView(after)) == StrippedLines(SrcView(before))
      && StrippedLines(DstView(after)) == StrippedLines(DstView(before))
  {
    hide FilteredPatches, AllGrown, StrippedLines, SrcView, DstView;
    PatchesFiltered(ps, |ps|);
    assert ChunkKept(ps[i].chunks[c], Filtered(ps)[i].chunks[c]);
    ViewsKept(ps[i].chunks[c].lines, Filtered(ps)[i].chunks[c].lines);
  }
}
