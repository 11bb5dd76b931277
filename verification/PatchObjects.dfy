/** The classes `PatchChunkLine`, `PatchChunk` and `Patch` of utils/check-style.py, the parser that builds
    them and the filter that changes line objects shared by the two views of a chunk. */
module PatchObjects {
  import opened Options
  import opened PatchText
  import opened PatchFilter
  import opened PatchRoundTrip

  class OutFile {
    var written: seq<string>

    constructor ()
      ensures written == []
    {
      written := [];
    }

    method Write(s: string)
      modifies this
      ensures written == old(written) + [s]
    {
      written := written + [s];
    }
  }

  class PatchChunkLine {
    var kind: Kind
    var line: string
    ghost var owner: PatchChunk?
    ghost var place: nat

    constructor ()
      ensures kind == Unset && line == ""
    {
      kind, line, owner, place := Unset, "", null, 0;
    }

    method SetSrc(line: string)
      modifies this`kind, this`line
      ensures kind == Src && this.line == line
    {
      this.kind, this.line := Src, line;
    }

    method SetDst(line: string)
      modifies this`kind, this`line
      ensures kind == Dst && this.line == line
    {
      this.kind, this.line := Dst, line;
    }

    method SetBoth(line: string)
      modifies this`kind, this`line
      ensures kind == Both && this.line == line
    {
      this.kind, this.line := Both, line;
    }

    method AppendToLine(s: string)
      modifies this`line
      ensures line == old(line) + s
    {
      line := line + s;
    }

    /** A line that was never set is not written. */
    method Write(f: OutFile) returns (ok: bool)
      modifies f
      ensures ok <==> kind != Unset
      ensures f.written == if ok then old(f.written) + [LineText(Line(kind, line))] else old(f.written)
    {
      if kind == Src {
        f.Write("-" + line + "\n");
      } else if kind == Dst {
        f.Write("+" + line + "\n");
      } else if kind == Both {
        f.Write(" " + line + "\n");
      } else {
        return false;
      }
      ok := true;
    }
  }

  ghost predicate ShowsLine(o: PatchChunkLine, v: Line)
    reads o
  {
    o.kind == v.kind && o.line == v.text
  }

  /** Line `i` of the chunk is an object of its own. */
  ghost predicate ShowsLineAt(o: PatchChunk, v: Chunk, i: nat)
    requires i < |o.lines| == |v.lines|
    reads o, o.lines
  {
    o.lines[i].owner == o && o.lines[i].place == i && ShowsLine(o.lines[i], v.lines[i])
  }

  ghost predicate ShowsChunk(o: PatchChunk, v: Chunk)
    reads o, o.lines
  {
    && o.srcPos == v.srcPos && o.dstPos == v.dstPos && |o.lines| == |v.lines|
    && forall i {:trigger ShowsLineAt(o, v, i)} :: 0 <= i < |o.lines| ==> ShowsLineAt(o, v, i)
  }

  /** The lines that stand at some places. */
  ghost predicate LinesAt(o: PatchChunk, objects: seq<PatchChunkLine>, places: seq<nat>)
    reads o
  {
    && |objects| == |places|
    && forall i :: 0 <= i < |objects| ==> places[i] < |o.lines| && objects[i] == o.lines[places[i]]
  }

  class PatchChunk {
    var lines: seq<PatchChunkLine>
    var srcPos: nat
    var dstPos: nat
    ghost var owner: Patch?
    ghost var place: nat

    constructor (srcPos: nat, dstPos: nat)
      ensures lines == [] && ShowsChunk(this, Chunk(srcPos, dstPos, []))
    {
      lines, this.srcPos, this.dstPos, owner, place := [], srcPos, dstPos, null, 0;
    }

    method AddLine(line: PatchChunkLine, ghost v: Chunk)
      requires ShowsChunk(this, v) && line !in lines
      modifies this`lines, line`owner, line`place
      ensures lines == old(lines) + [line]
      ensures ShowsChunk(this, WithLine(v, Line(line.kind, line.line)))
    {
      line.owner, line.place := this, |lines|;
      lines := lines + [line];
      ghost var w := WithLine(v, Line(line.kind, line.line));
      forall i | 0 <= i < |lines|
        ensures ShowsLineAt(this, w, i)
      {
        assert i < |v.lines| ==> old(ShowsLineAt(this, v, i));
      }
    }

    /** `src`: the objects themselves, not copies. */
    method Source(ghost v: Chunk) returns (src: seq<PatchChunkLine>)
      requires ShowsChunk(this, v)
      ensures LinesAt(this, src, Sources(v.lines))
    {
      src := [];
      for i := 0 to |lines|
        invariant LinesAt(this, src, SrcPlaces(v.lines, i))
      {
        assert ShowsLineAt(this, v, i);
        if lines[i].kind == Src || lines[i].kind == Both {
          src := src + [lines[i]];
        }
      }
    }

    method Destination(ghost v: Chunk) returns (dst: seq<PatchChunkLine>)
      requires ShowsChunk(this, v)
      ensures LinesAt(this, dst, Targets(v.lines))
    {
      dst := [];
      for i := 0 to |lines|
        invariant LinesAt(this, dst, DstPlaces(v.lines, i))
      {
        assert ShowsLineAt(this, v, i);
        if lines[i].kind == Dst || lines[i].kind == Both {
          dst := dst + [lines[i]];
        }
      }
    }

    /** Lines are written up to the first that was never set, with which it fails. */
    method Write(f: OutFile, ghost v: Chunk) returns (ok: bool)
      requires ShowsChunk(this, v)
      modifies f
      ensures ok <==> Writable(v.lines)
      ensures f.written == old(f.written) + WrittenOfChunk(v)
      ensures ok ==> f.written == old(f.written) + ([HeaderText(v)] + LineTexts(v.lines))
    {
      hide HeaderText, LineTexts, Writable, Sources, Targets, SrcView, DstView, SetLines;
      var src := Source(v);
      var dst := Destination(v);
      ViewSizes(v.lines, |v.lines|);
      WriteHeader(f, |src|, |dst|, v);
      ok := WriteLines(f, v);
    }

    method WriteLines(f: OutFile, ghost v: Chunk) returns (ok: bool)
      requires ShowsChunk(this, v)
      modifies f
      ensures ok <==> Writable(v.lines)
      ensures f.written == old(f.written) + LineTexts(v.lines[..SetLines(v.lines)])
      ensures ok ==> f.written == old(f.written) + LineTexts(v.lines)
    {
      hide LineText, SetLines;
      for i := 0 to |lines|
        invariant f.written == old(f.written) + LineTexts(v.lines[..i])
        invariant forall j :: 0 <= j < i ==> v.lines[j].kind != Unset
      {
        assert ShowsLineAt(this, v, i);
        assert v.lines[..i + 1][..i] == v.lines[..i];
        ok := lines[i].Write(f);
        if !ok {
          assert v.lines[i].kind == Unset;
          assert SetLines(v.lines) == i;
          return;
        }
      }
      assert SetLines(v.lines) == |v.lines|;
      assert v.lines[..|v.lines|] == v.lines;
      ok := true;
    }

    method WriteHeader(f: OutFile, srcLen: nat, dstLen: nat, ghost v: Chunk)
      requires srcPos == v.srcPos && dstPos == v.dstPos && srcLen == |SrcView(v.lines)| && dstLen == |DstView(v.lines)|
      modifies f
      ensures f.written == old(f.written) + [HeaderText(v)]
    {
      hide Decimal, SrcView, DstView;
      f.Write("@@ -" + (Decimal(srcPos) + ("," + (Decimal(srcLen) + (" +" + (Decimal(dstPos) + (","
              + (Decimal(dstLen) + " @@\n"))))))));
    }

    /** The filter's loop over the two views; `complete` is whether it did not fail. */
    method RemoveTrailingWhitespaceChanges(ghost v: Chunk) returns (complete: bool)
      requires ShowsChunk(this, v)
      modifies lines
      ensures lines == old(lines)
      ensures ShowsChunk(this, FilteredChunk(v)) && (complete <==> Complete(v))
    {
      hide After, TrailingBlank;
      var src := Source(v);
      var dst := Destination(v);
      AtFirst(v.lines);
      assert v.(lines := v.lines) == v;
      for i := 0 to |src|
        invariant lines == old(lines) && i <= Turns(v.lines)
        invariant ShowsChunk(this, v.(lines := After(v.lines, i)))
      {
        if i >= |dst| {
          return false;
        }
        TurnOnce(dst[i], src[i], v, i);
      }
      complete := true;
    }

    /** One turn; the two lines may be one object. */
    method TurnOnce(d: PatchChunkLine, s: PatchChunkLine, ghost v: Chunk, ghost i: nat)
      requires i < Turns(v.lines) && |lines| == |v.lines| && ShowsChunk(this, v.(lines := After(v.lines, i)))
      requires d == lines[Targets(v.lines)[i]] && s == lines[Sources(v.lines)[i]]
      modifies d`line
      ensures ShowsChunk(this, v.(lines := After(v.lines, i + 1)))
    {
      hide TrailingBlank, Sources, Targets;
      ghost var before := v.(lines := After(v.lines, i));
      ghost var after := v.(lines := After(v.lines, i + 1));
      assert ShowsLineAt(this, before, Targets(v.lines)[i]) && ShowsLineAt(this, before, Sources(v.lines)[i]);
      match TrailingBlank(s.line) {
        case Some((text, blank)) =>
          if text == d.line {
            d.AppendToLine(blank);
          }
        case None =>
      }
      forall p | 0 <= p < |lines|
        ensures ShowsLineAt(this, after, p)
      {
        assert old(ShowsLineAt(this, before, p));
      }
    }
  }

  lemma {:induction false} ViewSizes(lines: seq<Line>, n: nat)
    requires n <= |lines|
    ensures |SrcPlaces(lines, n)| == |SrcView(lines[..n])| && |DstPlaces(lines, n)| == |DstView(lines[..n])|
    ensures |Sources(lines)| == |SrcPlaces(lines, |lines|)| && |Targets(lines)| == |DstPlaces(lines, |lines|)|
    ensures lines[..|lines|] == lines
  {
    if n > 0 {
      assert lines[..n][..n - 1] == lines[..n - 1];
      ViewSizes(lines, n - 1);
    }
  }


  ghost predicate ShowsChunkAt(o: Patch, v: PatchText.Patch, c: nat)
    requires c < |o.chunks| == |v.chunks|
    reads o, o.chunks, o.chunks[c].lines
  {
    o.chunks[c].owner == o && o.chunks[c].place == c && ShowsChunk(o.chunks[c], v.chunks[c])
  }

  ghost function LinesOf(o: Patch): set<PatchChunkLine>
    reads o, o.chunks
  {
    set c: nat, l | c < |o.chunks| && l in o.chunks[c].lines :: l
  }

  ghost predicate ShowsPatch(o: Patch, v: PatchText.Patch)
    reads o, o.chunks, LinesOf(o)
  {
    && o.src == v.src && o.dst == v.dst && |o.chunks| == |v.chunks|
    && forall c {:trigger ShowsChunkAt(o, v, c)} :: 0 <= c < |o.chunks| ==>
      assert forall l :: l in o.chunks[c].lines ==> l in LinesOf(o);
      ShowsChunkAt(o, v, c)
  }

  class Patch {
    var src: string
    var dst: string
    var chunks: seq<PatchChunk>
    ghost var place: nat

    constructor (ghost place: nat)
      ensures this.place == place && chunks == [] && ShowsPatch(this, PatchText.Patch("", "", []))
    {
      src, dst, chunks, this.place := "", "", [], place;
    }

    method SetSrc(src: string)
      modifies this`src
      ensures this.src == src
    {
      this.src := src;
    }

    method SetDst(dst: string)
      modifies this`dst
      ensures this.dst == dst
    {
      this.dst := dst;
    }

    method AddChunk(chunk: PatchChunk, ghost v: PatchText.Patch, ghost c: Chunk)
      requires ShowsPatch(this, v) && chunk !in chunks && ShowsChunk(chunk, c)
      modifies this`chunks, chunk`owner, chunk`place
      ensures chunks == old(chunks) + [chunk] && ShowsPatch(this, WithChunk(v, c))
    {
      chunk.owner, chunk.place := this, |chunks|;
      chunks := chunks + [chunk];
      forall k | 0 <= k < |chunks|
        ensures ShowsChunkAt(this, WithChunk(v, c), k)
      {
        if k < |v.chunks| {
          assert old(ShowsChunkAt(this, v, k));
        } else {
          forall i | 0 <= i < |chunk.lines|
            ensures ShowsLineAt(chunk, c, i)
          {
            assert old(ShowsLineAt(chunk, c, i));
          }
        }
      }
    }

    /** Chunks are written up to the first line that was never set. */
    method Write(f: OutFile, ghost v: PatchText.Patch) returns (ok: bool)
      requires ShowsPatch(this, v)
      modifies f
      ensures ok <==> PatchWritable(v)
      ensures f.written == old(f.written) + ([SrcText(v), DstText(v)] + WrittenOfChunks(v.chunks))
      ensures ok ==> f.written == old(f.written) + ([SrcText(v), DstText(v)] + ChunkTexts(v.chunks))
    {
      hide Writable, ChunkTexts, ShowsChunkAt, WrittenOfChunks;
      f.Write("--- " + src + "\n");
      f.Write("+++ " + dst + "\n");
      ok := WriteChunks(f, v);
    }

    method WriteChunks(f: OutFile, ghost v: PatchText.Patch) returns (ok: bool)
      requires ShowsPatch(this, v)
      modifies f
      ensures ok <==> PatchWritable(v)
      ensures f.written == old(f.written) + WrittenOfChunks(v.chunks)
      ensures ok ==> f.written == old(f.written) + ChunkTexts(v.chunks)
    {
      hide Writable, HeaderText, LineTexts, ShowsChunk, WrittenOfChunk, SetChunks;
      for c := 0 to |chunks|
        invariant f.written == old(f.written) + ChunkTexts(v.chunks[..c])
        invariant forall k :: 0 <= k < c ==> Writable(v.chunks[k].lines)
      {
        assert ShowsChunkAt(this, v, c);
        assert v.chunks[..c + 1][..c] == v.chunks[..c];
        ok := chunks[c].Write(f, v.chunks[c]);
        if !ok {
          assert SetChunks(v.chunks) == c;
          return;
        }
      }
      assert SetChunks(v.chunks) == |v.chunks|;
      assert v.chunks[..|v.chunks|] == v.chunks;
      ok := true;
    }

    /** Filters one chunk; the lines of the others are other objects. */
    method FilterChunk(c: nat, ghost v: PatchText.Patch) returns (complete: bool)
      requires ShowsPatch(this, v) && c < |chunks|
      modifies chunks[c].lines
      ensures ShowsPatch(this, v.(chunks := v.chunks[c := FilteredChunk(v.chunks[c])]))
      ensures LinesOf(this) == old(LinesOf(this))
      ensures complete <==> Complete(v.chunks[c])
    {
      hide FilteredChunk, Complete;
      ghost var w := v.(chunks := v.chunks[c := FilteredChunk(v.chunks[c])]);
      assert ShowsChunkAt(this, v, c);
      OwnLines(chunks[c], v.chunks[c]);
      complete := chunks[c].RemoveTrailingWhitespaceChanges(v.chunks[c]);
      forall k | 0 <= k < |chunks|
        ensures ShowsChunkAt(this, w, k)
      {
        assert old(ShowsChunkAt(this, v, k));
        if k != c {
          forall i | 0 <= i < |chunks[k].lines|
            ensures ShowsLineAt(chunks[k], v.chunks[k], i)
          {
            assert old(ShowsLineAt(chunks[k], v.chunks[k], i));
          }
        }
      }
    }

    method RemoveTrailingWhitespaceChanges(ghost v: PatchText.Patch) returns (complete: bool)
      requires ShowsPatch(this, v)
      modifies LinesOf(this)
      ensures ShowsPatch(this, v.(chunks := FilteredChunks(v.chunks, |v.chunks|)))
      ensures LinesOf(this) == old(LinesOf(this))
      ensures complete <==> PatchComplete(v)
    {
      assert |chunks| == |v.chunks|;
      hide ShowsPatch, FilteredChunk, Complete;
      NoneAndAllFiltered(v);
      for c := 0 to |chunks|
        invariant ShowsPatch(this, FilteredUpTo(v, c)) && LinesOf(this) == old(LinesOf(this))
        invariant forall k :: 0 <= k < c ==> Complete(v.chunks[k])
      {
        OneMoreFiltered(v, c);
        assert forall l :: l in chunks[c].lines ==> l in LinesOf(this);
        var ok := FilterChunk(c, FilteredUpTo(v, c));
        if !ok {
          StoppedAt(v, c);
          return false;
        }
      }
      complete := true;
    }
  }

  lemma {:induction false} OwnLines(o: PatchChunk, v: Chunk)
    requires ShowsChunk(o, v)
    ensures forall l :: l in o.lines ==> l.owner == o
  {
    forall l | l in o.lines
      ensures l.owner == o
    {
      var i :| 0 <= i < |o.lines| && o.lines[i] == l;
      assert ShowsLineAt(o, v, i);
    }
  }

  /** The first `c` chunks filtered. */
  ghost function FilteredUpTo(v: PatchText.Patch, c: nat): PatchText.Patch
    requires c <= |v.chunks|
  {
    v.(chunks := FilteredChunks(v.chunks, c) + v.chunks[c..])
  }

  lemma {:induction false} NoneAndAllFiltered(v: PatchText.Patch)
    ensures FilteredUpTo(v, 0) == v
    ensures FilteredUpTo(v, |v.chunks|) == v.(chunks := FilteredChunks(v.chunks, |v.chunks|))
  {
    assert v.chunks[|v.chunks|..] == [];
    assert [] + v.chunks[0..] == v.chunks;
    assert v.(chunks := v.chunks) == v;
  }

  lemma {:induction false} FilteredSize(chunks: seq<Chunk>, n: nat)
    requires n <= |chunks|
    ensures |FilteredChunks(chunks, n)| == n
  {
    if n > 0 {
      FilteredSize(chunks, n - 1);
    }
  }

  lemma {:induction false} OneMoreFiltered(v: PatchText.Patch, c: nat)
    requires c < |v.chunks| && forall k :: 0 <= k < c ==> Complete(v.chunks[k])
    ensures var w := FilteredUpTo(v, c);
      && |w.chunks| == |v.chunks| && w.chunks[c] == v.chunks[c]
      && w.(chunks := w.chunks[c := FilteredChunk(w.chunks[c])]) == FilteredUpTo(v, c + 1)
  {
    hide Complete, FilteredChunk;
    FilteredSize(v.chunks, c);
    FilteredSize(v.chunks, c + 1);
    var w := FilteredUpTo(v, c);
    assert w.chunks[c := FilteredChunk(w.chunks[c])] == FilteredUpTo(v, c + 1).chunks;
  }

  /** Behind a chunk that is not complete, nothing is filtered. */
  lemma {:induction false} StoppedAt(v: PatchText.Patch, c: nat)
    requires c < |v.chunks| && !Complete(v.chunks[c])
    ensures FilteredUpTo(v, c + 1) == v.(chunks := FilteredChunks(v.chunks, |v.chunks|))
  {
    StoppedAfter(v.chunks, c, |v.chunks|);
  }

  lemma {:induction false} StoppedAfter(chunks: seq<Chunk>, c: nat, n: nat)
    requires c < n <= |chunks| && !Complete(chunks[c])
    ensures FilteredChunks(chunks, n) == FilteredChunks(chunks, c + 1) + chunks[c + 1..n]
  {
    hide Complete, FilteredChunk;
    if n > c + 1 {
      StoppedAfter(chunks, c, n - 1);
      assert chunks[c + 1..n] == chunks[c + 1..n - 1] + [chunks[n - 1]];
    }
  }

  /* ----- whole patchsets ----- */

  ghost function ChunksOfAll(ps: seq<Patch>): set<PatchChunk>
    reads ps
  {
    set i: nat, c: nat | i < |ps| && c < |ps[i].chunks| :: ps[i].chunks[c]
  }

  ghost function LinesOfAll(ps: seq<Patch>): set<PatchChunkLine>
    reads ps, ChunksOfAll(ps)
  {
    set k, l | k in ChunksOfAll(ps) && l in k.lines :: l
  }

  ghost predicate ShowsPatchAt(ps: seq<Patch>, vs: seq<PatchText.Patch>, i: nat)
    requires i < |ps| == |vs|
    reads ps[i], ps[i].chunks, LinesOf(ps[i])
  {
    ps[i].place == i && ShowsPatch(ps[i], vs[i])
  }

  /** The objects hold the values of a patchset, and no two of them are one. */
  ghost predicate ShowsAll(ps: seq<Patch>, vs: seq<PatchText.Patch>)
    reads ps, ChunksOfAll(ps), LinesOfAll(ps)
  {
    && |ps| == |vs|
    && forall i {:trigger ShowsPatchAt(ps, vs, i)} :: 0 <= i < |ps| ==>
      assert forall c :: 0 <= c < |ps[i].chunks| ==> ps[i].chunks[c] in ChunksOfAll(ps);
      assert forall l :: l in LinesOf(ps[i]) ==> l in LinesOfAll(ps);
      ShowsPatchAt(ps, vs, i)
  }

  /** A file name line begins a patch. */
  method NewPatch(patchset: seq<Patch>, text: string, ghost vs: seq<PatchText.Patch>) returns (currentPatch: Patch)
    requires ShowsAll(patchset, vs)
    ensures fresh(currentPatch) && ShowsAll(patchset + [currentPatch], vs + [PatchText.Patch(text, "", [])])
    ensures LinesOfAll(patchset + [currentPatch]) <= old(LinesOfAll(patchset))
  {
    currentPatch := new Patch(|patchset|);
    currentPatch.SetSrc(text);
    ghost var ps, ws := patchset + [currentPatch], vs + [PatchText.Patch(text, "", [])];
    forall i | 0 <= i < |ps|
      ensures ShowsPatchAt(ps, ws, i)
    {
      assert i < |vs| ==> old(ShowsPatchAt(patchset, vs, i));
    }
    forall k | k in ChunksOfAll(ps)
      ensures k in ChunksOfAll(patchset)
    {
      var i: nat, c: nat :| i < |ps| && c < |ps[i].chunks| && k == ps[i].chunks[c];
      assert patchset[i].chunks[c] == k;
    }
  }

  method NameDst(ghost patchset: seq<Patch>, currentPatch: Patch, text: string, ghost vs: seq<PatchText.Patch>)
    requires ShowsAll(patchset, vs) && vs != [] && currentPatch == patchset[|vs| - 1]
    modifies currentPatch`dst
    ensures ShowsAll(patchset, vs[|vs| - 1 := vs[|vs| - 1].(dst := text)])
    ensures LinesOfAll(patchset) <= old(LinesOfAll(patchset))
  {
    assert ShowsPatchAt(patchset, vs, |vs| - 1);
    currentPatch.SetDst(text);
    ghost var ws := vs[|vs| - 1 := vs[|vs| - 1].(dst := text)];
    forall i | 0 <= i < |patchset|
      ensures ShowsPatchAt(patchset, ws, i)
    {
      assert old(ShowsPatchAt(patchset, vs, i));
      if i == |vs| - 1 {
        forall c | 0 <= c < |currentPatch.chunks|
          ensures ShowsChunkAt(currentPatch, ws[i], c)
        {
          assert old(ShowsChunkAt(currentPatch, vs[i], c));
        }
      }
    }
  }

  method BeginChunk(ghost patchset: seq<Patch>, currentPatch: Patch, srcPos: nat, dstPos: nat,
      ghost vs: seq<PatchText.Patch>)
    returns (currentChunk: PatchChunk)
    requires ShowsAll(patchset, vs) && vs != [] && currentPatch == patchset[|vs| - 1]
    modifies currentPatch`chunks
    ensures fresh(currentChunk) && currentPatch.chunks == old(currentPatch.chunks) + [currentChunk]
    ensures ShowsAll(patchset, vs[|vs| - 1 := WithChunk(vs[|vs| - 1], Chunk(srcPos, dstPos, []))])
    ensures LinesOfAll(patchset) <= old(LinesOfAll(patchset))
  {
    ghost var n := |vs| - 1;
    assert ShowsPatchAt(patchset, vs, n);
    currentChunk := new PatchChunk(srcPos, dstPos);
    currentPatch.AddChunk(currentChunk, vs[n], Chunk(srcPos, dstPos, []));
    ghost var ws := vs[n := WithChunk(vs[n], Chunk(srcPos, dstPos, []))];
    forall i | 0 <= i < |patchset|
      ensures ShowsPatchAt(patchset, ws, i)
    {
      assert old(ShowsPatchAt(patchset, vs, i));
    }
    forall k, l | k in ChunksOfAll(patchset) && l in k.lines
      ensures l in old(LinesOfAll(patchset))
    {
      var i: nat, c: nat :| i < |patchset| && c < |patchset[i].chunks| && k == patchset[i].chunks[c];
      assert k in old(ChunksOfAll(patchset));
    }
  }

  /** A line goes to the current chunk, wherever that is. */
  method ReadTextLine(ghost patchset: seq<Patch>, currentChunk: PatchChunk, line: Line,
      ghost vs: seq<PatchText.Patch>, ghost at: nat)
    requires ShowsAll(patchset, vs) && at < |vs| && vs[at].chunks != [] && line.kind != Unset
    requires |patchset[at].chunks| > 0 && currentChunk == patchset[at].chunks[|patchset[at].chunks| - 1]
    modifies currentChunk`lines
    ensures ShowsAll(patchset, vs[at := WithLastLine(vs[at], line)])
    ensures forall l :: l in LinesOfAll(patchset) ==> l in old(LinesOfAll(patchset)) || fresh(l)
  {
    ghost var c := |vs[at].chunks| - 1;
    assert ShowsPatchAt(patchset, vs, at) && ShowsChunkAt(patchset[at], vs[at], c);
    var l := new PatchChunkLine();
    if line.kind == Src {
      l.SetSrc(line.text);
    } else if line.kind == Dst {
      l.SetDst(line.text);
    } else {
      l.SetBoth(line.text);
    }
    currentChunk.AddLine(l, vs[at].chunks[c]);
    ghost var ws := vs[at := WithLastLine(vs[at], line)];
    forall i | 0 <= i < |patchset|
      ensures ShowsPatchAt(patchset, ws, i)
    {
      assert old(ShowsPatchAt(patchset, vs, i));
      forall k | 0 <= k < |patchset[i].chunks|
        ensures ShowsChunkAt(patchset[i], ws[i], k)
      {
        assert old(ShowsChunkAt(patchset[i], vs[i], k));
      }
    }
    forall k, m | k in ChunksOfAll(patchset) && m in k.lines
      ensures m in old(LinesOfAll(patchset)) || m == l
    {
      assert k in old(ChunksOfAll(patchset));
    }
  }

  /** One turn of the loop over the lines. */
  method ReadLine(patchset: seq<Patch>, currentPatch: Patch?, currentChunk: PatchChunk?, line: string, ghost s: Parsing)
    returns (ok: bool, patchset': seq<Patch>, currentPatch': Patch?, currentChunk': PatchChunk?)
    requires ParsingOk(s) && ShowsAll(patchset, s.patches) && Current(patchset, s, currentPatch, currentChunk)
    modifies currentPatch, currentChunk
    ensures ok == Step(s, Classify(line)).Some?
    ensures ok ==>
              var t := Step(s, Classify(line)).value;
              ShowsAll(patchset', t.patches) && Current(patchset', t, currentPatch', currentChunk')
    ensures ok && currentPatch' != currentPatch ==> fresh(currentPatch')
    ensures ok && currentChunk' != currentChunk ==> fresh(currentChunk')
    ensures ok ==> forall l :: l in LinesOfAll(patchset') ==> l in old(LinesOfAll(patchset)) || fresh(l)
  {
    hide ShowsAll, Classify, LineOk, LinesOfAll;
    ok, patchset', currentPatch', currentChunk' := true, patchset, currentPatch, currentChunk;
    ClassifyOk(line);
    match Classify(line)
    case SrcFile(text) =>
      currentPatch' := NewPatch(patchset, text, s.patches);
      patchset' := patchset + [currentPatch'];
    case DstFile(text) =>
      if currentPatch == null {
        ok := false;
      } else {
        NameDst(patchset, currentPatch, text, s.patches);
      }
    case ChunkStart(srcPos, dstPos) =>
      if currentPatch == null {
        ok := false;
      } else {
        currentChunk' := BeginChunk(patchset, currentPatch, srcPos, dstPos, s.patches);
      }
    case TextLine(text) =>
      if currentChunk == null {
        ok := false;
      } else {
        ReadTextLine(patchset, currentChunk, text, s.patches, s.chunkAt.value);
      }
    case Unreadable =>
      ok := false;
  }

  /** `parse_patchset`: each object stands for one line, chunk or patch. */
  method ParsePatchset(lines: seq<string>) returns (result: Option<seq<Patch>>)
    ensures result.Some? <==> Parsed(lines).Some?
    ensures result.Some? ==> ShowsAll(result.value, Parsed(lines).value) && fresh(LinesOfAll(result.value))
  {
    hide ShowsAll, Classify, LinesOfAll, Step, Current;
    var patchset, currentPatch, currentChunk := [], null, null;
    ghost var s := START;
    NoObjects();
    for n := 0 to |lines|
      invariant RunFrom(START, lines[..n]) == Some(s) && ParsingOk(s)
      invariant ShowsAll(patchset, s.patches) && Current(patchset, s, currentPatch, currentChunk)
      invariant (currentPatch != null ==> fresh(currentPatch)) && (currentChunk != null ==> fresh(currentChunk))
      invariant fresh(LinesOfAll(patchset))
    {
      assert lines[..n + 1][..n] == lines[..n] && lines[..n + 1][n] == lines[n];
      ghost var t := Step(s, Classify(lines[n]));
      assert RunFrom(START, lines[..n + 1]) == t;
      ghost var known := LinesOfAll(patchset);
      assert forall l :: l in known ==> fresh(l);
      var ok;
      ok, patchset, currentPatch, currentChunk := ReadLine(patchset, currentPatch, currentChunk, lines[n], s);
      if !ok {
        StuckOn(lines, n + 1);
        return None;
      }
      forall l | l in LinesOfAll(patchset)
        ensures fresh(l)
      {
        assert l in known || fresh(l);
      }
      s := t.value;
    }
    assert lines[..|lines|] == lines;
    return Some(patchset);
  }

  lemma {:induction false} StuckOn(lines: seq<string>, n: nat)
    requires n <= |lines| && RunFrom(START, lines[..n]).None?
    ensures Parsed(lines).None?
    decreases |lines| - n
  {
    hide Classify, Step;
    if n < |lines| {
      assert lines[..n + 1][..n] == lines[..n];
      StuckOn(lines, n + 1);
    } else {
      assert lines[..n] == lines;
    }
  }

  /** The current patch is the last one; the current chunk is the last one of any patch. */
  ghost predicate Current(patchset: seq<Patch>, s: Parsing, currentPatch: Patch?, currentChunk: PatchChunk?)
    reads patchset
  {
    && |patchset| == |s.patches|
    && (patchset == [] <==> currentPatch == null)
    && (patchset != [] ==> currentPatch == patchset[|patchset| - 1])
    && (currentChunk == null <==> s.chunkAt.None?)
    && (s.chunkAt.Some? ==>
          s.chunkAt.value < |patchset| && var chunks := patchset[s.chunkAt.value].chunks;
            chunks != [] && currentChunk == chunks[|chunks| - 1])
  }

  lemma {:induction false} NoObjects()
    ensures ShowsAll([], []) && Current([], START, null, null) && LinesOfAll([]) == {}
  {
  }

  /* ----- writing and reading again ----- */

  /** Writes one patch after the other. */
  method WritePatchset(patchset: seq<Patch>, f: OutFile, ghost vs: seq<PatchText.Patch>) returns (ok: bool)
    requires ShowsAll(patchset, vs)
    modifies f
    ensures ok <==> AllWritable(vs)
    ensures ok ==> f.written == old(f.written) + Printed(vs)
  {
    hide PatchWritable, SrcText, DstText, ChunkTexts, WrittenOfChunks;
    for n := 0 to |patchset|
      invariant f.written == old(f.written) + Printed(vs[..n])
      invariant forall i :: 0 <= i < n ==> PatchWritable(vs[i])
    {
      assert old(ShowsPatchAt(patchset, vs, n));
      assert old(ShowsPatch(patchset[n], vs[n]));
      assert vs[..n + 1][..n] == vs[..n];
      ok := patchset[n].Write(f, vs[n]);
      if !ok {
        return;
      }
    }
    assert vs[..|vs|] == vs;
    ok := true;
  }

  /** Objects that are written and read again give objects that show the same patchset. */
  method Reread(patchset: seq<Patch>, f: OutFile, ghost vs: seq<PatchText.Patch>) returns (result: Option<seq<Patch>>)
    requires ShowsAll(patchset, vs) && AllWritable(vs) && f.written == []
    modifies f
    ensures AllOk(vs) ==> result.Some? && ShowsAll(result.value, vs)
  {
    hide ShowsAll, Printed, Parsed, AllOk, AllWritable;
    var ok := WritePatchset(patchset, f, vs);
    assert [] + Printed(vs) == Printed(vs);
    result := ParsePatchset(f.written);
    RoundTripIff(vs);
  }

  /* ----- the filter over a patchset ----- */

  /** The first `n` patches filtered. */
  ghost function PatchesUpTo(vs: seq<PatchText.Patch>, n: nat): seq<PatchText.Patch>
    requires n <= |vs|
  {
    FilteredPatches(vs, n) + vs[n..]
  }

  ghost function FilteredPatch(v: PatchText.Patch): PatchText.Patch {
    v.(chunks := FilteredChunks(v.chunks, |v.chunks|))
  }

  lemma {:induction false} NoneAndAllPatches(vs: seq<PatchText.Patch>)
    ensures PatchesUpTo(vs, 0) == vs && PatchesUpTo(vs, |vs|) == Filtered(vs)
  {
    assert vs[|vs|..] == [];
  }

  lemma {:induction false} PatchesSize(vs: seq<PatchText.Patch>, n: nat)
    requires n <= |vs|
    ensures |FilteredPatches(vs, n)| == n
  {
    hide PatchComplete;
    if n > 0 {
      PatchesSize(vs, n - 1);
    }
  }

  lemma {:induction false} OneMorePatch(vs: seq<PatchText.Patch>, n: nat)
    requires n < |vs| && forall i :: 0 <= i < n ==> PatchComplete(vs[i])
    ensures var ws := PatchesUpTo(vs, n);
      |ws| == |vs| && ws[n] == vs[n] && ws[n := FilteredPatch(vs[n])] == PatchesUpTo(vs, n + 1)
  {
    hide PatchComplete, FilteredChunks;
    PatchesSize(vs, n);
    PatchesSize(vs, n + 1);
    assert PatchesUpTo(vs, n)[n := FilteredPatch(vs[n])] == PatchesUpTo(vs, n + 1);
  }

  lemma {:induction false} PatchesStopped(vs: seq<PatchText.Patch>, i: nat, n: nat)
    requires i < n <= |vs| && !PatchComplete(vs[i])
    ensures FilteredPatches(vs, n) == FilteredPatches(vs, i + 1) + vs[i + 1..n]
  {
    hide PatchComplete, FilteredChunks;
    if n > i + 1 {
      PatchesStopped(vs, i, n - 1);
      assert vs[i + 1..n] == vs[i + 1..n - 1] + [vs[n - 1]];
    }
  }

  lemma {:induction false} StoppedAtPatch(vs: seq<PatchText.Patch>, n: nat)
    requires n < |vs| && !PatchComplete(vs[n])
    ensures PatchesUpTo(vs, n + 1) == Filtered(vs)
  {
    hide PatchComplete, FilteredPatches;
    PatchesStopped(vs, n, |vs|);
  }

  /** Filters one patch; the lines of the others are other objects. */
  method FilterPatch(patchset: seq<Patch>, n: nat, ghost vs: seq<PatchText.Patch>) returns (complete: bool)
    requires ShowsAll(patchset, vs) && n < |vs|
    modifies LinesOf(patchset[n])
    ensures ShowsAll(patchset, vs[n := FilteredPatch(vs[n])]) && LinesOfAll(patchset) == old(LinesOfAll(patchset))
    ensures complete <==> PatchComplete(vs[n])
  {
    hide PatchComplete, FilteredChunks;
    ghost var ws := vs[n := FilteredPatch(vs[n])];
    assert ShowsPatchAt(patchset, vs, n);
    OwnChunks(patchset[n], vs[n]);
    complete := patchset[n].RemoveTrailingWhitespaceChanges(vs[n]);
    forall i | 0 <= i < |patchset|
      ensures ShowsPatchAt(patchset, ws, i)
    {
      assert old(ShowsPatchAt(patchset, vs, i));
      if i != n {
        forall c | 0 <= c < |patchset[i].chunks|
          ensures ShowsChunkAt(patchset[i], vs[i], c)
        {
          assert old(ShowsChunkAt(patchset[i], vs[i], c));
          forall p | 0 <= p < |patchset[i].chunks[c].lines|
            ensures ShowsLineAt(patchset[i].chunks[c], vs[i].chunks[c], p)
          {
            assert old(ShowsLineAt(patchset[i].chunks[c], vs[i].chunks[c], p));
          }
        }
      }
    }
  }

  lemma {:induction false} OwnChunks(o: Patch, v: PatchText.Patch)
    requires ShowsPatch(o, v)
    ensures forall l :: l in LinesOf(o) ==> l.owner != null && l.owner.owner == o
  {
    forall l | l in LinesOf(o)
      ensures l.owner != null && l.owner.owner == o
    {
      var c: nat :| c < |o.chunks| && l in o.chunks[c].lines;
      assert ShowsChunkAt(o, v, c);
      OwnLines(o.chunks[c], v.chunks[c]);
    }
  }

  /** `remove_trailing_whitespace_changes`: `None` is an exception of the parser; an exception of the filter
      ends it with what has been changed so far. */
  method RemoveTrailingWhitespaceChanges(lines: seq<string>) returns (result: Option<seq<Patch>>)
    ensures result.Some? <==> Parsed(lines).Some?
    ensures result.Some? ==> ShowsAll(result.value, Filtered(Parsed(lines).value))
  {
    hide Parsed, ShowsAll, PatchComplete, PatchesUpTo, FilteredPatch, Filtered, LinesOf, LinesOfAll;
    result := ParsePatchset(lines);
    if result.None? {
      return;
    }
    var patchset := result.value;
    ghost var vs := Parsed(lines).value;
    SameSize(patchset, vs);
    NoneAndAllPatches(vs);
    for n := 0 to |patchset|
      invariant ShowsAll(patchset, PatchesUpTo(vs, n)) && fresh(LinesOfAll(patchset))
      invariant forall i :: 0 <= i < n ==> PatchComplete(vs[i])
    {
      OneMorePatch(vs, n);
      LinesWithin(patchset, n);
      var complete := FilterPatch(patchset, n, PatchesUpTo(vs, n));
      if !complete {
        StoppedAtPatch(vs, n);
        return;
      }
    }
  }

  lemma {:induction false} SameSize(patchset: seq<Patch>, vs: seq<PatchText.Patch>)
    requires ShowsAll(patchset, vs)
    ensures |patchset| == |vs|
  {
  }

  lemma {:induction false} LinesWithin(patchset: seq<Patch>, n: nat)
    requires n < |patchset|
    ensures LinesOf(patchset[n]) <= LinesOfAll(patchset)
  {
    forall l | l in LinesOf(patchset[n])
      ensures l in LinesOfAll(patchset)
    {
      var c: nat :| c < |patchset[n].chunks| && l in patchset[n].chunks[c].lines;
      assert patchset[n].chunks[c] in ChunksOfAll(patchset);
    }
  }
}
