/** What utils/check-style.py makes of any sequence of lines: which patches there are, which chunks each one
    has and which lines each chunk, and when the lines are refused. */
module PatchBlocks {
  import opened Options
  import opened PatchText

  /* ----- the chunks, whichever patch they belong to ----- */

  ghost function Flat(ps: seq<Patch>): seq<Chunk> {
    if ps == [] then [] else Flat(ps[..|ps| - 1]) + ps[|ps| - 1].chunks
  }

  /** Every header begins a chunk, and every line of text goes to the chunk begun last. */
  ghost function Blocks(lines: seq<string>): seq<Chunk> {
    if lines == [] then []
    else BlocksThen(Blocks(lines[..|lines| - 1]), Classify(lines[|lines| - 1]))
  }

  ghost function BlocksThen(blocks: seq<Chunk>, reading: Reading): seq<Chunk> {
    match reading
    case ChunkStart(a, c) => blocks + [Chunk(a, c, [])]
    case TextLine(line) =>
      if blocks == [] then blocks else blocks[|blocks| - 1 := WithLine(blocks[|blocks| - 1], line)]
    case _ => blocks
  }

  /** The chunk that lines go to is the last of all. */
  ghost predicate AtLastChunk(s: Parsing) {
    match s.chunkAt
    case None => forall i :: 0 <= i < |s.patches| ==> s.patches[i].chunks == []
    case Some(at) =>
      && at < |s.patches| && s.patches[at].chunks != []
      && forall i :: at < i < |s.patches| ==> s.patches[i].chunks == []
  }

  lemma {:induction false} FlatNone(ps: seq<Patch>)
    requires forall i :: 0 <= i < |ps| ==> ps[i].chunks == []
    ensures Flat(ps) == []
  {
    if ps != [] {
      FlatNone(ps[..|ps| - 1]);
    }
  }

  lemma {:induction false} FlatAdded(ps: seq<Patch>, p: Patch)
    ensures Flat(ps + [p]) == Flat(ps) + p.chunks
  {
    assert (ps + [p])[..|ps|] == ps;
  }

  lemma {:induction false} FlatLast(ps: seq<Patch>, p: Patch)
    requires ps != []
    ensures Flat(ps[|ps| - 1 := p]) == Flat(ps[..|ps| - 1]) + p.chunks
  {
    assert ps[|ps| - 1 := p][..|ps| - 1] == ps[..|ps| - 1];
  }

  /** A line added to the last chunk of the last patch that has one. */
  lemma {:induction false} FlatLine(ps: seq<Patch>, at: nat, line: Line)
    requires at < |ps| && ps[at].chunks != [] && forall i :: at < i < |ps| ==> ps[i].chunks == []
    ensures Flat(ps) != []
    ensures var last := |Flat(ps)| - 1;
      Flat(ps[at := WithLastLine(ps[at], line)]) == Flat(ps)[last := WithLine(Flat(ps)[last], line)]
  {
    var n := |ps| - 1;
    if at == n {
      FlatLast(ps, WithLastLine(ps[at], line));
    } else {
      FlatLine(ps[..n], at, line);
      assert ps[at := WithLastLine(ps[at], line)][..n] == ps[..n][at := WithLastLine(ps[at], line)];
      assert forall cs: seq<Chunk> {:trigger Flat(ps) == cs} :: cs + [] == cs;
    }
  }

  lemma {:induction false} StepBlocks(s: Parsing, reading: Reading)
    requires ParsingOk(s) && AtLastChunk(s) && Step(s, reading).Some?
    ensures var t := Step(s, reading).value;
      AtLastChunk(t) && Flat(t.patches) == BlocksThen(Flat(s.patches), reading)
  {
    hide Flat;
    var ps, n := s.patches, |s.patches|;
    match reading
    case SrcFile(text) => FlatAdded(ps, Patch(text, "", []));
    case DstFile(text) =>
      FlatLast(ps, ps[n - 1].(dst := text));
      FlatLast(ps, ps[n - 1]);
      assert ps[n - 1 := ps[n - 1]] == ps;
    case ChunkStart(a, c) =>
      FlatLast(ps, WithChunk(ps[n - 1], Chunk(a, c, [])));
      FlatLast(ps, ps[n - 1]);
      assert ps[n - 1 := ps[n - 1]] == ps;
    case TextLine(line) => FlatLine(ps, s.chunkAt.value, line);
    case Unreadable =>
  }

  /* ----- the patches, whatever their chunks hold ----- */

  datatype Head = Head(src: string, dst: string, chunks: nat)

  ghost function Heads(ps: seq<Patch>): seq<Head> {
    seq(|ps|, i requires 0 <= i < |ps| => Head(ps[i].src, ps[i].dst, |ps[i].chunks|))
  }

  /** Every source file begins a patch, to which the last destination file and all chunks belong that come
      before the next one. */
  ghost function Sections(lines: seq<string>): seq<Head> {
    if lines == [] then []
    else SectionsThen(Sections(lines[..|lines| - 1]), Classify(lines[|lines| - 1]))
  }

  ghost function SectionsThen(heads: seq<Head>, reading: Reading): seq<Head> {
    var n := |heads|;
    match reading
    case SrcFile(text) => heads + [Head(text, "", 0)]
    case DstFile(text) => if n == 0 then heads else heads[n - 1 := heads[n - 1].(dst := text)]
    case ChunkStart(_, _) => if n == 0 then heads else heads[n - 1 := heads[n - 1].(chunks := heads[n - 1].chunks + 1)]
    case _ => heads
  }

  lemma {:induction false} StepSections(s: Parsing, reading: Reading)
    requires ParsingOk(s) && Step(s, reading).Some?
    ensures Heads(Step(s, reading).value.patches) == SectionsThen(Heads(s.patches), reading)
  {
  }

  /* ----- when the lines are refused ----- */

  ghost predicate SrcFileBefore(lines: seq<string>, n: nat)
    requires n <= |lines|
  {
    exists i :: 0 <= i < n && Classify(lines[i]).SrcFile?
  }

  ghost predicate HeaderBefore(lines: seq<string>, n: nat)
    requires n <= |lines|
  {
    exists i :: 0 <= i < n && Classify(lines[i]).ChunkStart?
  }

  /** A line that is nothing, a destination file or header without a patch, or text without a chunk. */
  ghost predicate Refused(lines: seq<string>, n: nat)
    requires n < |lines|
  {
    match Classify(lines[n])
    case SrcFile(_) => false
    case DstFile(_) => !SrcFileBefore(lines, n)
    case ChunkStart(_, _) => !SrcFileBefore(lines, n)
    case TextLine(_) => !HeaderBefore(lines, n)
    case Unreadable => true
  }

  ghost predicate SomeRefused(lines: seq<string>) {
    exists n :: 0 <= n < |lines| && Refused(lines, n)
  }

  /** What the state knows of the lines read so far. */
  ghost predicate Knows(lines: seq<string>, s: Parsing) {
    && (s.patches != [] <==> SrcFileBefore(lines, |lines|))
    && (s.chunkAt.Some? <==> HeaderBefore(lines, |lines|))
  }

  lemma {:induction false} BeforeInFront(lines: seq<string>, n: nat)
    requires n < |lines|
    ensures SrcFileBefore(lines[..|lines| - 1], n) == SrcFileBefore(lines, n)
    ensures HeaderBefore(lines[..|lines| - 1], n) == HeaderBefore(lines, n)
    ensures SrcFileBefore(lines, n + 1) <==> SrcFileBefore(lines, n) || Classify(lines[n]).SrcFile?
    ensures HeaderBefore(lines, n + 1) <==> HeaderBefore(lines, n) || Classify(lines[n]).ChunkStart?
  {
    hide Classify;
  }

  lemma {:induction false} RefusedInFront(lines: seq<string>)
    requires lines != []
    ensures SomeRefused(lines) <==> SomeRefused(lines[..|lines| - 1]) || Refused(lines, |lines| - 1)
  {
    hide Classify, SrcFileBefore, HeaderBefore;
    var k := |lines| - 1;
    forall n: nat | n < k
      ensures Refused(lines[..k], n) == Refused(lines, n)
    {
      BeforeInFront(lines, n);
    }
  }

  lemma {:induction false} StepKnows(lines: seq<string>, s: Parsing)
    requires lines != [] && ParsingOk(s) && Knows(lines[..|lines| - 1], s)
    ensures Step(s, Classify(lines[|lines| - 1])).None? <==> Refused(lines, |lines| - 1)
    ensures var t := Step(s, Classify(lines[|lines| - 1])); t.Some? ==> Knows(lines, t.value)
  {
    hide Classify, SrcFileBefore, HeaderBefore;
    BeforeInFront(lines, |lines| - 1);
  }

  /* ----- all lines ----- */

  lemma {:induction false} RunIs(lines: seq<string>)
    ensures RunFrom(START, lines).None? <==> SomeRefused(lines)
    ensures RunFrom(START, lines).Some? ==>
              var s := RunFrom(START, lines).value;
              && AtLastChunk(s) && Knows(lines, s)
              && Flat(s.patches) == Blocks(lines) && Heads(s.patches) == Sections(lines)
  {
    hide Classify, Step, AtLastChunk, Knows, Refused, BlocksThen, SectionsThen;
    if lines == [] {
      NothingRead();
    } else {
      var n := |lines| - 1;
      RunIs(lines[..n]);
      RefusedInFront(lines);
      if RunFrom(START, lines[..n]).Some? {
        var s := RunFrom(START, lines[..n]).value;
        StepKnows(lines, s);
        if Step(s, Classify(lines[n])).Some? {
          StepBlocks(s, Classify(lines[n]));
          StepSections(s, Classify(lines[n]));
        }
      }
    }
  }

  lemma {:induction false} NothingRead()
    ensures AtLastChunk(START) && Knows([], START) && Flat([]) == [] && Heads([]) == []
  {
  }

  /** Any lines are either refused, or read as the patches and chunks that they begin one after the other. */
  lemma {:induction false} ParsedIs(lines: seq<string>)
    ensures Parsed(lines).None? <==> SomeRefused(lines)
    ensures Parsed(lines).Some? ==>
              Flat(Parsed(lines).value) == Blocks(lines) && Heads(Parsed(lines).value) == Sections(lines)
  {
    hide SomeRefused, Flat, Heads;
    RunIs(lines);
  }

  /** That tells all: no other patchset has these chunks and these heads. */
  lemma {:induction false} BlocksTell(ps: seq<Patch>, qs: seq<Patch>)
    requires Flat(ps) == Flat(qs) && Heads(ps) == Heads(qs)
    ensures ps == qs
  {
    assert |Heads(ps)| == |ps| && |Heads(qs)| == |qs|;
    if ps != [] {
      var n := |ps| - 1;
      assert Heads(ps)[n] == Heads(qs)[n];
      assert Flat(ps)[..|Flat(ps[..n])|] == Flat(ps[..n]) && Flat(qs)[..|Flat(qs[..n])|] == Flat(qs[..n]);
      assert Flat(ps)[|Flat(ps[..n])|..] == ps[n].chunks && Flat(qs)[|Flat(qs[..n])|..] == qs[n].chunks;
      forall i | 0 <= i < n
        ensures Heads(ps[..n])[i] == Heads(qs[..n])[i]
      {
        assert Heads(ps)[i] == Heads(qs)[i];
      }
      BlocksTell(ps[..n], qs[..n]);
      assert ps == ps[..n] + [ps[n]] && qs == qs[..n] + [qs[n]];
    }
  }
}
