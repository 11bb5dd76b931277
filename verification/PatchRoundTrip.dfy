/** When reading gives back the patchset that was written, and which patchsets can be read at all. */
module PatchRoundTrip {
  import opened Options
  import opened PatchText

  /* ----- reading what was written ----- */

  lemma {:induction false} RunConcat(s: Parsing, a: seq<string>, b: seq<string>)
    requires ParsingOk(s)
    ensures RunFrom(s, a + b) ==
            match RunFrom(s, a) { case None => None case Some(t) => RunFrom(t, b) }
  {
    hide Classify, Step, ParsingOk;
    if b == [] {
      assert a + b == a;
    } else {
      assert (a + b)[..|a + b| - 1] == a + b[..|b| - 1];
      RunConcat(s, a, b[..|b| - 1]);
    }
  }

  lemma {:induction false} RunOne(s: Parsing, line: string)
    requires ParsingOk(s)
    ensures RunFrom(s, [line]) == Step(s, Classify(line))
  {
    hide Classify, Step;
    assert [line][..0] == [];
  }

  ghost predicate LinesOk(lines: seq<Line>) {
    forall i :: 0 <= i < |lines| ==> LineOk(lines[i])
  }

  ghost predicate PatchOk(p: Patch) {
    NoNewline(p.src) && NoNewline(p.dst) && forall c :: 0 <= c < |p.chunks| ==> LinesOk(p.chunks[c].lines)
  }

  /** The state inside the last chunk of the last patch. */
  ghost function InChunk(ps: seq<Patch>, p: Patch, c: Chunk): Parsing {
    Parsing(ps + [WithChunk(p, c)], Some(|ps|))
  }

  lemma {:induction false} LinesRun(ps: seq<Patch>, p: Patch, c: Chunk, lines: seq<Line>)
    requires c.lines == [] && LinesOk(lines) && forall i :: 0 <= i < |lines| ==> lines[i].kind != Unset
    ensures RunFrom(InChunk(ps, p, c), LineTexts(lines)) == Some(InChunk(ps, p, c.(lines := lines)))
  {
    hide Classify, LineOk, LineText;
    if lines != [] {
      var n := |lines| - 1;
      LinesRun(ps, p, c, lines[..n]);
      ReadsLine(lines[n]);
      assert lines == lines[..n] + [lines[n]];
      LineAdded(ps, p, c.(lines := lines[..n]), lines[n]);
    }
  }

  lemma {:induction false} LineAdded(ps: seq<Patch>, p: Patch, c: Chunk, line: Line)
    ensures Step(InChunk(ps, p, c), TextLine(line)) == Some(InChunk(ps, p, WithLine(c, line)))
  {
    var s := InChunk(ps, p, c);
    assert s.patches[|ps|].chunks[|p.chunks| := WithLine(c, line)] == p.chunks + [WithLine(c, line)];
    assert s.patches[|ps| := WithChunk(p, WithLine(c, line))] == ps + [WithChunk(p, WithLine(c, line))];
  }


  lemma {:induction false} ChunkRuns(ps: seq<Patch>, p: Patch, at: Option<nat>, c: Chunk)
    requires ParsingOk(Parsing(ps + [p], at)) && LinesOk(c.lines) && Writable(c.lines)
    ensures RunFrom(Parsing(ps + [p], at), [HeaderText(c)] + LineTexts(c.lines)) == Some(InChunk(ps, p, c))
  {
    hide HeaderText, LineTexts, LineOk, Classify;
    var s := Parsing(ps + [p], at);
    var empty := Chunk(c.srcPos, c.dstPos, []);
    ReadsHeader(c);
    RunOne(s, HeaderText(c));
    assert s.patches[|ps| := WithChunk(p, empty)] == ps + [WithChunk(p, empty)];
    LinesRun(ps, p, empty, c.lines);
    RunConcat(s, [HeaderText(c)], LineTexts(c.lines));
  }

  lemma {:induction false} ChunksRun(ps: seq<Patch>, p: Patch, at: Option<nat>, chunks: seq<Chunk>)
    requires p.chunks == [] && ParsingOk(Parsing(ps + [p], at))
    requires forall c :: 0 <= c < |chunks| ==> LinesOk(chunks[c].lines) && Writable(chunks[c].lines)
    ensures RunFrom(Parsing(ps + [p], at), ChunkTexts(chunks)) ==
            Some(Parsing(ps + [p.(chunks := chunks)], if chunks == [] then at else Some(|ps|)))
  {
    hide HeaderText, LineTexts, LinesOk, Writable, Classify, Step;
    if chunks != [] {
      var n := |chunks| - 1;
      ChunksRun(ps, p, at, chunks[..n]);
      assert WithChunk(p.(chunks := chunks[..n]), chunks[n]) == p.(chunks := chunks);
      ChunkRuns(ps, p.(chunks := chunks[..n]), if n == 0 then at else Some(|ps|), chunks[n]);
      RunConcat(Parsing(ps + [p], at), ChunkTexts(chunks[..n]), [HeaderText(chunks[n])] + LineTexts(chunks[n].lines));
    } else {
      assert p.(chunks := chunks) == p;
    }
  }

  lemma {:induction false} FilesRun(s: Parsing, p: Patch)
    requires ParsingOk(s) && NoNewline(p.src) && NoNewline(p.dst)
    ensures RunFrom(s, [SrcText(p), DstText(p)]) == Some(s.(patches := s.patches + [p.(chunks := [])]))
  {
    hide SrcText, DstText, Classify;
    var t := s.(patches := s.patches + [Patch(p.src, "", [])]);
    ReadsSrcFile(p);
    ReadsDstFile(p);
    RunOne(s, SrcText(p));
    RunOne(t, DstText(p));
    RunConcat(s, [SrcText(p)], [DstText(p)]);
    assert [SrcText(p)] + [DstText(p)] == [SrcText(p), DstText(p)];
    assert t.patches[|s.patches| := p.(chunks := [])] == s.patches + [p.(chunks := [])];
  }

  lemma {:induction false} PatchRuns(s: Parsing, p: Patch)
    requires ParsingOk(s) && PatchOk(p) && PatchWritable(p)
    ensures RunFrom(s, [SrcText(p), DstText(p)] + ChunkTexts(p.chunks)) ==
            Some(Parsing(s.patches + [p], if p.chunks == [] then s.chunkAt else Some(|s.patches|)))
  {
    hide SrcText, DstText, ChunkTexts, LinesOk, Writable;
    FilesRun(s, p);
    assert p.(chunks := []).(chunks := p.chunks) == p;
    ChunksRun(s.patches, p.(chunks := []), s.chunkAt, p.chunks);
    RunConcat(s, [SrcText(p), DstText(p)], ChunkTexts(p.chunks));
  }

  ghost predicate AllOk(ps: seq<Patch>) {
    forall i :: 0 <= i < |ps| ==> PatchOk(ps[i])
  }

  ghost predicate AllWritable(ps: seq<Patch>) {
    forall i :: 0 <= i < |ps| ==> PatchWritable(ps[i])
  }

  lemma {:induction false} PrintedRuns(ps: seq<Patch>)
    requires AllOk(ps) && AllWritable(ps)
    ensures RunFrom(START, Printed(ps)).Some? && RunFrom(START, Printed(ps)).value.patches == ps
  {
    hide PatchOk, PatchWritable, SrcText, DstText, ChunkTexts;
    if ps != [] {
      var n := |ps| - 1;
      PrintedRuns(ps[..n]);
      assert ps == ps[..n] + [ps[n]];
      var s := RunFrom(START, Printed(ps[..n])).value;
      PatchRuns(s, ps[n]);
      RunConcat(START, Printed(ps[..n]), [SrcText(ps[n]), DstText(ps[n])] + ChunkTexts(ps[n].chunks));
    }
  }

  /* ----- only then ----- */

  /** How many lines are read as lines of a chunk. */
  ghost function TextCount(lines: seq<string>): nat {
    if lines == [] then 0
    else TextCount(lines[..|lines| - 1]) + if Classify(lines[|lines| - 1]).TextLine? then 1 else 0
  }

  ghost function ChunkSize(chunks: seq<Chunk>): nat {
    if chunks == [] then 0 else ChunkSize(chunks[..|chunks| - 1]) + |chunks[|chunks| - 1].lines|
  }

  ghost function Size(ps: seq<Patch>): nat {
    if ps == [] then 0 else Size(ps[..|ps| - 1]) + ChunkSize(ps[|ps| - 1].chunks)
  }

  lemma {:induction false} SizeChanged(ps: seq<Patch>, i: nat, p: Patch)
    requires i < |ps|
    ensures Size(ps[i := p]) + ChunkSize(ps[i].chunks) == Size(ps) + ChunkSize(p.chunks)
  {
    hide ChunkSize;
    var n := |ps| - 1;
    if i < n {
      assert ps[i := p][..n] == ps[..n][i := p];
      SizeChanged(ps[..n], i, p);
    } else {
      assert ps[i := p][..n] == ps[..n];
    }
  }

  lemma {:induction false} LastLineSize(p: Patch, line: Line)
    requires p.chunks != []
    ensures ChunkSize(WithLastLine(p, line).chunks) == ChunkSize(p.chunks) + 1
  {
    var n := |p.chunks| - 1;
    assert WithLastLine(p, line).chunks[..n] == p.chunks[..n];
  }

  lemma {:induction false} NewChunkSize(p: Patch, a: nat, c: nat)
    ensures ChunkSize(WithChunk(p, Chunk(a, c, [])).chunks) == ChunkSize(p.chunks)
  {
    assert (p.chunks + [Chunk(a, c, [])])[..|p.chunks|] == p.chunks;
  }

  lemma {:induction false} StepSize(s: Parsing, reading: Reading)
    requires ParsingOk(s) && Step(s, reading).Some?
    ensures Size(Step(s, reading).value.patches) == Size(s.patches) + if reading.TextLine? then 1 else 0
  {
    hide Size, ChunkSize;
    var n := |s.patches|;
    match reading
    case SrcFile(text) => NewPatchSize(s.patches, text);
    case DstFile(text) => SizeChanged(s.patches, n - 1, s.patches[n - 1].(dst := text));
    case ChunkStart(a, c) =>
      NewChunkSize(s.patches[n - 1], a, c);
      SizeChanged(s.patches, n - 1, WithChunk(s.patches[n - 1], Chunk(a, c, [])));
    case TextLine(line) =>
      LastLineSize(s.patches[s.chunkAt.value], line);
      SizeChanged(s.patches, s.chunkAt.value, WithLastLine(s.patches[s.chunkAt.value], line));
    case Unreadable =>
  }

  lemma {:induction false} NewPatchSize(ps: seq<Patch>, text: string)
    ensures Size(ps + [Patch(text, "", [])]) == Size(ps)
  {
    assert (ps + [Patch(text, "", [])])[..|ps|] == ps;
  }

  /** Every line of a chunk comes from a line read as one. */
  lemma {:induction false} RunSize(lines: seq<string>)
    requires RunFrom(START, lines).Some?
    ensures Size(RunFrom(START, lines).value.patches) == TextCount(lines)
    ensures forall i :: 0 <= i < |lines| ==> !Classify(lines[i]).Unreadable?
  {
    hide Classify;
    if lines != [] {
      var n := |lines| - 1;
      RunSize(lines[..n]);
      StepSize(RunFrom(START, lines[..n]).value, Classify(lines[n]));
      assert forall i :: 0 <= i < n ==> lines[i] == lines[..n][i];
    }
  }

  lemma {:induction false} TextCountConcat(a: seq<string>, b: seq<string>)
    ensures TextCount(a + b) == TextCount(a) + TextCount(b)
  {
    hide Classify;
    if b == [] {
      assert a + b == a;
    } else {
      assert (a + b)[..|a + b| - 1] == a + b[..|b| - 1];
      TextCountConcat(a, b[..|b| - 1]);
    }
  }

  lemma {:induction false} TextCountOfLines(lines: seq<Line>)
    requires Writable(lines)
    ensures TextCount(LineTexts(lines)) <= |lines|
    ensures TextCount(LineTexts(lines)) == |lines| <==> LinesOk(lines)
  {
    hide Classify, LineOk, LineText;
    if lines != [] {
      hide LinesOk;
      var n := |lines| - 1;
      TextCountOfLines(lines[..n]);
      ReadsLine(lines[n]);
      LinesOkSplit(lines);
    }
  }

  lemma {:induction false} LinesOkSplit(lines: seq<Line>)
    requires lines != []
    ensures LinesOk(lines) <==> LinesOk(lines[..|lines| - 1]) && LineOk(lines[|lines| - 1])
  {
    hide LineOk;
    assert lines == lines[..|lines| - 1] + [lines[|lines| - 1]];
  }

  lemma {:induction false} TextCountOne(line: string)
    ensures TextCount([line]) == if Classify(line).TextLine? then 1 else 0
  {
    hide Classify;
    assert [line][..0] == [];
  }

  lemma {:induction false} TextCountOfChunks(chunks: seq<Chunk>)
    requires forall c :: 0 <= c < |chunks| ==> Writable(chunks[c].lines)
    ensures TextCount(ChunkTexts(chunks)) <= ChunkSize(chunks)
    ensures TextCount(ChunkTexts(chunks)) == ChunkSize(chunks) <==>
            forall c :: 0 <= c < |chunks| ==> LinesOk(chunks[c].lines)
  {
    hide Classify, LinesOk, HeaderText, LineTexts, Writable;
    if chunks != [] {
      var n := |chunks| - 1;
      var header, texts := HeaderText(chunks[n]), LineTexts(chunks[n].lines);
      TextCountOfChunks(chunks[..n]);
      TextCountOfLines(chunks[n].lines);
      ReadsHeader(chunks[n]);
      TextCountOne(header);
      TextCountConcat([header], texts);
      TextCountConcat(ChunkTexts(chunks[..n]), [header] + texts);
      assert chunks == chunks[..n] + [chunks[n]];
    }
  }

  lemma {:induction false} TextCountOfFiles(p: Patch)
    ensures TextCount([SrcText(p), DstText(p)]) == 0
  {
    hide Classify, SrcText, DstText;
    ReadsSrcFile(p);
    ReadsDstFile(p);
    TextCountOne(SrcText(p));
    TextCountOne(DstText(p));
    TextCountConcat([SrcText(p)], [DstText(p)]);
    assert [SrcText(p)] + [DstText(p)] == [SrcText(p), DstText(p)];
  }

  ghost predicate ChunksOk(ps: seq<Patch>) {
    forall i :: 0 <= i < |ps| ==> forall c :: 0 <= c < |ps[i].chunks| ==> LinesOk(ps[i].chunks[c].lines)
  }

  lemma {:induction false} TextCountOfPatches(ps: seq<Patch>)
    requires AllWritable(ps)
    ensures TextCount(Printed(ps)) <= Size(ps)
    ensures TextCount(Printed(ps)) == Size(ps) ==> ChunksOk(ps)
  {
    hide Classify, LinesOk, SrcText, DstText, ChunkTexts, Writable, ChunkSize;
    if ps != [] {
      var n := |ps| - 1;
      var files, chunks := [SrcText(ps[n]), DstText(ps[n])], ChunkTexts(ps[n].chunks);
      assert PatchWritable(ps[n]);
      TextCountOfPatches(ps[..n]);
      TextCountOfFiles(ps[n]);
      TextCountOfChunks(ps[n].chunks);
      TextCountConcat(files, chunks);
      TextCountConcat(Printed(ps[..n]), files + chunks);
      assert ps == ps[..n] + [ps[n]];
    }
  }

  lemma {:induction false} FilesWritten(ps: seq<Patch>, i: nat)
    requires i < |ps|
    ensures SrcText(ps[i]) in Printed(ps) && DstText(ps[i]) in Printed(ps)
  {
    hide SrcText, DstText, ChunkTexts;
    var n := |ps| - 1;
    var files := [SrcText(ps[n]), DstText(ps[n])];
    assert files[0] in files && files[1] in files;
    if i < n {
      FilesWritten(ps[..n], i);
    }
  }

  /** Reading gives back what was written exactly when no text holds a newline, no removed line begins
      with `-- ` and no added line with `++ `. */
  lemma {:induction false} RoundTripIff(ps: seq<Patch>)
    requires AllWritable(ps)
    ensures Parsed(Printed(ps)) == Some(ps) <==> AllOk(ps)
  {
    hide PatchWritable, Classify, Size, TextCount, Printed, RunFrom, LinesOk, SrcText, DstText;
    if AllOk(ps) {
      PrintedRuns(ps);
    }
    if Parsed(Printed(ps)) == Some(ps) {
      RunSize(Printed(ps));
      TextCountOfPatches(ps);
      forall i | 0 <= i < |ps|
        ensures PatchOk(ps[i])
      {
        FilesWritten(ps, i);
        ReadsSrcFile(ps[i]);
        ReadsDstFile(ps[i]);
      }
    }
  }

  /* ----- what can be read ----- */

  lemma {:induction false} BehindIsFree(line: string, prefix: string)
    requires TextBehind(line, prefix).Some?
    ensures var text := TextBehind(line, prefix).value;
      NoNewline(text) && (line == prefix + text || line == prefix + text + "\n")
  {
    var rest := line[|prefix|..];
    assert line == prefix + rest;
    if rest != "" && rest[|rest| - 1] == '\n' {
      assert rest == rest[..|rest| - 1] + "\n";
    }
  }

  /** A text that begins like the rest of a longer prefix would have been read with that prefix. */
  lemma {:induction false} LongerFirst(line: string, c: char, tail: string)
    requires TextBehind(line, [c]).Some? && tail <= TextBehind(line, [c]).value
    ensures TextBehind(line, [c] + tail).Some?
  {
    var text := TextBehind(line, [c]).value;
    BehindIsFree(line, [c]);
    hide TextBehind, NoNewline;
    var more := text[|tail|..];
    RestFree(text, |tail|);
    Prefixed([c], tail, more);
    LineBehind([c] + tail, more);
    BehindPrefix([c] + tail, more);
  }

  lemma {:induction false} RestFree(text: string, k: nat)
    requires NoNewline(text) && k <= |text|
    ensures NoNewline(text[k..]) && text == text[..k] + text[k..]
  {
  }

  lemma {:induction false} Prefixed(c: string, tail: string, more: string)
    ensures c + (tail + more) == c + tail + more && c + (tail + more) + "\n" == c + tail + more + "\n"
  {
  }

  lemma {:induction false} LineBehind(prefix: string, text: string)
    requires NoNewline(text)
    ensures TextBehind(prefix + text, prefix) == Some(text)
  {
    assert (prefix + text)[|prefix|..] == text;
    assert text != "" ==> text[|text| - 1] in text;
  }

  lemma {:induction false} ClassifyOk(line: string)
    ensures match Classify(line)
      case SrcFile(text) => NoNewline(text)
      case DstFile(text) => NoNewline(text)
      case TextLine(l) => LineOk(l) && l.kind != Unset
      case _ => true
  {
    hide TextBehind, ReadHeader;
    assert ['-'] + "-- " == "--- " && ['+'] + "++ " == "+++ ";
    if TextBehind(line, "--- ").Some? {
      BehindIsFree(line, "--- ");
    } else if TextBehind(line, "+++ ").Some? {
      BehindIsFree(line, "+++ ");
    } else if ReadHeader(line).None? {
      TextOk(line);
    }
  }

  lemma {:induction false} TextOk(line: string)
    requires TextBehind(line, "--- ").None? && TextBehind(line, "+++ ").None?
    ensures ClassifyText(line).TextLine? ==> LineOk(ClassifyText(line).line) && ClassifyText(line).line.kind != Unset
  {
    hide TextBehind;
    assert ['-'] + "-- " == "--- " && ['+'] + "++ " == "+++ ";
    if TextBehind(line, "-").Some? {
      BehindIsFree(line, "-");
      if "-- " <= TextBehind(line, "-").value {
        LongerFirst(line, '-', "-- ");
      }
    } else if TextBehind(line, "+").Some? {
      BehindIsFree(line, "+");
      if "++ " <= TextBehind(line, "+").value {
        LongerFirst(line, '+', "++ ");
      }
    } else if TextBehind(line, " ").Some? {
      BehindIsFree(line, " ");
    }
  }

  ghost predicate Readable(p: Patch) {
    PatchOk(p) && PatchWritable(p)
  }

  ghost predicate AllReadable(ps: seq<Patch>) {
    forall i :: 0 <= i < |ps| ==> Readable(ps[i])
  }

  ghost predicate ReadingOk(reading: Reading) {
    match reading
    case SrcFile(text) => NoNewline(text)
    case DstFile(text) => NoNewline(text)
    case TextLine(l) => LineOk(l) && l.kind != Unset
    case _ => true
  }

  lemma {:induction false} WithChunkReadable(p: Patch, a: nat, c: nat)
    requires Readable(p)
    ensures Readable(WithChunk(p, Chunk(a, c, [])))
  {
  }

  lemma {:induction false} WithLineReadable(p: Patch, line: Line)
    requires Readable(p) && p.chunks != [] && LineOk(line) && line.kind != Unset
    ensures Readable(WithLastLine(p, line))
  {
    hide LineOk;
    var n := |p.chunks| - 1;
    var lines := p.chunks[n].lines;
    assert LinesOk(lines) && Writable(lines);
    assert LinesOk(lines + [line]) && Writable(lines + [line]);
  }

  lemma {:induction false} StepReadable(s: Parsing, reading: Reading)
    requires ParsingOk(s) && Step(s, reading).Some? && ReadingOk(reading) && AllReadable(s.patches)
    ensures AllReadable(Step(s, reading).value.patches)
  {
    hide LineOk, LinesOk, Writable;
    var n := |s.patches|;
    match reading
    case SrcFile(text) =>
    case DstFile(text) =>
      assert Readable(s.patches[n - 1]);
    case ChunkStart(a, c) =>
      WithChunkReadable(s.patches[n - 1], a, c);
    case TextLine(line) =>
      WithLineReadable(s.patches[s.chunkAt.value], line);
    case Unreadable =>
  }

  lemma {:induction false} RunReadable(lines: seq<string>)
    requires RunFrom(START, lines).Some?
    ensures AllReadable(RunFrom(START, lines).value.patches)
  {
    hide Classify, Step, Readable;
    if lines != [] {
      var n := |lines| - 1;
      RunReadable(lines[..n]);
      ClassifyOk(lines[n]);
      StepReadable(RunFrom(START, lines[..n]).value, Classify(lines[n]));
    }
  }

  /** The patchsets that some lines can be read as are exactly those that are read back from what they
      are written as. */
  lemma {:induction false} RangeOfParse(ps: seq<Patch>)
    ensures (exists lines :: Parsed(lines) == Some(ps)) <==> AllWritable(ps) && AllOk(ps)
  {
    hide PatchOk, PatchWritable, Printed, RunFrom;
    if lines :| Parsed(lines) == Some(ps) {
      RunReadable(lines);
      assert forall i :: 0 <= i < |ps| ==> Readable(ps[i]);
    }
    if AllWritable(ps) && AllOk(ps) {
      RoundTripIff(ps);
    }
  }
}
