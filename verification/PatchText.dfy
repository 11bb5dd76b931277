/** Patch files in utils/check-style.py: how their lines are read, how a patchset is written, and how each
    line that is written is read.  Each line is the argument of one `write`. */
module PatchText {
  import opened Options

  datatype Kind = Unset | Src | Dst | Both

  datatype Line = Line(kind: Kind, text: string)

  datatype Chunk = Chunk(srcPos: nat, dstPos: nat, lines: seq<Line>)

  datatype Patch = Patch(src: string, dst: string, chunks: seq<Chunk>)

  predicate IsSrc(kind: Kind) {
    kind == Src || kind == Both
  }

  predicate IsDst(kind: Kind) {
    kind == Dst || kind == Both
  }

  /* ----- numbers ----- */

  predicate IsDigit(c: char) {
    '0' <= c <= '9'
  }

  function Digit(d: nat): (c: char)
    requires d < 10
    ensures IsDigit(c) && c as int - '0' as int == d
  {
    ('0' as int + d) as char
  }

  /** `%d` of a number that is not negative. */
  function Decimal(n: nat): (s: string)
    ensures s != "" && forall i :: 0 <= i < |s| ==> IsDigit(s[i])
  {
    if n < 10 then [Digit(n)] else Decimal(n / 10) + [Digit(n % 10)]
  }

  /** `int` of a run of digits. */
  function ReadDigits(s: string): nat
    requires forall i :: 0 <= i < |s| ==> IsDigit(s[i])
  {
    if s == "" then 0
    else
      assert IsDigit(s[|s| - 1]);
      10 * ReadDigits(s[..|s| - 1]) + (s[|s| - 1] as int - '0' as int)
  }

  lemma {:induction false} DecimalReads(n: nat)
    ensures ReadDigits(Decimal(n)) == n
  {
    if n >= 10 {
      DecimalReads(n / 10);
      assert Decimal(n)[..|Decimal(n)| - 1] == Decimal(n / 10);
    } else {
      assert Decimal(n)[..0] == "";
    }
  }

  /* ----- scanning ----- */

  function DigitRun(s: string): (i: nat)
    ensures i <= |s| && (forall j :: 0 <= j < i ==> IsDigit(s[j])) && (i < |s| ==> !IsDigit(s[i]))
  {
    if s == "" || !IsDigit(s[0]) then 0 else 1 + DigitRun(s[1..])
  }

  function Number(s: string): Option<(nat, string)> {
    var i := DigitRun(s);
    if i == 0 then None else Some((ReadDigits(s[..i]), s[i..]))
  }

  function Expect(s: string, literal: string): Option<string> {
    if literal <= s then Some(s[|literal|..]) else None
  }

  function NumberThen(s: string, literal: string): Option<(nat, string)> {
    match Number(s)
    case None => None
    case Some((n, rest)) =>
      match Expect(rest, literal)
      case None => None
      case Some(more) => Some((n, more))
  }

  /** The pattern of a chunk header, which has no `$`: anything may follow. */
  function ReadHeader(line: string): Option<(nat, nat, nat, nat)> {
    match Expect(line, "@@ -")
    case None => None
    case Some(s0) =>
      match NumberThen(s0, ",")
      case None => None
      case Some((a, s1)) =>
        match NumberThen(s1, " +")
        case None => None
        case Some((b, s2)) =>
          match NumberThen(s2, ",")
          case None => None
          case Some((c, s3)) =>
            match NumberThen(s3, " @@")
            case None => None
            case Some((d, _)) => Some((a, b, c, d))
  }

  predicate NoNewline(s: string) {
    '\n' !in s
  }

  /** The text behind a prefix up to the end of the line; `$` looks past one final newline. */
  function TextBehind(line: string, prefix: string): Option<string> {
    if !(prefix <= line) then None
    else
      var rest := line[|prefix|..];
      var text := if rest != "" && rest[|rest| - 1] == '\n' then rest[..|rest| - 1] else rest;
      if NoNewline(text) then Some(text) else None
  }

  /* ----- reading ----- */

  datatype Reading =
    | SrcFile(text: string) | DstFile(text: string) | ChunkStart(srcPos: nat, dstPos: nat)
    | TextLine(line: Line) | Unreadable

  /** The patterns are tried in this order. */
  function Classify(line: string): Reading {
    match TextBehind(line, "--- ")
    case Some(text) => SrcFile(text)
    case None =>
      match TextBehind(line, "+++ ")
      case Some(text) => DstFile(text)
      case None =>
        match ReadHeader(line)
        case Some((a, _, c, _)) => ChunkStart(a, c)
        case None => ClassifyText(line)
  }

  function ClassifyText(line: string): Reading {
    match TextBehind(line, "-")
    case Some(text) => TextLine(Line(Src, text))
    case None =>
      match TextBehind(line, "+")
      case Some(text) => TextLine(Line(Dst, text))
      case None =>
        match TextBehind(line, " ")
        case Some(text) => TextLine(Line(Both, text))
        case None => Unreadable
  }

  /** The patches so far; `current_patch` is the last of them, and `current_chunk`, which a new patch
      leaves as it is, the last chunk of the one at `chunkAt`. */
  datatype Parsing = Parsing(patches: seq<Patch>, chunkAt: Option<nat>)

  predicate ParsingOk(s: Parsing) {
    s.chunkAt.Some? ==> s.chunkAt.value < |s.patches| && s.patches[s.chunkAt.value].chunks != []
  }

  function WithChunk(p: Patch, c: Chunk): Patch {
    p.(chunks := p.chunks + [c])
  }

  function WithLine(c: Chunk, line: Line): Chunk {
    c.(lines := c.lines + [line])
  }

  /** The patch with a line added to its last chunk. */
  function WithLastLine(p: Patch, line: Line): Patch
    requires p.chunks != []
  {
    p.(chunks := p.chunks[|p.chunks| - 1 := WithLine(p.chunks[|p.chunks| - 1], line)])
  }

  /** One line; `None` is an exception. */
  function Step(s: Parsing, reading: Reading): (t: Option<Parsing>)
    requires ParsingOk(s)
    ensures t.Some? ==> ParsingOk(t.value)
  {
    var n := |s.patches|;
    match reading
    case SrcFile(text) => Some(s.(patches := s.patches + [Patch(text, "", [])]))
    case DstFile(text) => if n == 0 then None
        else Some(s.(patches := s.patches[n - 1 := s.patches[n - 1].(dst := text)]))
    case ChunkStart(a, c) =>
      if n == 0 then None
      else Some(Parsing(s.patches[n - 1 := WithChunk(s.patches[n - 1], Chunk(a, c, []))], Some(n - 1)))
    case TextLine(line) =>
      (match s.chunkAt
       case None => None
       case Some(at) => Some(s.(patches := s.patches[at := WithLastLine(s.patches[at], line)])))
    case Unreadable => None
  }

  function RunFrom(s: Parsing, lines: seq<string>): (t: Option<Parsing>)
    requires ParsingOk(s)
    ensures t.Some? ==> ParsingOk(t.value)
  {
    if lines == [] then Some(s)
    else
      match RunFrom(s, lines[..|lines| - 1])
      case None => None
      case Some(t) => Step(t, Classify(lines[|lines| - 1]))
  }

  const START := Parsing([], None)

  /** `parse_patchset`. */
  function Parsed(lines: seq<string>): Option<seq<Patch>> {
    match RunFrom(START, lines)
    case None => None
    case Some(s) => Some(s.patches)
  }

  /* ----- writing ----- */

  function SrcView(lines: seq<Line>): seq<Line> {
    if lines == [] then []
    else SrcView(lines[..|lines| - 1]) + if IsSrc(lines[|lines| - 1].kind) then [lines[|lines| - 1]] else []
  }

  function DstView(lines: seq<Line>): seq<Line> {
    if lines == [] then []
    else DstView(lines[..|lines| - 1]) + if IsDst(lines[|lines| - 1].kind) then [lines[|lines| - 1]] else []
  }

  function Mark(kind: Kind): string {
    match kind
    case Src => "-"
    case Dst => "+"
    case Both => " "
    case Unset => ""
  }

  function LineText(line: Line): string {
    Mark(line.kind) + line.text + "\n"
  }

  function LineTexts(lines: seq<Line>): seq<string> {
    if lines == [] then [] else LineTexts(lines[..|lines| - 1]) + [LineText(lines[|lines| - 1])]
  }

  function HeaderText(c: Chunk): string {
    "@@ -" + (Decimal(c.srcPos) + ("," + (Decimal(|SrcView(c.lines)|) + (" +" + (Decimal(c.dstPos) + (","
    + (Decimal(|DstView(c.lines)|) + " @@\n")))))))
  }

  function ChunkTexts(chunks: seq<Chunk>): seq<string> {
    if chunks == [] then []
    else
      var last := chunks[|chunks| - 1];
      ChunkTexts(chunks[..|chunks| - 1]) + ([HeaderText(last)] + LineTexts(last.lines))
  }

  function SrcText(p: Patch): string {
    "--- " + p.src + "\n"
  }

  function DstText(p: Patch): string {
    "+++ " + p.dst + "\n"
  }

  ghost predicate Writable(lines: seq<Line>) {
    forall i :: 0 <= i < |lines| ==> lines[i].kind != Unset
  }

  ghost predicate PatchWritable(p: Patch) {
    forall c :: 0 <= c < |p.chunks| ==> Writable(p.chunks[c].lines)
  }

  /** How many lines of a chunk come before one that was never set, with which writing fails. */
  ghost function SetLines(lines: seq<Line>): (k: nat)
    ensures k <= |lines| && (forall i :: 0 <= i < k ==> lines[i].kind != Unset)
    ensures k < |lines| ==> lines[k].kind == Unset
  {
    if lines == [] then 0
    else
      var k := SetLines(lines[..|lines| - 1]);
      if k == |lines| - 1 && lines[k].kind != Unset then |lines| else k
  }

  /** How many chunks of a patch come before one with which writing fails. */
  ghost function SetChunks(chunks: seq<Chunk>): (k: nat)
    ensures k <= |chunks| && (forall c :: 0 <= c < k ==> Writable(chunks[c].lines))
    ensures k < |chunks| ==> !Writable(chunks[k].lines)
  {
    if chunks == [] then 0
    else
      var k := SetChunks(chunks[..|chunks| - 1]);
      if k == |chunks| - 1 && Writable(chunks[k].lines) then |chunks| else k
  }

  /** What `PatchChunk.write` gets written, whether or not it fails. */
  ghost function WrittenOfChunk(c: Chunk): seq<string> {
    [HeaderText(c)] + LineTexts(c.lines[..SetLines(c.lines)])
  }

  ghost function WrittenOfChunks(chunks: seq<Chunk>): seq<string> {
    var k := SetChunks(chunks);
    ChunkTexts(chunks[..k]) + if k < |chunks| then WrittenOfChunk(chunks[k]) else []
  }

  /** `Patch.write` of one patch after the other. */
  function Printed(ps: seq<Patch>): seq<string> {
    if ps == [] then []
    else Printed(ps[..|ps| - 1]) + ([SrcText(ps[|ps| - 1]), DstText(ps[|ps| - 1])] + ChunkTexts(ps[|ps| - 1].chunks))
  }

  /* ----- how each written line is read ----- */

  lemma {:induction false} DigitRunBefore(digits: string, rest: string)
    requires (forall i :: 0 <= i < |digits| ==> IsDigit(digits[i])) && rest != "" && !IsDigit(rest[0])
    ensures DigitRun(digits + rest) == |digits|
  {
    if digits == "" {
      assert digits + rest == rest;
    } else {
      assert (digits + rest)[1..] == digits[1..] + rest;
      DigitRunBefore(digits[1..], rest);
    }
  }

  lemma {:induction false} NumberReads(n: nat, literal: string, rest: string)
    requires literal != "" && !IsDigit(literal[0])
    ensures NumberThen(Decimal(n) + (literal + rest), literal) == Some((n, rest))
  {
    var s := Decimal(n) + (literal + rest);
    DecimalReads(n);
    DigitRunBefore(Decimal(n), literal + rest);
    assert s[..|Decimal(n)|] == Decimal(n) && s[|Decimal(n)|..] == literal + rest;
    ExpectReads(literal, rest);
  }

  lemma {:induction false} ExpectReads(literal: string, rest: string)
    ensures Expect(literal + rest, literal) == Some(rest)
  {
    assert (literal + rest)[|literal|..] == rest;
  }

  /** A written header carries the positions and the lengths of the two views. */
  lemma {:induction false} HeaderReads(c: Chunk)
    ensures ReadHeader(HeaderText(c)) == Some((c.srcPos, |SrcView(c.lines)|, c.dstPos, |DstView(c.lines)|))
  {
    hide NumberThen, Expect, SrcView, DstView, Decimal;
    var n, m := |SrcView(c.lines)|, |DstView(c.lines)|;
    var s4 := "\n";
    var s3 := Decimal(m) + (" @@" + s4);
    var s2 := Decimal(c.dstPos) + ("," + s3);
    var s1 := Decimal(n) + (" +" + s2);
    var s0 := Decimal(c.srcPos) + ("," + s1);
    NumberReads(m, " @@", s4);
    NumberReads(c.dstPos, ",", s3);
    NumberReads(n, " +", s2);
    NumberReads(c.srcPos, ",", s1);
    ExpectReads("@@ -", s0);
    assert " @@" + s4 == " @@\n";
    assert HeaderText(c) == "@@ -" + s0;
  }

  lemma {:induction false} BehindPrefix(prefix: string, text: string)
    ensures TextBehind(prefix + text + "\n", prefix) == if NoNewline(text) then Some(text) else None
  {
    var line := prefix + text + "\n";
    assert prefix <= line;
    assert line[|prefix|..] == text + "\n";
    assert (text + "\n")[..|text|] == text;
  }

  lemma {:induction false} NotBehind(line: string, c: char, prefix: string)
    requires line != "" && line[0] == c && prefix != "" && prefix[0] != c
    ensures TextBehind(line, prefix) == None && Expect(line, prefix) == None
  {
  }

  /** With a newline inside, no shorter prefix helps. */
  lemma {:induction false} NewlineInside(prefix: string, text: string, shorter: string)
    requires !NoNewline(text) && |shorter| <= |prefix|
    ensures TextBehind(prefix + text + "\n", shorter) == None
  {
    var line := prefix + text + "\n";
    if shorter <= line {
      var rest := line[|shorter|..];
      var i :| 0 <= i < |text| && text[i] == '\n';
      assert rest[|rest| - 1] == '\n';
      assert rest[..|rest| - 1][|prefix| - |shorter| + i] == '\n';
    }
  }

  lemma {:induction false} ReadsHeader(c: Chunk)
    ensures Classify(HeaderText(c)) == ChunkStart(c.srcPos, c.dstPos)
  {
    hide ReadHeader, SrcView, DstView, TextBehind, Decimal;
    HeaderReads(c);
    NotBehind(HeaderText(c), '@', "--- ");
    NotBehind(HeaderText(c), '@', "+++ ");
  }

  lemma {:induction false} ReadsSrcFile(p: Patch)
    ensures Classify(SrcText(p)) == if NoNewline(p.src) then SrcFile(p.src) else Unreadable
  {
    hide TextBehind, ReadHeader, Expect;
    BehindPrefix("--- ", p.src);
    if !NoNewline(p.src) {
      NewlineInside("--- ", p.src, "-");
      NotBehind(SrcText(p), '-', "+++ ");
      NoHeader(SrcText(p), '-');
      NotBehind(SrcText(p), '-', "+");
      NotBehind(SrcText(p), '-', " ");
    }
  }

  lemma {:induction false} ReadsDstFile(p: Patch)
    ensures Classify(DstText(p)) == if NoNewline(p.dst) then DstFile(p.dst) else Unreadable
  {
    hide TextBehind, ReadHeader, Expect;
    BehindPrefix("+++ ", p.dst);
    NotBehind(DstText(p), '+', "--- ");
    if !NoNewline(p.dst) {
      NewlineInside("+++ ", p.dst, "+");
      NoHeader(DstText(p), '+');
      NotBehind(DstText(p), '+', "-");
      NotBehind(DstText(p), '+', " ");
    }
  }

  lemma {:induction false} NoHeader(line: string, c: char)
    requires line != "" && line[0] == c && c != '@'
    ensures ReadHeader(line) == None
  {
  }

  /** A removed or added line may look like a file name line. */
  predicate LineOk(line: Line) {
    && NoNewline(line.text)
    && (line.kind == Src ==> !("-- " <= line.text))
    && (line.kind == Dst ==> !("++ " <= line.text))
  }

  lemma {:induction false} PrefixInside(c: char, text: string, tail: string)
    requires tail != "" && tail[|tail| - 1] != '\n' && [c] + tail <= [c] + text + "\n"
    ensures tail <= text
  {
    var line, prefix := [c] + text + "\n", [c] + tail;
    assert forall i :: 0 <= i < |tail| ==> line[i + 1] == prefix[i + 1] == tail[i];
    assert |tail| <= |text|;
    assert text[..|tail|] == tail;
  }

  lemma {:induction false} LongerPrefix(c: char, text: string, tail: string)
    requires NoNewline(text) && tail != "" && tail[|tail| - 1] != '\n'
    ensures TextBehind([c] + text + "\n", [c] + tail).Some? <==> tail <= text
  {
    var line, prefix := [c] + text + "\n", [c] + tail;
    if prefix <= line {
      PrefixInside(c, text, tail);
    }
    if tail <= text {
      assert text == tail + text[|tail|..];
      BehindPrefix(prefix, text[|tail|..]);
      assert line == prefix + text[|tail|..] + "\n";
    }
  }

  /** Read back as itself, or as something that is not a line of a chunk. */
  lemma {:induction false} ReadsLine(line: Line)
    requires line.kind != Unset
    ensures LineOk(line) ==> Classify(LineText(line)) == TextLine(line)
    ensures !LineOk(line) ==> !Classify(LineText(line)).TextLine?
  {
    hide TextBehind, ReadHeader, Expect;
    var text, s := line.text, LineText(line);
    NoHeader(s, Mark(line.kind)[0]);
    BehindPrefix(Mark(line.kind), text);
    match line.kind
    case Src =>
      NotBehind(s, '-', "+++ ");
      NotBehind(s, '-', "+");
      NotBehind(s, '-', " ");
      if NoNewline(text) {
        assert ['-'] + "-- " == "--- ";
        LongerPrefix('-', text, "-- ");
      }
    case Dst =>
      NotBehind(s, '+', "--- ");
      NotBehind(s, '+', "-");
      NotBehind(s, '+', " ");
      if NoNewline(text) {
        assert ['+'] + "++ " == "+++ ";
        LongerPrefix('+', text, "++ ");
      }
    case Both =>
      NotBehind(s, ' ', "--- ");
      NotBehind(s, ' ', "+++ ");
      NotBehind(s, ' ', "-");
      NotBehind(s, ' ', "+");
  }
}
