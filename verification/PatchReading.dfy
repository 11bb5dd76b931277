/** How utils/check-style.py reads any line of a patch file, and any sequence of lines, written by it or not. */
module PatchReading {
  import opened Options
  import opened PatchText
  import opened PatchRoundTrip

  /* ----- numbers ----- */

  predicate Digits(s: string) {
    forall i :: 0 <= i < |s| ==> '0' <= s[i] <= '9'
  }

  /** `n` without its last `k` digits. */
  function Cut(n: nat, k: nat): nat {
    if k == 0 then n else Cut(n / 10, k - 1)
  }

  lemma {:induction false} DecimalMeans(n: nat, k: nat)
    requires k < |Decimal(n)|
    ensures Decimal(n)[|Decimal(n)| - 1 - k] as int - '0' as int == Cut(n, k) % 10
    ensures Cut(n, |Decimal(n)|) == 0
    ensures Decimal(n)[0] == '0' ==> n == 0
  {
    if n >= 10 {
      DecimalMeans(n / 10, if k > 0 then k - 1 else 0);
    } else {
      assert Cut(n, 1) == Cut(n / 10, 0) == 0;
    }
  }

  lemma {:induction false} Middle(s: string)
    requires |s| > 1
    ensures s[1..][..|s| - 2] == s[..|s| - 1][1..] && s[1..][|s| - 2] == s[|s| - 1]
    ensures s == s[..|s| - 1] + [s[|s| - 1]]
  {
  }

  lemma {:induction false} LastDigit(s: string)
    requires s != "" && Digits(s)
    ensures var n, d := |s| - 1, s[|s| - 1] as int - '0' as int;
      && Digits(s[..n]) && Digits(s[1..]) && 0 <= d < 10
      && ReadDigits(s) == 10 * ReadDigits(s[..n]) + d
      && (ReadDigits(s[..n]) > 0 ==> Decimal(ReadDigits(s)) == Decimal(ReadDigits(s[..n])) + [s[n]])
  {
    assert IsDigit(s[|s| - 1]);
  }

  lemma {:induction false} ShortDigits(s: string)
    requires |s| == 1 && Digits(s)
    ensures Decimal(ReadDigits(s)) == s && ReadDigits("") == 0
    ensures s[0] == '0' ==> ReadDigits(s) == 0
  {
    assert IsDigit(s[0]);
    assert s[..0] == "";
  }

  /** Leading zeros are skipped, and what is left is the number written out. */
  lemma {:induction false} DigitsMean(s: string)
    requires s != "" && Digits(s)
    ensures if s[0] != '0' || |s| == 1 then Decimal(ReadDigits(s)) == s
            else ReadDigits(s) == ReadDigits(s[1..])
  {
    hide Decimal, ReadDigits;
    if |s| == 1 {
      ShortDigits(s);
    } else {
      var front := s[..|s| - 1];
      LastDigit(s);
      LastDigit(s[1..]);
      DigitsMean(front);
      Middle(s);
      if s[0] != '0' {
        NotZero(front);
      } else if |front| == 1 {
        ShortDigits(front);
        assert front[1..] == "";
      }
    }
  }

  lemma {:induction false} NotZero(s: string)
    requires s != "" && Digits(s) && s[0] != '0'
    ensures ReadDigits(s) > 0
  {
    assert IsDigit(s[|s| - 1]);
    if |s| > 1 {
      NotZero(s[..|s| - 1]);
    }
  }

  /* ----- chunk headers ----- */

  /** The four numbers of a header, written with any digits, and whatever stands behind it. */
  predicate IsHeader(line: string, a: string, b: string, c: string, d: string, tail: string) {
    && a != "" && b != "" && c != "" && d != "" && Digits(a) && Digits(b) && Digits(c) && Digits(d)
    && line == "@@ -" + (a + ("," + (b + (" +" + (c + ("," + (d + (" @@" + tail))))))))
  }

  lemma {:induction false} NumberParts(s: string, literal: string)
    requires NumberThen(s, literal).Some?
    ensures var k := DigitRun(s);
      && k > 0 && Digits(s[..k]) && NumberThen(s, literal).value.0 == ReadDigits(s[..k])
      && s == s[..k] + (literal + NumberThen(s, literal).value.1)
  {
    var k := DigitRun(s);
    assert s[k..] == literal + s[k..][|literal|..];
  }

  lemma {:induction false} NumberBefore(digits: string, literal: string, rest: string)
    requires digits != "" && Digits(digits) && literal != "" && !IsDigit(literal[0])
    ensures NumberThen(digits + (literal + rest), literal) == Some((ReadDigits(digits), rest))
  {
    var s := digits + (literal + rest);
    DigitRunBefore(digits, literal + rest);
    assert s[..|digits|] == digits && s[|digits|..] == literal + rest;
    ExpectReads(literal, rest);
  }

  /** A header is read as its numbers whatever stands behind it. */
  lemma {:induction false} HeaderRead(line: string, a: string, b: string, c: string, d: string, tail: string)
    requires IsHeader(line, a, b, c, d, tail)
    ensures ReadHeader(line) == Some((ReadDigits(a), ReadDigits(b), ReadDigits(c), ReadDigits(d)))
  {
    hide NumberThen, Expect, ReadDigits, Digits;
    var s3 := d + (" @@" + tail);
    var s2 := c + ("," + s3);
    var s1 := b + (" +" + s2);
    var s0 := a + ("," + s1);
    NumberBefore(d, " @@", tail);
    NumberBefore(c, ",", s3);
    NumberBefore(b, " +", s2);
    NumberBefore(a, ",", s1);
    ExpectReads("@@ -", s0);
  }

  lemma {:induction false} HeaderParts(line: string)
    returns (a: string, b: string, c: string, d: string, tail: string)
    requires ReadHeader(line).Some?
    ensures IsHeader(line, a, b, c, d, tail)
  {
    hide NumberThen, ReadDigits, Digits, DigitRun;
    var s0 := line[|"@@ -"|..];
    assert line == "@@ -" + s0;
    hide Expect;
    NumberParts(s0, ",");
    var s1 := NumberThen(s0, ",").value.1;
    NumberParts(s1, " +");
    var s2 := NumberThen(s1, " +").value.1;
    NumberParts(s2, ",");
    var s3 := NumberThen(s2, ",").value.1;
    NumberParts(s3, " @@");
    tail := NumberThen(s3, " @@").value.1;
    a, b, c, d := s0[..DigitRun(s0)], s1[..DigitRun(s1)], s2[..DigitRun(s2)], s3[..DigitRun(s3)];
  }

  /** A line is a header exactly if it can be taken apart so. */
  lemma {:induction false} HeaderIff(line: string)
    ensures ReadHeader(line).Some? <==> exists a, b, c, d, tail :: IsHeader(line, a, b, c, d, tail)
  {
    hide ReadHeader;
    if ReadHeader(line).Some? {
      var a, b, c, d, tail := HeaderParts(line);
    }
    if a, b, c, d, tail :| IsHeader(line, a, b, c, d, tail) {
      HeaderRead(line, a, b, c, d, tail);
    }
  }

  /** Some tools name the function behind a header. */
  lemma {:induction false} HeaderExample()
    ensures ReadHeader("@@ -1,7 +12,9 @@ int main") == Some((1, 7, 12, 9))
  {
    hide ReadHeader, ReadDigits;
    HeaderRead("@@ -1,7 +12,9 @@ int main", "1", "7", "12", "9", " int main");
    ExampleNumbers();
  }

  lemma {:induction false} ExampleNumbers()
    ensures ReadDigits("1") == 1 && ReadDigits("7") == 7 && ReadDigits("9") == 9 && ReadDigits("12") == 12
  {
    assert "12"[..1] == "1" && "1"[..0] == "" && "7"[..0] == "" && "9"[..0] == "";
  }

  /* ----- any line ----- */

  /** The line is the text behind the prefix, with one newline at its end or none. */
  predicate Has(line: string, prefix: string, text: string) {
    NoNewline(text) && (line == prefix + text || line == prefix + text + "\n")
  }

  lemma {:induction false} BehindIff(line: string, prefix: string, text: string)
    ensures TextBehind(line, prefix) == Some(text) <==> Has(line, prefix, text)
  {
    if TextBehind(line, prefix) == Some(text) {
      BehindIsFree(line, prefix);
    }
    if line == prefix + text && NoNewline(text) {
      assert line[|prefix|..] == text;
      assert text != "" ==> text[|text| - 1] in text;
    }
    if line == prefix + text + "\n" {
      BehindPrefix(prefix, text);
    }
  }

  lemma {:induction false} OtherFirst(line: string, prefix: string)
    requires prefix != "" && (line == "" || line[0] != prefix[0])
    ensures TextBehind(line, prefix) == None && Expect(line, prefix) == None
  {
  }

  /** Only a line's first character, and what follows it, decide. */
  lemma {:induction false} ByFirst(line: string)
    ensures Classify(line) ==
            if line == "" then Unreadable
            else match line[0]
              case '-' => TwoWays(line, "--- ", "-", Src)
              case '+' => TwoWays(line, "+++ ", "+", Dst)
              case ' ' => OneWay(line, " ", Both)
              case '@' =>
                (match ReadHeader(line)
                 case None => Unreadable
                 case Some((a, _, c, _)) => ChunkStart(a, c))
              case _ => Unreadable
  {
    hide TextBehind, Expect;
    if line == "" || line[0] != '-' {
      OtherFirst(line, "--- ");
      OtherFirst(line, "-");
    }
    if line == "" || line[0] != '+' {
      OtherFirst(line, "+++ ");
      OtherFirst(line, "+");
    }
    if line == "" || line[0] != ' ' {
      OtherFirst(line, " ");
    }
    if line == "" || line[0] != '@' {
      OtherFirst(line, "@@ -");
    }
  }

  /** A file name, a line of text, or neither. */
  function TwoWays(line: string, name: string, mark: string, kind: Kind): Reading {
    match TextBehind(line, name)
    case Some(text) => if kind == Src then SrcFile(text) else DstFile(text)
    case None => OneWay(line, mark, kind)
  }

  function OneWay(line: string, mark: string, kind: Kind): Reading {
    match TextBehind(line, mark)
    case Some(text) => TextLine(Line(kind, text))
    case None => Unreadable
  }

  /** A text behind the mark is one behind the file name's prefix exactly if it begins like one. */
  lemma {:induction false} LongerIff(line: string, c: char, tail: string, text: string)
    requires Has(line, [c], text) && NoNewline(tail)
    ensures TextBehind(line, [c] + tail).Some? <==> tail <= text
  {
    BehindIff(line, [c], text);
    if tail <= text {
      LongerFirst(line, c, tail);
    }
    if TextBehind(line, [c] + tail).Some? {
      var rest := TextBehind(line, [c] + tail).value;
      BehindIff(line, [c] + tail, rest);
      assert [c] + tail + rest == [c] + (tail + rest);
      BehindIff(line, [c], tail + rest);
      assert text == tail + rest;
    }
  }

  /** What any line is read as, by its beginning. */
  lemma {:induction false} ReadAs(line: string, text: string)
    ensures Classify(line) == SrcFile(text) <==> Has(line, "--- ", text)
    ensures Classify(line) == DstFile(text) <==> Has(line, "+++ ", text)
    ensures Classify(line) == TextLine(Line(Src, text)) <==> Has(line, "-", text) && !("-- " <= text)
    ensures Classify(line) == TextLine(Line(Dst, text)) <==> Has(line, "+", text) && !("++ " <= text)
    ensures Classify(line) == TextLine(Line(Both, text)) <==> Has(line, " ", text)
  {
    BehindIff(line, "--- ", text);
    BehindIff(line, "+++ ", text);
    BehindIff(line, "-", text);
    BehindIff(line, "+", text);
    BehindIff(line, " ", text);
    ByFirst(line);
    HasFirst(line, text);
    hide TextBehind, Classify, ReadHeader;
    if Has(line, "-", text) {
      assert ['-'] + "-- " == "--- ";
      LongerIff(line, '-', "-- ", text);
    }
    if Has(line, "+", text) {
      assert ['+'] + "++ " == "+++ ";
      LongerIff(line, '+', "++ ", text);
    }
    hide Has;
  }

  lemma {:induction false} HasFirst(line: string, text: string)
    ensures Has(line, "--- ", text) || Has(line, "-", text) ==> line != "" && line[0] == '-'
    ensures Has(line, "+++ ", text) || Has(line, "+", text) ==> line != "" && line[0] == '+'
    ensures Has(line, " ", text) ==> line != "" && line[0] == ' '
  {
  }

  /** And as a header, by its four numbers, of which the first and the third count. */
  lemma {:induction false} ReadAsHeader(line: string)
    ensures Classify(line).ChunkStart? <==> exists a, b, c, d, tail :: IsHeader(line, a, b, c, d, tail)
    ensures forall a, b, c, d, tail :: IsHeader(line, a, b, c, d, tail) ==>
              Classify(line) == ChunkStart(ReadDigits(a), ReadDigits(c))
  {
    HeaderIff(line);
    ByFirst(line);
    hide Classify, TextBehind;
    if line == "" || line[0] != '@' {
      NotHeader(line);
    }
    hide ReadHeader, ReadDigits;
    forall a, b, c, d, tail | IsHeader(line, a, b, c, d, tail)
      ensures Classify(line) == ChunkStart(ReadDigits(a), ReadDigits(c))
    {
      HeaderRead(line, a, b, c, d, tail);
    }
  }

  lemma {:induction false} NotHeader(line: string)
    requires line == "" || line[0] != '@'
    ensures ReadHeader(line) == None
  {
    hide NumberThen;
  }

  /* ----- what is written ----- */

  /** A written header has the positions and the sizes of the two views, and a newline behind it. */
  lemma {:induction false} HeaderWritten(c: Chunk)
    ensures IsHeader(HeaderText(c), Decimal(c.srcPos), Decimal(|SrcView(c.lines)|), Decimal(c.dstPos),
                     Decimal(|DstView(c.lines)|), "\n")
  {
    hide Decimal, SrcView, DstView;
    assert " @@" + "\n" == " @@\n";
  }

  ghost predicate Terminated(line: string) {
    line != "" && line[|line| - 1] == '\n'
  }

  ghost predicate AllTerminated(lines: seq<string>) {
    forall i :: 0 <= i < |lines| ==> Terminated(lines[i])
  }

  lemma {:induction false} HeaderTerminated(c: Chunk)
    ensures Terminated(HeaderText(c))
  {
    hide Decimal, SrcView, DstView;
    assert " @@\n"[3] == '\n';
  }

  lemma {:induction false} LinesTerminated(lines: seq<Line>)
    ensures AllTerminated(LineTexts(lines)) && |LineTexts(lines)| == |lines|
  {
    if lines != [] {
      LinesTerminated(lines[..|lines| - 1]);
    }
  }

  lemma {:induction false} ChunksTerminated(chunks: seq<Chunk>)
    ensures AllTerminated(ChunkTexts(chunks))
  {
    hide HeaderText, LineTexts, Terminated;
    if chunks != [] {
      ChunksTerminated(chunks[..|chunks| - 1]);
      HeaderTerminated(chunks[|chunks| - 1]);
      LinesTerminated(chunks[|chunks| - 1].lines);
    }
  }

  /** Every line that is written ends in a newline. */
  lemma {:induction false} PrintedTerminated(ps: seq<Patch>)
    ensures AllTerminated(Printed(ps))
  {
    hide ChunkTexts, Terminated, SrcText, DstText;
    if ps != [] {
      PrintedTerminated(ps[..|ps| - 1]);
      ChunksTerminated(ps[|ps| - 1].chunks);
      FilesTerminated(ps[|ps| - 1]);
    }
  }

  lemma {:induction false} FilesTerminated(p: Patch)
    ensures Terminated(SrcText(p)) && Terminated(DstText(p))
  {
  }
}
