/** Both parsers read back exactly what the printer wrote. */
module FrameRoundTrip {
  import opened Records
  import opened Text
  import opened Numbers
  import opened Frames

  /** A body whose end survives trimming. */
  predicate EndsSolid(body: Bytes) {
    body != [] && !IsSpaceByte(body[|body| - 1])
  }

  predicate LastIsSolid(bodies: seq<Bytes>) {
    bodies != [] ==> EndsSolid(bodies[|bodies| - 1])
  }

  predicate Fits(bodies: seq<Bytes>) {
    forall i :: 0 <= i < |bodies| ==> |bodies[i]| <= MAX_BODY
  }

  // ---------- the header ----------

  lemma {:induction false} IndexAfter(front: Bytes, pat: Bytes, back: Bytes)
    requires pat != [] && pat[0] !in front
    ensures Index(front + pat + back, pat) == |front|
  {
    var s := front + pat + back;
    if front == [] {
      assert s[..|pat|] == pat;
    } else {
      assert front[0] in front && s[0] == front[0];
      assert s[1..] == front[1..] + pat + back;
      assert forall b :: b in front[1..] ==> b in front;
      IndexAfter(front[1..], pat, back);
    }
  }

  lemma {:induction false} CutAfter(a: string, sep: char, b: string)
    requires sep !in a
    ensures CutAt(a + [sep] + b, sep) == Some((a, b))
  {
    var s := a + [sep] + b;
    if a == "" {
      assert s[1..] == b;
    } else {
      assert a[0] in a && s[0] == a[0];
      assert s[1..] == a[1..] + [sep] + b;
      assert forall c :: c in a[1..] ==> c in a;
      CutAfter(a[1..], sep, b);
      assert [a[0]] + a[1..] == a;
    }
  }

  lemma DigitsAreNotSpace(n: nat)
    ensures var d := Itoa(n); TrimText(d) == d && TrimText(" " + d) == d
    ensures forall c :: c in Itoa(n) ==> IsDigit(c)
  {
    var d := Itoa(n);
    assert IsDigit(d[0]) && IsDigit(d[|d| - 1]);
    assert (" " + d)[1..] == d;
  }

  lemma HeaderTrimmed(n: nat, line: string)
    requires line == HeaderLine(n) || line == HeaderLine(n) + "\r"
    ensures TrimText(TrimCR(line)) == HeaderLine(n)
  {
    var h, d := HeaderLine(n), Itoa(n);
    assert h[0] == 'C' && h[|h| - 1] == d[|d| - 1] && IsDigit(h[|h| - 1]);
    hide Itoa, HeaderLine;
    assert (h + "\r")[..|h|] == h;
    assert TrimCR(line) == h;
  }

  /** A header line, alone or with a line's trailing carriage return, gives back its length. */
  lemma HeaderLength(n: nat, lines: seq<string>)
    requires n <= MAX_INT64
    requires |lines| >= 1 && (lines[0] == HeaderLine(n) || lines[0] == HeaderLine(n) + "\r")
    ensures LengthInLines(lines) == Got(n)
  {
    hide Itoa, Atoi, TrimText, TrimCR, EqualFold, CutAt;
    var d, name := Itoa(n), "Content-Length";
    DigitsAreNotSpace(n);
    AtoiItoa(n);
    HeaderTrimmed(n, lines[0]);
    assert HeaderLine(n) == name + [':'] + (" " + d);
    hide HeaderLine;
    assert ':' !in name;
    CutAfter(name, ':', " " + d);
    SameFold(name);
  }

  lemma SameFold(name: string)
    ensures EqualFold(name, name)
  {
  }

  lemma HeaderChars(n: nat)
    ensures forall i :: 0 <= i < |HeaderLine(n)| ==> HeaderLine(n)[i] != '\r' && HeaderLine(n)[i] != '\n'
    ensures CR !in Ascii(HeaderLine(n)) && LF !in Ascii(HeaderLine(n))
  {
    var d, name := Itoa(n), "Content-Length: ";
    assert forall i :: 0 <= i < |name| ==> name[i] != '\r' && name[i] != '\n';
    assert forall i :: 0 <= i < |d| ==> IsDigit(d[i]);
  }

  lemma BatchHeader(n: nat)
    requires n <= MAX_INT64
    ensures ContentLength(Ascii(HeaderLine(n))) == Got(n)
  {
    hide LengthInLines, HeaderLine;
    HeaderChars(n);
    SplitJoin([HeaderLine(n)], '\n');
    HeaderLength(n, [HeaderLine(n)]);
  }

  lemma StreamHeader(n: nat)
    requires n <= MAX_INT64
    ensures ContentLength(Ascii(HeaderLine(n)) + [CR, LF]) == Got(n)
  {
    hide LengthInLines, HeaderLine;
    HeaderChars(n);
    var line := HeaderLine(n) + "\r";
    assert Chars(Ascii(HeaderLine(n)) + [CR, LF]) == line + "\n";
    assert Join([line, ""], '\n') == line + "\n";
    SplitJoin([line, ""], '\n');
    HeaderLength(n, [line, ""]);
  }

  // ---------- one frame ----------

  lemma NextFrameReads(body: Bytes, rest: Bytes)
    requires |body| <= MAX_BODY
    ensures NextFrame(Frame(body) + rest) == Got((body, rest))
  {
    hide ContentLength, HeaderLine, Index;
    var n := |body|;
    var header := Ascii(HeaderLine(n));
    var input := Frame(body) + rest;
    HeaderChars(n);
    assert input == header + CRLF2 + (body + rest);
    IndexAfter(header, CRLF2, body + rest);
    assert input[..|header|] == header;
    BatchHeader(n);
    assert input[|header| + 4..] == body + rest;
    assert input[|header| + 4..|header| + 4 + n] == body && input[|header| + 4 + n..] == rest;
  }

  lemma LineReads(line: Bytes, rest: Bytes)
    requires LF !in line
    ensures ReadLine(line + [LF] + rest) == Some((line + [LF], rest))
  {
    hide Index;
    IndexAfter(line, [LF], rest);
    var s := line + [LF] + rest;
    assert s[..|line| + 1] == line + [LF] && s[|line| + 1..] == rest;
  }

  lemma HeaderLineIsNotBlank(header: Bytes)
    requires header != [] && !IsSpaceByte(header[0])
    ensures TrimBytes(header + [CR, LF]) != []
    ensures !IsBlankLine(header + [CR, LF])
  {
    var s := header + [CR, LF];
    assert s[..|s| - 1] == header + [CR];
    assert (header + [CR])[..|header|] == header;
    assert s[0] == header[0];
    TrimIsPrefix(s);
  }

  lemma ReadHeaderReads(n: nat, rest: Bytes)
    requires |Ascii(HeaderLine(n))| + 2 <= MAX_BODY
    ensures ReadHeader(Ascii(HeaderLine(n)) + CRLF2 + rest, [])
            == Next((Ascii(HeaderLine(n)) + [CR, LF], rest))
  {
    hide ReadLine, TrimBytes;
    var header := Ascii(HeaderLine(n));
    HeaderChars(n);
    assert header[0] == 67;
    var line := header + [CR, LF];
    var s := header + CRLF2 + rest;
    assert s == (header + [CR]) + [LF] + ([CR, LF] + rest);
    LineReads(header + [CR], [CR, LF] + rest);
    assert line == (header + [CR]) + [LF];
    HeaderLineIsNotBlank(header);
    assert [CR, LF] + rest == [CR] + [LF] + rest;
    LineReads([CR], rest);
    assert [] + line == line;
    assert ReadHeader([CR, LF] + rest, line) == Next((line, rest));
  }

  lemma {:induction false} ItoaShort(n: nat, k: nat)
    requires n < Pow10(k) && k > 0
    ensures |Itoa(n)| <= k
  {
    if n < 10 {
    } else {
      assert k > 1;
      ItoaShort(n / 10, k - 1);
    }
  }

  function Pow10(k: nat): nat {
    if k == 0 then 1 else 10 * Pow10(k - 1)
  }

  lemma NextStreamedReads(body: Bytes, rest: Bytes)
    requires |body| <= MAX_BODY
    ensures NextStreamed(Frame(body) + rest) == Next((body, rest))
  {
    hide ContentLength, ReadHeader;
    var n := |body|;
    assert Pow10(6) == 1000000;
    ItoaShort(n, 6);
    assert |HeaderLine(n)| <= 22;
    assert Frame(body) + rest == Ascii(HeaderLine(n)) + CRLF2 + (body + rest);
    ReadHeaderReads(n, body + rest);
    StreamHeader(n);
    assert (body + rest)[..n] == body && (body + rest)[n..] == rest;
  }

  // ---------- whole outputs ----------

  lemma {:induction false} PrintedKept(bodies: seq<Bytes>)
    ensures Printed(bodies) == Printed(Kept(bodies))
  {
    hide Frame;
    if bodies == [] {
    } else {
      var k := Kept(bodies[1..]);
      PrintedKept(bodies[1..]);
      if |bodies[0]| <= MAX_BODY {
        assert Kept(bodies) == [bodies[0]] + k && ([bodies[0]] + k)[1..] == k;
      } else {
        assert Kept(bodies) == k;
      }
    }
  }

  /** Exactly the bodies that fit are kept. */
  lemma {:induction false} KeptMembers(bodies: seq<Bytes>, b: Bytes)
    ensures b in Kept(bodies) <==> b in bodies && |b| <= MAX_BODY
  {
    if bodies == [] {
    } else {
      KeptMembers(bodies[1..], b);
      assert bodies == [bodies[0]] + bodies[1..];
    }
  }

  lemma KeptAreFine(bodies: seq<Bytes>)
    ensures Fits(Kept(bodies))
    ensures forall b :: b in Kept(bodies) ==> b in bodies
  {
    hide Kept;
    var k := Kept(bodies);
    forall b
      ensures b in k <==> b in bodies && |b| <= MAX_BODY
    {
      KeptMembers(bodies, b);
    }
    assert forall i :: 0 <= i < |k| ==> k[i] in k;
  }

  /** Text that starts with something other than white space is only trimmed at the end. */
  lemma {:induction false} TrimIsPrefix(s: Bytes)
    requires s != [] && !IsSpaceByte(s[0])
    ensures TrimBytes(s) != [] && TrimBytes(s) <= s && EndsSolid(TrimBytes(s))
    ensures TrimBytes(TrimBytes(s)) == TrimBytes(s)
    decreases |s|
  {
    if !IsSpaceByte(s[|s| - 1]) {
    } else {
      TrimIsPrefix(s[..|s| - 1]);
    }
  }

  lemma {:induction false} TrimAppend(x: Bytes, y: Bytes)
    requires x != [] && !IsSpaceByte(x[0])
    requires y != [] && !IsSpaceByte(y[0])
    ensures TrimBytes(x + y) == x + TrimBytes(y)
    decreases |y|
  {
    var s := x + y;
    assert s[|s| - 1] == y[|y| - 1] && s[0] == x[0];
    if !IsSpaceByte(y[|y| - 1]) {
    } else {
      assert |y| > 1;
      assert s[..|s| - 1] == x + y[..|y| - 1];
      TrimAppend(x, y[..|y| - 1]);
    }
  }

  lemma FrameShape(body: Bytes)
    ensures var header := Ascii(HeaderLine(|body|));
      && Frame(body) == header + CRLF2 + body && header != [] && !IsSpaceByte(header[0])
      && Frame(body)[0] == header[0]
      && (EndsSolid(Frame(body)) <==> EndsSolid(body))
  {
    var header := Ascii(HeaderLine(|body|));
    assert header[0] == 67;
    assert body != [] ==> Frame(body)[|Frame(body)| - 1] == body[|body| - 1];
  }

  lemma PrintedStarts(bodies: seq<Bytes>)
    requires bodies != [] && Fits(bodies)
    ensures Printed(bodies) == Frame(bodies[0]) + Printed(bodies[1..])
    ensures Printed(bodies) != [] && !IsSpaceByte(Printed(bodies)[0])
  {
    FrameShape(bodies[0]);
  }

  lemma {:induction false} IndexNone(bs: Bytes, pat: Bytes)
    requires pat != [] && pat[0] !in bs
    ensures Index(bs, pat) < 0
  {
    if |bs| < |pat| {
    } else {
      assert bs[0] in bs;
      assert forall b :: b in bs[1..] ==> b in bs;
      IndexNone(bs[1..], pat);
    }
  }

  /** A frame that lost its end does not parse. */
  lemma CutFrameFails(body: Bytes, t: Bytes)
    requires |body| <= MAX_BODY && t < Frame(body) && EndsSolid(t)
    ensures NextFrame(t).Failed?
  {
    hide ContentLength, HeaderLine, Index;
    var n := |body|;
    var header := Ascii(HeaderLine(n));
    HeaderChars(n);
    BatchHeader(n);
    if |t| > |header| + 4 {
      var part := t[|header| + 4..];
      assert t == header + CRLF2 + part;
      IndexAfter(header, CRLF2, part);
      assert t[..|header|] == header;
    } else {
      assert t == Frame(body)[..|t|];
      var f := Frame(body);
      assert f[|header|] == 13 && f[|header| + 1] == 10 && f[|header| + 2] == 13 && f[|header| + 3] == 10;
      assert |t| <= |header|;
      assert t == header[..|t|];
      assert forall b :: b in t ==> b in header;
      IndexNone(t, CRLF2);
      IndexNone(t, LF2);
    }
  }

  /** The last body decides whether the trimmed output still parses. */
  lemma {:induction false} BatchReads(bodies: seq<Bytes>, accepts: Bytes -> bool)
    requires Fits(bodies) && forall b :: b in bodies ==> accepts(b)
    ensures LastIsSolid(bodies) ==> ParseAll(TrimBytes(Printed(bodies)), accepts) == Got(bodies)
    ensures !LastIsSolid(bodies) ==> ParseAll(TrimBytes(Printed(bodies)), accepts).Failed?
  {
    hide NextFrame, Frame, TrimBytes, IsSpaceByte;
    if bodies == [] {
      EmptyTrim();
    } else {
      var body, rest := bodies[0], bodies[1..];
      PrintedStarts(bodies);
      FrameShape(body);
      assert body in bodies;
      if rest == [] {
        assert Printed(bodies) == Frame(body);
        SingleReads(body, accepts);
        assert bodies == [body];
      } else {
        assert forall b :: b in rest ==> b in bodies;
        assert rest[|rest| - 1] == bodies[|bodies| - 1];
        BatchReads(rest, accepts);
        PrintedStarts(rest);
        TrimAppend(Frame(body), Printed(rest));
        TrimIsPrefix(Printed(rest));
        NextFrameReads(body, TrimBytes(Printed(rest)));
        assert [body] + rest == bodies;
      }
    }
  }

  lemma EmptyTrim()
    ensures TrimBytes([]) == []
  {
  }

  lemma SolidTrim(s: Bytes)
    requires EndsSolid(s) && !IsSpaceByte(s[0])
    ensures TrimBytes(s) == s
  {
  }

  lemma SingleReads(body: Bytes, accepts: Bytes -> bool)
    requires |body| <= MAX_BODY && accepts(body)
    ensures EndsSolid(body) ==> ParseAll(TrimBytes(Frame(body)), accepts) == Got([body])
    ensures !EndsSolid(body) ==> ParseAll(TrimBytes(Frame(body)), accepts).Failed?
  {
    hide NextFrame, Frame, TrimBytes, IsSpaceByte;
    FrameShape(body);
    TrimIsPrefix(Frame(body));
    EmptyTrim();
    if EndsSolid(body) {
      SolidTrim(Frame(body));
      NextFrameReads(body, []);
      assert Frame(body) + [] == Frame(body) && [body] + [] == [body];
    } else {
      CutFrameFails(body, TrimBytes(Frame(body)));
    }
  }

  lemma {:induction false} StreamReadsKept(bodies: seq<Bytes>)
    requires Fits(bodies)
    ensures StreamAll(Printed(bodies)) == Got(bodies)
  {
    hide Frame, NextStreamed;
    if bodies == [] {
      EmptyStreamEnds();
    } else {
      var rest := bodies[1..];
      assert Printed(bodies) == Frame(bodies[0]) + Printed(rest);
      NextStreamedReads(bodies[0], Printed(rest));
      StreamReadsKept(rest);
      assert [bodies[0]] + rest == bodies;
    }
  }

  lemma EmptyStreamEnds()
    ensures NextStreamed([]) == Eof
  {
  }

  /** Batch parsing what was printed returns exactly the bodies that fit, in order, if and only if
      the last of them neither is empty nor ends in white space. */
  lemma BatchRoundTrip(bodies: seq<Bytes>, accepts: Bytes -> bool)
    requires forall b :: b in bodies ==> accepts(b)
    ensures ParseAll(TrimBytes(Printed(bodies)), accepts) == Got(Kept(bodies)) <==> LastIsSolid(Kept(bodies))
  {
    hide ParseAll, TrimBytes;
    PrintedKept(bodies);
    KeptAreFine(bodies);
    BatchReads(Kept(bodies), accepts);
  }

  /** The stream parser returns them whatever they are. */
  lemma StreamRoundTrip(bodies: seq<Bytes>)
    ensures StreamAll(Printed(bodies)) == Got(Kept(bodies))
  {
    hide StreamAll;
    PrintedKept(bodies);
    KeptAreFine(bodies);
    StreamReadsKept(Kept(bodies));
  }

  /** So on printed output the two parsers agree exactly then. */
  lemma ParsersAgree(bodies: seq<Bytes>, accepts: Bytes -> bool)
    requires forall b :: b in bodies ==> accepts(b)
    ensures ParseAll(TrimBytes(Printed(bodies)), accepts) == StreamAll(Printed(bodies))
            <==> LastIsSolid(Kept(bodies))
  {
    hide ParseAll, StreamAll, TrimBytes;
    BatchRoundTrip(bodies, accepts);
    StreamRoundTrip(bodies);
  }
}
