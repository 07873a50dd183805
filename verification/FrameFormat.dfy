/** What the frame parsers take any input for, read off the bytes. */
module FrameFormat {
  import opened Records
  import opened Text
  import opened Numbers
  import opened Encoding
  import opened Frames

  // ---------- finding and trimming ----------

  predicate OccursAt(bs: Bytes, pat: Bytes, i: nat) {
    i + |pat| <= |bs| && bs[i..i + |pat|] == pat
  }

  /** `pat` stands at `i` and nowhere before. */
  ghost predicate FirstAt(bs: Bytes, pat: Bytes, i: nat) {
    OccursAt(bs, pat, i) && forall j: nat :: j < i ==> !OccursAt(bs, pat, j)
  }

  ghost predicate Nowhere(bs: Bytes, pat: Bytes) {
    forall j: nat :: !OccursAt(bs, pat, j)
  }

  lemma OccursLater(bs: Bytes, pat: Bytes, j: nat)
    requires bs != [] && pat != []
    ensures OccursAt(bs, pat, 0) <==> pat <= bs
    ensures j > 0 ==> (OccursAt(bs, pat, j) <==> OccursAt(bs[1..], pat, j - 1))
  {
    if |pat| <= |bs| {
      assert bs[0..0 + |pat|] == bs[..|pat|];
    }
    if j > 0 && j + |pat| <= |bs| {
      assert bs[j..j + |pat|] == bs[1..][j - 1..j - 1 + |pat|];
    }
  }

  lemma {:induction false} IndexExactly(bs: Bytes, pat: Bytes)
    requires pat != []
    ensures Index(bs, pat) < 0 <==> Nowhere(bs, pat)
    ensures Index(bs, pat) >= 0 ==> FirstAt(bs, pat, Index(bs, pat))
    decreases |bs|
  {
    if |bs| < |pat| {
    } else {
      forall j: nat
        ensures OccursAt(bs, pat, 0) <==> pat <= bs
        ensures j > 0 ==> (OccursAt(bs, pat, j) <==> OccursAt(bs[1..], pat, j - 1))
      {
        OccursLater(bs, pat, j);
      }
      IndexExactly(bs[1..], pat);
      OccursLater(bs, pat, 0);
      hide OccursAt;
      if !(pat <= bs) && Nowhere(bs, pat) {
        forall j: nat
          ensures !OccursAt(bs[1..], pat, j)
        {
          assert OccursAt(bs, pat, j + 1) <==> OccursAt(bs[1..], pat, j + 1 - 1);
        }
      }
      if !(pat <= bs) && Index(bs[1..], pat) >= 0 {
        var i: nat := Index(bs[1..], pat);
        assert OccursAt(bs, pat, i + 1) <==> OccursAt(bs[1..], pat, i + 1 - 1);
      }
    }
  }

  lemma FirstIsOne(bs: Bytes, pat: Bytes, i: nat, j: nat)
    requires FirstAt(bs, pat, i) && FirstAt(bs, pat, j)
    ensures i == j
  {
    hide OccursAt;
  }

  predicate Space(c: char) {
    9 <= c as int <= 13 || c as int == 32
  }

  predicate AllSpace(s: string) {
    forall i :: 0 <= i < |s| ==> Space(s[i])
  }

  predicate Around(s: string, t: string, a: string, b: string) {
    AllSpace(a) && AllSpace(b) && s == a + t + b
  }

  /** `t` is `s` without white space (codes 9 to 13 and 32) at its ends. */
  ghost predicate Trimmed(s: string, t: string) {
    && (exists a, b :: Around(s, t, a, b))
    && (t != "" ==> !Space(t[0]) && !Space(t[|t| - 1]))
  }

  lemma SpacesAgree(s: string)
    ensures forall i :: 0 <= i < |s| ==> (IsSpace(s[i]) <==> Space(s[i]))
  {
    SpacesExactly();
  }

  lemma {:induction false} TrimsText(s: string) returns (a: string, b: string)
    ensures Around(s, TrimText(s), a, b) && Trimmed(s, TrimText(s))
    decreases |s|
  {
    hide IsSpace, Space;
    SpacesAgree(s);
    a, b := "", "";
    if s == "" {
    } else if IsSpace(s[0]) {
      a, b := TrimsText(s[1..]);
      a := [s[0]] + a;
      assert s == a + TrimText(s) + b;
    } else if IsSpace(s[|s| - 1]) {
      a, b := TrimsText(s[..|s| - 1]);
      b := b + [s[|s| - 1]];
      assert s == a + TrimText(s) + b;
    }
    assert s == "" + s + "";
  }

  predicate SpaceByte(b: Byte) {
    9 <= b <= 13 || b == 32
  }

  predicate AllSpaceBytes(bs: Bytes) {
    forall i :: 0 <= i < |bs| ==> SpaceByte(bs[i])
  }

  predicate AroundBytes(s: Bytes, t: Bytes, a: Bytes, b: Bytes) {
    AllSpaceBytes(a) && AllSpaceBytes(b) && s == a + t + b
  }

  ghost predicate TrimmedBytes(s: Bytes, t: Bytes) {
    && (exists a, b :: AroundBytes(s, t, a, b))
    && (t != [] ==> !SpaceByte(t[0]) && !SpaceByte(t[|t| - 1]))
  }

  lemma SpaceBytesAgree(s: Bytes)
    ensures forall i :: 0 <= i < |s| ==> (IsSpaceByte(s[i]) <==> SpaceByte(s[i]))
  {
  }

  lemma {:induction false} TrimsBytes(s: Bytes) returns (a: Bytes, b: Bytes)
    ensures AroundBytes(s, TrimBytes(s), a, b) && TrimmedBytes(s, TrimBytes(s))
    decreases |s|
  {
    hide IsSpaceByte, SpaceByte;
    SpaceBytesAgree(s);
    a, b := [], [];
    if s == [] {
    } else if IsSpaceByte(s[0]) {
      a, b := TrimsBytes(s[1..]);
      a := [s[0]] + a;
      assert s == a + TrimBytes(s) + b;
    } else if IsSpaceByte(s[|s| - 1]) {
      a, b := TrimsBytes(s[..|s| - 1]);
      b := b + [s[|s| - 1]];
      assert s == a + TrimBytes(s) + b;
    }
    assert s == [] + s + [];
  }

  // ---------- the header ----------

  /** The text of a header line: without a carriage return at its end, and trimmed. */
  function LineText(line: string): string {
    TrimText(if |line| > 0 && line[|line| - 1] as int == 13 then line[..|line| - 1] else line)
  }

  /** `name`, letter by letter, is "Content-Length" in any case. */
  predicate NamesLength(name: string) {
    var want := "content-length";
    |name| == 14 && forall i :: 0 <= i < 14 ==>
      name[i] == want[i] || (65 <= name[i] as int <= 90 && name[i] as int + 32 == want[i] as int)
  }

  /** A line that gives the length: the name, the first colon of the line, and the value text. */
  ghost predicate LengthLine(line: string, value: string) {
    exists name: string :: NamesLength(name) && ':' !in name && LineText(line) == name + ":" + value
  }

  lemma {:induction false} CutsAtFirst(s: string, a: string, b: string)
    ensures CutAt(s, ':') == Some((a, b)) <==> ':' !in a && s == a + ":" + b
  {
    if s == "" {
    } else if s[0] == ':' {
      assert s == "" + ":" + s[1..];
      assert a != "" ==> (a + ":" + b)[0] == a[0] && a[0] in a;
      assert a == "" ==> (a + ":" + b)[1..] == b;
    } else {
      CutsAtFirst(s[1..], if a == "" then a else a[1..], b);
      if a == "" {
        assert (a + ":" + b)[0] == ':';
      } else {
        assert a == [a[0]] + a[1..];
        assert (a + ":" + b)[1..] == a[1..] + ":" + b;
        if CutAt(s, ':') == Some((a, b)) {
          assert CutAt(s[1..], ':') == Some((a[1..], b));
        }
      }
    }
  }

  lemma FoldsExactly(name: string)
    ensures EqualFold(name, "Content-Length") <==> NamesLength(name)
  {
    var want := "Content-Length";
    if |name| == 14 {
      forall i | 0 <= i < 14
        ensures LowerChar(name[i]) == LowerChar(want[i])
                <==> name[i] == "content-length"[i]
                     || (65 <= name[i] as int <= 90 && name[i] as int + 32 == "content-length"[i] as int)
      {
        LowerExactly(name[i]);
        WantedLetter(i);
      }
    }
  }

  lemma WantedLetter(i: nat)
    requires i < 14
    ensures LowerChar("Content-Length"[i]) == "content-length"[i]
    ensures "content-length"[i] as int == 45 || 97 <= "content-length"[i] as int <= 122
  {
  }

  lemma LineExactly(line: string)
    ensures var cut := CutAt(TrimText(TrimCR(line)), ':');
      if cut.Some? && EqualFold(cut.value.0, "Content-Length") then
        LengthLine(line, cut.value.1) && forall v :: LengthLine(line, v) ==> v == cut.value.1
      else forall v :: !LengthLine(line, v)
  {
    hide CutAt, TrimText, EqualFold, NamesLength;
    var text := TrimText(TrimCR(line));
    assert text == LineText(line);
    forall name: string, v: string
      ensures CutAt(text, ':') == Some((name, v)) <==> ':' !in name && text == name + ":" + v
      ensures EqualFold(name, "Content-Length") <==> NamesLength(name)
    {
      CutsAtFirst(text, name, v);
      FoldsExactly(name);
    }
    if CutAt(text, ':').Some? {
      var (name, v) := CutAt(text, ':').value;
      assert CutAt(text, ':') == Some((name, v));
    }
  }

  /** The first line that gives a length decides; its value, trimmed, must be a decimal number. */
  ghost predicate Declares(lines: seq<string>, k: nat, value: string) {
    && k < |lines| && LengthLine(lines[k], value)
    && forall j :: 0 <= j < k ==> forall v :: !LengthLine(lines[j], v)
  }

  lemma {:induction false} LengthExactly(lines: seq<string>)
    ensures LengthInLines(lines) == Failed(LengthMissing) <==> forall k: nat, v :: !Declares(lines, k, v)
    ensures forall k: nat, v :: Declares(lines, k, v) ==>
      LengthInLines(lines) == match Atoi(TrimText(v))
                              case None => Failed(LengthInvalid)
                              case Some(n) => if n >= 0 then Got(n) else Failed(LengthInvalid)
  {
    hide CutAt, TrimText, EqualFold, LengthLine, Atoi, TrimCR;
    if lines == [] {
    } else {
      LineExactly(lines[0]);
      LengthExactly(lines[1..]);
      var cut := CutAt(TrimText(TrimCR(lines[0])), ':');
      if cut.Some? && EqualFold(cut.value.0, "Content-Length") {
        assert Declares(lines, 0, cut.value.1);
      } else {
        forall k: nat, v
          ensures Declares(lines, k, v) <==> k > 0 && Declares(lines[1..], k - 1, v)
        {
          DeclaresTail(lines, k, v);
        }
        if k: nat, v :| Declares(lines[1..], k, v) {
          assert Declares(lines, k + 1, v);
        }
      }
    }
  }

  lemma DeclaresTail(lines: seq<string>, k: nat, v: string)
    requires lines != [] && forall u :: !LengthLine(lines[0], u)
    ensures Declares(lines, k, v) <==> k > 0 && Declares(lines[1..], k - 1, v)
  {
    hide LengthLine;
    if k > 0 && k < |lines| {
      assert lines[1..][k - 1] == lines[k];
      assert forall j :: 1 <= j < k ==> lines[1..][j - 1] == lines[j];
    }
  }

  // ---------- one frame of a complete output ----------

  /** The header ends at the first CR LF CR LF, or without one at the first LF LF. */
  ghost predicate HeaderEnds(input: Bytes, at: nat, step: nat) {
    || (step == 4 && FirstAt(input, [13, 10, 13, 10], at))
    || (step == 2 && Nowhere(input, [13, 10, 13, 10]) && FirstAt(input, [10, 10], at))
  }

  /** A frame is read exactly where a header ends that gives a length of at most 262144 bytes, and that
      many bytes follow: they are its body. Otherwise the error names what is missing, in this order. */
  lemma FrameExactly(input: Bytes, at: nat, step: nat)
    requires HeaderEnds(input, at, step)
    ensures var n := ContentLength(input[..at]);
      NextFrame(input) ==
        if n.Failed? then Failed(n.error)
        else if |input| < at + step + n.value then Failed(BodyIncomplete)
        else if n.value > 262144 then Failed(BodyTooLong)
        else Got((input[at + step..at + step + n.value], input[at + step + n.value..]))
  {
    hide Index, ContentLength, FirstAt, Nowhere;
    EndsFound(input, at, step);
  }

  lemma EndsFound(input: Bytes, at: nat, step: nat)
    requires HeaderEnds(input, at, step)
    ensures step == 4 ==> Index(input, CRLF2) == at
    ensures step == 2 ==> Index(input, CRLF2) < 0 && Index(input, LF2) == at
  {
    hide Index;
    IndexExactly(input, CRLF2);
    IndexExactly(input, LF2);
    if step == 4 {
      FirstIsOne(input, CRLF2, at, Index(input, CRLF2));
    } else {
      FirstIsOne(input, LF2, at, Index(input, LF2));
    }
  }

  lemma NoHeaderExactly(input: Bytes)
    ensures (forall at: nat, step: nat :: !HeaderEnds(input, at, step)) <==>
      Nowhere(input, [13, 10, 13, 10]) && Nowhere(input, [10, 10])
    ensures Nowhere(input, [13, 10, 13, 10]) && Nowhere(input, [10, 10]) ==> NextFrame(input) == Failed(HeaderMissing)
  {
    hide Index, ContentLength, FirstAt, Nowhere;
    IndexExactly(input, CRLF2);
    IndexExactly(input, LF2);
    NoneFirst(input);
    if Index(input, CRLF2) >= 0 {
      assert HeaderEnds(input, Index(input, CRLF2), 4);
    } else if Index(input, LF2) >= 0 {
      assert HeaderEnds(input, Index(input, LF2), 2);
    }
  }

  lemma NoneFirst(bs: Bytes)
    ensures forall pat: Bytes, i: nat :: Nowhere(bs, pat) ==> !FirstAt(bs, pat, i)
  {
    hide OccursAt;
  }

  // ---------- one frame of a stream ----------

  /** Through the first line feed. */
  predicate IsLine(line: Bytes) {
    |line| > 0 && line[|line| - 1] == 10 && forall i :: 0 <= i < |line| - 1 ==> line[i] != 10
  }

  lemma LineRead(line: Bytes, rest: Bytes)
    requires IsLine(line)
    ensures ReadLine(line + rest) == Some((line, rest))
  {
    hide Index;
    var bs := line + rest;
    IndexExactly(bs, [LF]);
    var at := |line| - 1;
    assert bs[at..at + 1] == [10];
    forall j: nat | j < at
      ensures !OccursAt(bs, [LF], j)
    {
      assert bs[j..j + 1][0] == line[j];
    }
    assert OccursAt(bs, [LF], at);
    FirstIsOne(bs, [LF], at, Index(bs, [LF]));
    assert bs[..at + 1] == line && bs[at + 1..] == rest;
  }

  lemma NoLine(bs: Bytes)
    requires forall i :: 0 <= i < |bs| ==> bs[i] != 10
    ensures ReadLine(bs).None?
  {
    hide Index;
    IndexExactly(bs, [LF]);
    forall j: nat
      ensures !OccursAt(bs, [LF], j)
    {
      if j + 1 <= |bs| {
        assert bs[j..j + 1][0] == bs[j];
      }
    }
  }

  function Flat(lines: seq<Bytes>): Bytes {
    if lines == [] then [] else lines[0] + Flat(lines[1..])
  }

  /** White lines, header lines of which the first is not white and none is empty, an empty line. */
  ghost predicate HeaderBlock(white: seq<Bytes>, header: seq<Bytes>, end: Bytes) {
    && (forall i :: 0 <= i < |white| ==> IsLine(white[i]) && AllSpaceBytes(white[i]))
    && header != [] && !AllSpaceBytes(header[0])
    && (forall i :: 0 <= i < |header| ==> IsLine(header[i]) && header[i] != [10] && header[i] != [13, 10])
    && (end == [10] || end == [13, 10])
  }

  lemma WhiteTrims(line: Bytes)
    ensures TrimBytes(line) == [] <==> AllSpaceBytes(line)
  {
    var a, b := TrimsBytes(line);
    var t := TrimBytes(line);
    if t == [] {
      assert line == a + b;
    } else {
      assert line[|a|] == t[0];
    }
  }

  lemma {:induction false} HeaderRest(header: seq<Bytes>, end: Bytes, rest: Bytes, done: Bytes)
    requires done != [] && (end == [10] || end == [13, 10])
    requires forall i :: 0 <= i < |header| ==> IsLine(header[i]) && header[i] != [10] && header[i] != [13, 10]
    requires |done + Flat(header)| <= 262144
    ensures ReadHeader(Flat(header) + end + rest, done) == Next((done + Flat(header), rest))
    decreases |header|
  {
    hide ReadLine, TrimBytes;
    if header == [] {
      assert Flat(header) + end + rest == end + rest && done + Flat(header) == done;
      LineRead(end, rest);
    } else {
      var line, more := header[0], header[1..];
      assert Flat(header) + end + rest == line + (Flat(more) + end + rest);
      LineRead(line, Flat(more) + end + rest);
      assert done + Flat(header) == done + line + Flat(more);
      HeaderRest(more, end, rest, done + line);
    }
  }

  lemma {:induction false} HeaderRead(white: seq<Bytes>, header: seq<Bytes>, end: Bytes, rest: Bytes)
    requires HeaderBlock(white, header, end) && |Flat(header)| <= 262144
    ensures ReadHeader(Flat(white) + (Flat(header) + end + rest), []) == Next((Flat(header), rest))
    decreases |white|
  {
    hide ReadLine, TrimBytes, AllSpaceBytes;
    if white == [] {
      var line, more := header[0], header[1..];
      assert Flat(white) + (Flat(header) + end + rest) == line + (Flat(more) + end + rest);
      LineRead(line, Flat(more) + end + rest);
      WhiteTrims(line);
      assert [] + line == line && Flat(header) == line + Flat(more);
      HeaderRest(more, end, rest, line);
    } else {
      var tail := Flat(header) + end + rest;
      assert Flat(white) + tail == white[0] + (Flat(white[1..]) + tail);
      LineRead(white[0], Flat(white[1..]) + tail);
      WhiteTrims(white[0]);
      HeaderRead(white[1..], header, end, rest);
    }
  }

  /** From a stream, a frame is white lines, header lines, an empty line, and as many bytes as the header
      says: they are its body, and reading goes on right behind them. */
  lemma StreamedExactly(white: seq<Bytes>, header: seq<Bytes>, end: Bytes, rest: Bytes)
    requires HeaderBlock(white, header, end) && |Flat(header)| <= 262144
    ensures var n := ContentLength(Flat(header));
      NextStreamed(Flat(white) + (Flat(header) + end + rest)) ==
        if n.Failed? then Broken(n.error)
        else if n.value > 262144 then Broken(BodyTooLong)
        else if |rest| < n.value then Broken(BodyIncomplete)
        else Next((rest[..n.value], rest[n.value..]))
  {
    hide ReadHeader, ContentLength;
    HeaderRead(white, header, end, rest);
  }

  /** A stream that ends between frames, white lines aside, ends cleanly; one that ends in a line does not. */
  lemma {:induction false} StreamEnds(white: seq<Bytes>, last: Bytes)
    requires forall i :: 0 <= i < |white| ==> IsLine(white[i]) && AllSpaceBytes(white[i])
    requires forall i :: 0 <= i < |last| ==> last[i] != 10
    ensures NextStreamed(Flat(white) + last) == if last == [] then Eof else Broken(HeaderIncomplete)
    decreases |white|
  {
    hide ReadLine, TrimBytes, AllSpaceBytes;
    if white == [] {
      assert Flat(white) + last == last;
      NoLine(last);
    } else {
      assert Flat(white) + last == white[0] + (Flat(white[1..]) + last);
      LineRead(white[0], Flat(white[1..]) + last);
      WhiteTrims(white[0]);
      StreamEnds(white[1..], last);
    }
  }
}
