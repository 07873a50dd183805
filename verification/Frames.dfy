/** Length-prefixed frames on a script's standard output: the printer, the batch parser and the
    stream parser. Frame bodies are opaque bytes. */
module Frames {
  import opened Records
  import opened Text
  import opened Numbers
  import opened Encoding

  type Bytes = seq<Byte>

  const MAX_BODY := 262144
  const LF: Byte := 10
  const CR: Byte := 13

  datatype FrameError =
    | HeaderMissing | HeaderIncomplete | HeaderTooLong | LengthMissing | LengthInvalid
    | BodyIncomplete | BodyTooLong | Rejected

  datatype Parsed<+T> = Got(value: T) | Failed(error: FrameError)

  // ---------- bytes and text ----------

  function Chars(bs: Bytes): string {
    seq(|bs|, i requires 0 <= i < |bs| => bs[i] as char)
  }

  predicate IsAscii(s: string) {
    forall i :: 0 <= i < |s| ==> s[i] as int < 128
  }

  function Ascii(s: string): (bs: Bytes)
    requires IsAscii(s)
    ensures |bs| == |s| && Chars(bs) == s
  {
    seq(|s|, i requires 0 <= i < |s| => s[i] as int)
  }

  predicate IsSpaceByte(b: Byte) { b == 32 || 9 <= b <= 13 }

  function TrimBytes(bs: Bytes): (t: Bytes)
    ensures |t| <= |bs|
  {
    if bs == [] then []
    else if IsSpaceByte(bs[0]) then TrimBytes(bs[1..])
    else if IsSpaceByte(bs[|bs| - 1]) then TrimBytes(bs[..|bs| - 1])
    else bs
  }

  function TrimText(s: string): string {
    if s == "" then ""
    else if IsSpace(s[0]) then TrimText(s[1..])
    else if IsSpace(s[|s| - 1]) then TrimText(s[..|s| - 1])
    else s
  }

  /** The first position of `pat`, or a negative number. */
  function Index(bs: Bytes, pat: Bytes): (i: int)
    requires pat != []
    ensures i >= 0 ==> i + |pat| <= |bs| && pat <= bs[i..]
  {
    if |bs| < |pat| then -1
    else if pat <= bs then 0
    else
      var i := Index(bs[1..], pat);
      if i < 0 then -1 else i + 1
  }

  // ---------- the header ----------

  predicate EqualFold(a: string, b: string) {
    |a| == |b| && forall i :: 0 <= i < |a| ==> LowerChar(a[i]) == LowerChar(b[i])
  }

  function TrimCR(s: string): string {
    if s != "" && s[|s| - 1] == '\r' then s[..|s| - 1] else s
  }

  /** The first Content-Length line counts; other lines are skipped. */
  function LengthInLines(lines: seq<string>): Parsed<nat> {
    if lines == [] then Failed(LengthMissing)
    else
      match CutAt(TrimText(TrimCR(lines[0])), ':')
      case None => LengthInLines(lines[1..])
      case Some((name, value)) =>
        if !EqualFold(name, "Content-Length") then LengthInLines(lines[1..])
        else
          match Atoi(TrimText(value))
          case None => Failed(LengthInvalid)
          case Some(n) => if n < 0 then Failed(LengthInvalid) else Got(n)
  }

  function ContentLength(header: Bytes): Parsed<nat> {
    LengthInLines(Split(Chars(header), '\n'))
  }

  // ---------- the batch parser ----------

  const CRLF2: Bytes := [13, 10, 13, 10]
  const LF2: Bytes := [10, 10]

  /** One frame body and what follows it. */
  function NextFrame(input: Bytes): (r: Parsed<(Bytes, Bytes)>)
    ensures r.Got? ==> |r.value.1| < |input| && |r.value.0| <= MAX_BODY
  {
    var crlf := Index(input, CRLF2);
    var at := if crlf >= 0 then crlf else Index(input, LF2);
    var step := if crlf >= 0 then 4 else 2;
    if at < 0 then Failed(HeaderMissing)
    else
      match ContentLength(input[..at])
      case Failed(e) => Failed(e)
      case Got(n) =>
        var start := at + step;
        if |input| < start + n then Failed(BodyIncomplete)
        else if n > MAX_BODY then Failed(BodyTooLong)
        else Got((input[start..start + n], input[start + n..]))
  }

  /** All bodies of a complete output, from a position between frames. `accepts` stands for decoding
      one body as an effect. */
  function ParseAll(rest: Bytes, accepts: Bytes -> bool): Parsed<seq<Bytes>>
    decreases |rest|
  {
    if rest == [] then Got([])
    else
      match NextFrame(rest)
      case Failed(e) => Failed(e)
      case Got((body, next)) =>
        if !accepts(body) then Failed(Rejected)
        else
          match ParseAll(TrimBytes(next), accepts)
          case Failed(e) => Failed(e)
          case Got(bodies) => Got([body] + bodies)
  }

  function Prefixed(done: seq<Bytes>, r: Parsed<seq<Bytes>>): (p: Parsed<seq<Bytes>>)
    ensures done == [] ==> p == r
  {
    if r.Failed? then r
    else
      assert done == [] ==> done + r.value == r.value;
      Got(done + r.value)
  }

  /** The batch loop; the input left to parse shrinks in every round. */
  method ParseFrames(out: Bytes, accepts: Bytes -> bool) returns (r: Parsed<seq<Bytes>>)
    ensures r == ParseAll(TrimBytes(out), accepts)
  {
    hide TrimBytes, NextFrame;
    var rest := TrimBytes(out);
    var effects: seq<Bytes> := [];
    assert Prefixed([], ParseAll(rest, accepts)) == ParseAll(rest, accepts);
    while |rest| > 0
      invariant ParseAll(TrimBytes(out), accepts) == Prefixed(effects, ParseAll(rest, accepts))
      decreases |rest|
    {
      var frame := NextFrame(rest);
      if frame.Failed? {
        return Failed(frame.error);
      }
      var body := frame.value.0;
      rest := TrimBytes(frame.value.1);
      if !accepts(body) {
        return Failed(Rejected);
      }
      ghost var later := ParseAll(rest, accepts);
      assert later.Got? ==> effects + ([body] + later.value) == (effects + [body]) + later.value;
      effects := effects + [body];
    }
    assert effects + [] == effects;
    return Got(effects);
  }

  // ---------- the stream parser ----------

  /** Through the next line feed. */
  function ReadLine(bs: Bytes): (r: Option<(Bytes, Bytes)>)
    ensures r.Some? ==> bs == r.value.0 + r.value.1 && |r.value.0| > 0
  {
    var i := Index(bs, [LF]);
    if i < 0 then None else Some((bs[..i + 1], bs[i + 1..]))
  }

  datatype Streamed<+T> = Next(value: T) | Eof | Broken(error: FrameError)

  predicate IsBlankLine(line: Bytes) {
    line == [LF] || line == [CR, LF]
  }

  /** The header lines up to the blank line, and what follows it. Blank lines before are skipped. */
  function ReadHeader(bs: Bytes, header: Bytes): (r: Streamed<(Bytes, Bytes)>)
    ensures r.Next? ==> |r.value.1| < |bs|
    decreases |bs|
  {
    match ReadLine(bs)
    case None => if header == [] && bs == [] then Eof else Broken(HeaderIncomplete)
    case Some((line, rest)) =>
      if header == [] && TrimBytes(line) == [] then ReadHeader(rest, header)
      else if IsBlankLine(line) then Next((header, rest))
      else if |header + line| > MAX_BODY then Broken(HeaderTooLong)
      else ReadHeader(rest, header + line)
  }

  function ReadBody(header: Bytes, rest: Bytes): Streamed<(Bytes, Bytes)> {
    match ContentLength(header)
    case Failed(e) => Broken(e)
    case Got(n) =>
      if n > MAX_BODY then Broken(BodyTooLong)
      else if |rest| < n then Broken(BodyIncomplete)
      else Next((rest[..n], rest[n..]))
  }

  function NextStreamed(bs: Bytes): (r: Streamed<(Bytes, Bytes)>)
    ensures r.Next? ==> |r.value.1| < |bs|
  {
    match ReadHeader(bs, [])
    case Eof => Eof
    case Broken(e) => Broken(e)
    case Next((header, rest)) => ReadBody(header, rest)
  }

  class Reader {
    var data: Bytes
    var pos: nat

    constructor (bytes: Bytes)
      ensures Valid() && Unread() == bytes
    {
      data, pos := bytes, 0;
    }

    predicate Valid()
      reads this
    {
      pos <= |data|
    }

    function Unread(): Bytes
      requires Valid()
      reads this
    {
      data[pos..]
    }

    /** Through the next line feed; without one, all that is left and `ok` false. */
    method ReadUntilLF() returns (line: Bytes, ok: bool)
      requires Valid()
      modifies this`pos
      ensures Valid()
      ensures match ReadLine(old(Unread()))
              case None => !ok && line == old(Unread()) && Unread() == []
              case Some((l, rest)) => ok && line == l && Unread() == rest
    {
      var r := ReadLine(Unread());
      match r
      case None =>
        line, ok := Unread(), false;
        pos := |data|;
      case Some((l, rest)) =>
        line, ok := l, true;
        pos := pos + |l|;
    }

    /** The streaming parser's loop over header lines, then the body. */
    method StreamFrame() returns (r: Streamed<Bytes>)
      requires Valid()
      modifies this`pos
      ensures Valid()
      ensures match NextStreamed(old(Unread()))
              case Eof => r == Eof
              case Broken(e) => r == Broken(e)
              case Next((body, rest)) => r == Next(body) && Unread() == rest
    {
      hide ContentLength, TrimBytes, ReadLine;
      var header: Bytes := [];
      while true
        invariant Valid() && ReadHeader(Unread(), header) == ReadHeader(old(Unread()), [])
        decreases |Unread()|
      {
        var line, ok := ReadUntilLF();
        if !ok {
          return if header == [] && line == [] then Eof else Broken(HeaderIncomplete);
        }
        if header == [] && TrimBytes(line) == [] {
          continue;
        }
        if IsBlankLine(line) {
          assert ReadHeader(old(Unread()), []) == Next((header, Unread()));
          break;
        }
        header := header + line;
        if |header| > MAX_BODY {
          return Broken(HeaderTooLong);
        }
      }
      var n := ContentLength(header);
      if n.Failed? {
        return Broken(n.error);
      }
      if n.value > MAX_BODY {
        return Broken(BodyTooLong);
      }
      if |data| - pos < n.value {
        return Broken(BodyIncomplete);
      }
      assert data[pos..pos + n.value] == Unread()[..n.value];
      r := Next(data[pos..pos + n.value]);
      pos := pos + n.value;
    }
  }

  /** All frames of a stream that ends. */
  function StreamAll(bs: Bytes): Parsed<seq<Bytes>>
    decreases |bs|
  {
    match NextStreamed(bs)
    case Eof => Got([])
    case Broken(e) => Failed(e)
    case Next((body, rest)) =>
      match StreamAll(rest)
      case Failed(e) => Failed(e)
      case Got(bodies) => Got([body] + bodies)
  }

  // ---------- the printer ----------

  function HeaderLine(n: nat): (h: string)
    ensures IsAscii(h)
  {
    "Content-Length: " + Itoa(n)
  }

  function Frame(body: Bytes): Bytes {
    Ascii(HeaderLine(|body|)) + CRLF2 + body
  }

  function Printed(bodies: seq<Bytes>): Bytes {
    if bodies == [] then []
    else (if |bodies[0]| > MAX_BODY then [] else Frame(bodies[0])) + Printed(bodies[1..])
  }

  function Kept(bodies: seq<Bytes>): seq<Bytes> {
    if bodies == [] then []
    else (if |bodies[0]| > MAX_BODY then [] else [bodies[0]]) + Kept(bodies[1..])
  }

  class Stdout {
    var written: Bytes

    constructor ()
      ensures written == []
    {
      written := [];
    }

    /** Oversized bodies are skipped. */
    method EmitFrame(body: Bytes)
      modifies this
      ensures written == old(written) + Printed([body])
    {
      if |body| > MAX_BODY {
        return;
      }
      var header := Ascii(HeaderLine(|body|)) + CRLF2;
      written := written + (header + body);
      assert Printed([body]) == Frame(body) + Printed([]);
    }
  }
}
