/** Lossless key encoding: UTF-8, then unpadded URL-safe base64 (section 5 of RFC 4648). */
module Encoding {
  import opened Records
  import opened Text

  type Byte = n: int | 0 <= n < 256

  // ---------- UTF-8 ----------

  function Utf8Char(c: char): (bs: seq<Byte>)
    ensures 1 <= |bs| <= 4
  {
    var n := c as int;
    if n < 0x80 then [n]
    else if n < 0x800 then [0xC0 + n / 0x40, 0x80 + n % 0x40]
    else if n < 0x10000 then [0xE0 + n / 0x1000, 0x80 + n / 0x40 % 0x40, 0x80 + n % 0x40]
    else [0xF0 + n / 0x40000, 0x80 + n / 0x1000 % 0x40, 0x80 + n / 0x40 % 0x40, 0x80 + n % 0x40]
  }

  function Utf8(s: string): seq<Byte> {
    if s == "" then [] else Utf8Char(s[0]) + Utf8(s[1..])
  }

  /** The first byte tells how many bytes a character takes, and they tell the character. */
  lemma Utf8CharPrefixFree(c: char, d: char, x: seq<Byte>, y: seq<Byte>)
    requires Utf8Char(c) + x == Utf8Char(d) + y
    ensures c == d && x == y
  {
    var s := Utf8Char(c) + x;
    assert s[0] == Utf8Char(c)[0] == Utf8Char(d)[0];
    assert |Utf8Char(c)| == |Utf8Char(d)|;
    assert Utf8Char(c) == s[..|Utf8Char(c)|] == Utf8Char(d);
    assert x == s[|Utf8Char(c)|..] == y;
    Utf8RoundTrip(c);
    Utf8RoundTrip(d);
  }

  /** The number the bytes of one character stand for. */
  function Utf8Value(bs: seq<Byte>): int
    requires 1 <= |bs| <= 4
  {
    if |bs| == 1 then bs[0]
    else if |bs| == 2 then (bs[0] as int - 0xC0) * 0x40 + (bs[1] as int - 0x80)
    else if |bs| == 3 then (bs[0] as int - 0xE0) * 0x1000 + (bs[1] as int - 0x80) * 0x40 + (bs[2] as int - 0x80)
    else (bs[0] as int - 0xF0) * 0x40000 + (bs[1] as int - 0x80) * 0x1000 + (bs[2] as int - 0x80) * 0x40
         + (bs[3] as int - 0x80)
  }

  lemma Utf8RoundTrip(c: char)
    ensures Utf8Value(Utf8Char(c)) == c as int
  {
    var n := c as int;
    assert n == n / 0x40 * 0x40 + n % 0x40;
    assert n / 0x40 == n / 0x40 / 0x40 * 0x40 + n / 0x40 % 0x40 && n / 0x40 / 0x40 == n / 0x1000;
    assert n / 0x1000 == n / 0x1000 / 0x40 * 0x40 + n / 0x1000 % 0x40 && n / 0x1000 / 0x40 == n / 0x40000;
  }

  lemma {:induction false} Utf8Injective(s: string, t: string)
    requires Utf8(s) == Utf8(t)
    ensures s == t
  {
    if s == "" || t == "" {
    } else {
      Utf8CharPrefixFree(s[0], t[0], Utf8(s[1..]), Utf8(t[1..]));
      Utf8Injective(s[1..], t[1..]);
    }
  }

  // ---------- base64 ----------

  type Sextet = n: int | 0 <= n < 64

  function Digit(n: Sextet): (c: char)
    ensures c != '.'
    ensures DigitValue(c) == Some(n)
  {
    if n < 26 then 'A' + n as char
    else if n < 52 then 'a' + (n - 26) as char
    else if n < 62 then '0' + (n - 52) as char
    else if n == 62 then '-'
    else '_'
  }

  function DigitValue(c: char): Option<Sextet> {
    if 'A' <= c <= 'Z' then Some(c as int - 'A' as int)
    else if 'a' <= c <= 'z' then Some(c as int - 'a' as int + 26)
    else if '0' <= c <= '9' then Some(c as int - '0' as int + 52)
    else if c == '-' then Some(62)
    else if c == '_' then Some(63)
    else None
  }

  // Three bytes as four sextets, and back.

  function Sextet1(a: Byte): Sextet { a / 4 }
  function Sextet2(a: Byte, b: Byte): Sextet { a % 4 * 16 + b / 16 }
  function Sextet3(b: Byte, c: Byte): Sextet { b % 16 * 4 + c / 64 }
  function Sextet4(c: Byte): Sextet { c % 64 }

  function Byte1(w: Sextet, x: Sextet): Byte { w * 4 + x / 16 }
  function Byte2(x: Sextet, y: Sextet): Byte { x % 16 * 16 + y / 4 }
  function Byte3(y: Sextet, z: Sextet): Byte { y % 4 * 64 + z }

  lemma Regroup(a: Byte, b: Byte, c: Byte)
    ensures Byte1(Sextet1(a), Sextet2(a, b)) == a
    ensures Byte2(Sextet2(a, b), Sextet3(b, c)) == b
    ensures Byte3(Sextet3(b, c), Sextet4(c)) == c
  {
    assert Sextet2(a, b) / 16 == a % 4 && Sextet2(a, b) % 16 == b / 16;
    assert Sextet3(b, c) / 4 == b % 16 && Sextet3(b, c) % 4 == c / 64;
  }

  function Encode(bs: seq<Byte>): (s: string)
    ensures '.' !in s
  {
    if |bs| == 0 then ""
    else if |bs| == 1 then [Digit(Sextet1(bs[0])), Digit(Sextet2(bs[0], 0))]
    else if |bs| == 2 then [Digit(Sextet1(bs[0])), Digit(Sextet2(bs[0], bs[1])), Digit(Sextet3(bs[1], 0))]
    else
      [Digit(Sextet1(bs[0])), Digit(Sextet2(bs[0], bs[1])), Digit(Sextet3(bs[1], bs[2])), Digit(Sextet4(bs[2]))]
      + Encode(bs[3..])
  }

  function Decode(s: string): Option<seq<Byte>> {
    if |s| == 0 then Some([])
    else if |s| == 1 then None
    else
      var a, b := DigitValue(s[0]), DigitValue(s[1]);
      if a.None? || b.None? then None
      else if |s| == 2 then Some([Byte1(a.value, b.value)])
      else
        var c := DigitValue(s[2]);
        if c.None? then None
        else if |s| == 3 then Some([Byte1(a.value, b.value), Byte2(b.value, c.value)])
        else
          var d, rest := DigitValue(s[3]), Decode(s[4..]);
          if d.None? || rest.None? then None
          else Some([Byte1(a.value, b.value), Byte2(b.value, c.value), Byte3(c.value, d.value)] + rest.value)
  }

  lemma {:induction false} DecodeEncode(bs: seq<Byte>)
    ensures Decode(Encode(bs)) == Some(bs)
  {
    hide Digit, DigitValue, Sextet1, Sextet2, Sextet3, Sextet4, Byte1, Byte2, Byte3;
    if |bs| == 1 {
      Regroup(bs[0], 0, 0);
      assert bs == [bs[0]];
    } else if |bs| == 2 {
      Regroup(bs[0], bs[1], 0);
      assert bs == [bs[0], bs[1]];
    } else if |bs| >= 3 {
      Regroup(bs[0], bs[1], bs[2]);
      DecodeEncode(bs[3..]);
      assert Encode(bs)[4..] == Encode(bs[3..]);
      assert bs == [bs[0], bs[1], bs[2]] + bs[3..];
    }
  }

  // ---------- keys ----------

  function KeyEnc(s: string): (k: string)
    ensures '.' !in k
  {
    Encode(Utf8(s))
  }

  lemma KeyEncInjective(s: string, t: string)
    requires KeyEnc(s) == KeyEnc(t)
    ensures s == t
  {
    DecodeEncode(Utf8(s));
    DecodeEncode(Utf8(t));
    Utf8Injective(s, t);
  }

  function ReplayCursor(source: string, cursor: string): string {
    "v1." + KeyEnc(source) + "." + KeyEnc(cursor)
  }

  /** The encoded parts have no dot, so the one between them can be found again. */
  lemma ReplayCursorInjective(source1: string, cursor1: string, source2: string, cursor2: string)
    requires ReplayCursor(source1, cursor1) == ReplayCursor(source2, cursor2)
    ensures source1 == source2 && cursor1 == cursor2
  {
    hide KeyEnc;
    var a, b := KeyEnc(source1) + "." + KeyEnc(cursor1), KeyEnc(source2) + "." + KeyEnc(cursor2);
    assert ReplayCursor(source1, cursor1) == "v1." + a && ReplayCursor(source2, cursor2) == "v1." + b;
    assert a == ("v1." + a)[3..] && b == ("v1." + b)[3..];
    CutAtDot(KeyEnc(source1), KeyEnc(cursor1), KeyEnc(source2), KeyEnc(cursor2));
    KeyEncInjective(source1, source2);
    KeyEncInjective(cursor1, cursor2);
  }

  function AcceptedKey(dedupe: string): string { "a." + KeyEnc(dedupe) }

  function SourceKey(source: string): string { "s." + KeyEnc(source) }

  function SuppressedKey(cursor: string): string { "x." + KeyEnc(cursor) }

  /** The three key families of the ledger bucket are disjoint and each is injective. */
  lemma LedgerKeysDistinct(a: string, b: string)
    ensures AcceptedKey(a) != SourceKey(b) && AcceptedKey(a) != SuppressedKey(b) && SourceKey(a) != SuppressedKey(b)
    ensures AcceptedKey(a) == AcceptedKey(b) ==> a == b
    ensures SourceKey(a) == SourceKey(b) ==> a == b
    ensures SuppressedKey(a) == SuppressedKey(b) ==> a == b
  {
    hide KeyEnc;
    assert AcceptedKey(a)[0] == 'a' && SourceKey(b)[0] == 's' && SourceKey(a)[0] == 's' && SuppressedKey(b)[0] == 'x';
    assert forall s :: KeyEnc(s) == AcceptedKey(s)[2..] == SourceKey(s)[2..] == SuppressedKey(s)[2..];
    if KeyEnc(a) == KeyEnc(b) {
      KeyEncInjective(a, b);
    }
  }

  // ---------- the encodings are the standard ones ----------

  predicate Follower(b: Byte) {
    0x80 <= b < 0xC0
  }

  /** What a byte carries beside its mark. */
  function Bits(b: Byte, mark: int): int {
    b as int - mark
  }

  /** The bytes of a character are those of UTF-8: the shortest of the four forms, a first byte that
      tells how many follow, followers from 0x80 to 0xBF, and the character's own number in their bits. */
  lemma Utf8Exactly(c: char)
    ensures var n, bs := c as int, Utf8Char(c);
      && |bs| == (if n < 128 then 1 else if n < 2048 then 2 else if n < 65536 then 3 else 4)
      && (|bs| == 1 ==> bs[0] < 0x80)
      && (|bs| == 2 ==> 0xC2 <= bs[0] < 0xE0 && Follower(bs[1]) && n == Bits(bs[0], 0xC0) * 64 + Bits(bs[1], 0x80))
      && (|bs| == 3 ==> 0xE0 <= bs[0] < 0xF0 && Follower(bs[1]) && Follower(bs[2])
                        && n == Bits(bs[0], 0xE0) * 4096 + Bits(bs[1], 0x80) * 64 + Bits(bs[2], 0x80))
      && (|bs| == 4 ==> 0xF0 <= bs[0] <= 0xF4 && Follower(bs[1]) && Follower(bs[2]) && Follower(bs[3])
                        && n == Bits(bs[0], 0xF0) * 262144 + Bits(bs[1], 0x80) * 4096 + Bits(bs[2], 0x80) * 64
                                + Bits(bs[3], 0x80))
  {
    Utf8RoundTrip(c);
  }

  /** The digits of base64url: A-Z, a-z, 0-9, the dash and the underscore, for 0 to 63. */
  lemma DigitExactly(n: Sextet)
    ensures Digit(n) as int ==
      if n < 26 then 65 + n
      else if n < 52 then 97 + n - 26
      else if n < 62 then 48 + n - 52
      else if n == 62 then 45
      else 95
  {
  }
}
