/** Splitting and joining text at a separator. */
module Text {
  import opened Records

  /** The pieces of `s` between occurrences of `sep`; always at least one. */
  function Split(s: string, sep: char): (parts: seq<string>)
    ensures |parts| >= 1
    ensures forall i :: 0 <= i < |parts| ==> sep !in parts[i]
    ensures Join(parts, sep) == s
  {
    if s == "" then [""]
    else
      var rest := Split(s[1..], sep);
      if s[0] == sep then [""] + rest
      else
        JoinHead(s[0], rest, sep);
        [[s[0]] + rest[0]] + rest[1..]
  }

  function Join(parts: seq<string>, sep: char): string
    requires |parts| >= 1
  {
    if |parts| == 1 then parts[0] else parts[0] + [sep] + Join(parts[1..], sep)
  }

  lemma JoinHead(c: char, parts: seq<string>, sep: char)
    requires |parts| >= 1
    ensures Join([[c] + parts[0]] + parts[1..], sep) == [c] + Join(parts, sep)
  {
    if |parts| > 1 {
      assert ([[c] + parts[0]] + parts[1..])[1..] == parts[1..];
    }
  }

  /** Splitting undoes joining pieces that do not contain the separator. */
  lemma {:induction false} SplitJoin(parts: seq<string>, sep: char)
    requires |parts| >= 1 && forall i :: 0 <= i < |parts| ==> sep !in parts[i]
    ensures Split(Join(parts, sep), sep) == parts
    decreases |parts|, |parts[0]|
  {
    var s := Join(parts, sep);
    if parts[0] == "" {
      if |parts| > 1 {
        SplitJoin(parts[1..], sep);
        assert s[1..] == Join(parts[1..], sep);
      }
    } else {
      var tail := [parts[0][1..]] + parts[1..];
      assert [parts[0][0]] + tail[0] == parts[0] && tail[1..] == parts[1..];
      assert parts == [parts[0]] + parts[1..];
      JoinHead(parts[0][0], tail, sep);
      assert parts[0][0] in parts[0];
      assert s[1..] == Join(tail, sep);
      assert forall c :: c in parts[0][1..] ==> c in parts[0];
      SplitJoin(tail, sep);
    }
  }

  /** The text before the first dot is determined by the whole text. */
  lemma CutAtDot(a: string, x: string, b: string, y: string)
    requires '.' !in a && '.' !in b
    requires a + "." + x == b + "." + y
    ensures a == b && x == y
  {
    var s := a + "." + x;
    assert s[|a|] == '.' && s[|b|] == '.';
    assert forall i :: 0 <= i < |a| ==> s[i] == a[i] && a[i] in a;
    assert forall i :: 0 <= i < |b| ==> s[i] == b[i] && b[i] in b;
    assert |a| == |b|;
    assert a == s[..|a|] && b == s[..|b|];
    assert x == s[|a| + 1..] && y == s[|b| + 1..];
  }

  /** The text before and after the first `sep`. */
  function CutAt(s: string, sep: char): Option<(string, string)> {
    if s == "" then None
    else if s[0] == sep then Some(("", s[1..]))
    else
      match CutAt(s[1..], sep)
      case None => None
      case Some((a, b)) => Some(([s[0]] + a, b))
  }

  predicate Contains(s: string, word: string) {
    exists i :: 0 <= i <= |s| && word <= s[i..]
  }

  predicate IsSpace(c: char) { c in " \t\n\r\U{0B}\U{0C}" }

  predicate IsBlank(s: string) {
    forall c :: c in s ==> IsSpace(c)
  }

  /** Lower-case letters, digits and dashes, at least one. */
  predicate ValidToken(s: string) {
    s != "" && forall c :: c in s ==> 'a' <= c <= 'z' || '0' <= c <= '9' || c == '-'
  }

  function LowerChar(c: char): char {
    if 'A' <= c <= 'Z' then (c as int + 32) as char else c
  }

  // ---------- characters, by their codes ----------

  /** Tokens are made of a-z (97 to 122), 0-9 (48 to 57) and the dash (45), and are not empty. */
  lemma TokenExactly(s: string)
    ensures ValidToken(s) <==>
      |s| > 0 && forall i :: 0 <= i < |s| ==>
        97 <= s[i] as int <= 122 || 48 <= s[i] as int <= 57 || s[i] as int == 45
  {
    if ValidToken(s) {
      assert forall i :: 0 <= i < |s| ==> s[i] in s;
    }
  }

  /** A-Z (65 to 90) go to a-z, everything else stays. */
  lemma LowerExactly(c: char)
    ensures LowerChar(c) as int == if 65 <= c as int <= 90 then c as int + 32 else c as int
  {
  }

  /** Blank text is made of the six white-space characters of ASCII: 9 to 13, and 32. */
  lemma BlankExactly(s: string)
    ensures IsBlank(s) <==> forall i :: 0 <= i < |s| ==> 9 <= s[i] as int <= 13 || s[i] as int == 32
  {
    SpacesExactly();
    if IsBlank(s) {
      assert forall i :: 0 <= i < |s| ==> s[i] in s;
    }
  }

  lemma SpacesExactly()
    ensures forall c: char :: IsSpace(c) <==> 9 <= c as int <= 13 || c as int == 32
  {
  }
}
