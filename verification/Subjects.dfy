/** Subject patterns: dot-separated tokens, where `*` stands for one token and a final `>` for one or
    more. The matcher is also run on two patterns; this module says exactly what that decides. */
module Subjects {
  import opened Text

  function Tokens(subject: string): (ts: seq<string>)
    ensures |ts| >= 1
    ensures forall i :: 0 <= i < |ts| ==> '.' !in ts[i]
  {
    Split(subject, '.')
  }

  predicate TokenMatches(p: string, t: string) {
    p == "*" || p == t
  }

  /** The index of the first `>`, or the length when there is none. */
  function TailAt(ps: seq<string>): (g: nat)
    ensures g <= |ps| && (g < |ps| ==> ps[g] == ">")
    ensures forall i :: 0 <= i < g ==> ps[i] != ">"
  {
    if ps == [] || ps[0] == ">" then 0 else 1 + TailAt(ps[1..])
  }

  predicate Matches(ps: seq<string>, ss: seq<string>) {
    var g := TailAt(ps);
    && (if g < |ps| then |ss| > g else |ss| == |ps|)
    && forall i :: 0 <= i < g ==> TokenMatches(ps[i], ss[i])
  }

  predicate SubjectMatches(pattern: string, subject: string) {
    Matches(Tokens(pattern), Tokens(subject))
  }

  /** The matcher's loop. */
  method MatchSubject(pattern: string, subject: string) returns (r: bool)
    ensures r == SubjectMatches(pattern, subject)
  {
    hide Tokens, TailAt, Split;
    var pp, ss := Tokens(pattern), Tokens(subject);
    var i, j := 0, 0;
    while i < |pp|
      invariant i == j <= |pp| && i <= TailAt(pp) && i <= |ss|
      invariant forall k :: 0 <= k < i ==> TokenMatches(pp[k], ss[k])
    {
      var token := pp[i];
      if token == ">" {
        return |ss| > j;
      }
      if j >= |ss| {
        return false;
      }
      if token != "*" && token != ss[j] {
        return false;
      }
      i, j := i + 1, j + 1;
    }
    return |pp| == |ss|;
  }

  predicate ConcreteToken(t: string) {
    t != "" && '*' !in t && '>' !in t && '.' !in t
  }

  predicate AllConcrete(ss: seq<string>) {
    forall i :: 0 <= i < |ss| ==> ConcreteToken(ss[i])
  }

  /** A subject messages are actually published on. */
  predicate Concrete(subject: string) {
    AllConcrete(Tokens(subject))
  }

  /** Every message `q` matches is matched by `p`. */
  ghost predicate Includes(p: string, q: string) {
    forall s :: Concrete(s) && SubjectMatches(q, s) ==> SubjectMatches(p, s)
  }

  predicate HasTail(q: string) {
    ">" in Tokens(q)
  }

  // ---------- validity ----------

  predicate IsWild(t: string) {
    t == "*" || t == ">"
  }

  predicate ValidTokenAt(ts: seq<string>, i: nat)
    requires i < |ts|
  {
    && ts[i] != ""
    && ('*' in ts[i] || '>' in ts[i] ==> IsWild(ts[i]))
    && (ts[i] == ">" ==> i == |ts| - 1)
    && (IsWild(ts[i]) ==> i >= 2)
  }

  /** The pattern rules common to the Go and the TypeScript side. */
  predicate ValidPattern(subject: string) {
    var ts := Tokens(subject);
    forall i :: 0 <= i < |ts| ==> ValidTokenAt(ts, i)
  }

  predicate ValidSubject(subject: string) {
    subject != "" && '<' !in subject && '{' !in subject && ValidPattern(subject)
  }

  /** The validator's loop. */
  method IsValidSubjectPattern(subject: string) returns (r: bool)
    ensures r == ValidPattern(subject)
  {
    var ts := Tokens(subject);
    for i := 0 to |ts|
      invariant forall k :: 0 <= k < i ==> ValidTokenAt(ts, k)
    {
      var wild := ts[i] == "*" || ts[i] == ">";
      assert ValidPattern(subject) ==> ValidTokenAt(ts, i);
      if ts[i] == "" || (('*' in ts[i] || '>' in ts[i]) && !wild) {
        return false;
      }
      if ts[i] == ">" && i != |ts| - 1 {
        return false;
      }
      if wild && i < 2 {
        return false;
      }
    }
    return true;
  }

  // ---------- what matching two patterns decides ----------

  /** Token matching composes: what `p` says about a pattern it says about the pattern's messages. */
  lemma MatchesComposes(ps: seq<string>, qs: seq<string>, ss: seq<string>)
    requires Matches(ps, qs) && Matches(qs, ss)
    requires TailAt(qs) < |qs| ==> TailAt(ps) <= TailAt(qs) && TailAt(ps) < |ps|
    ensures Matches(ps, ss)
  {
    var g := TailAt(ps);
    forall i | 0 <= i < g
      ensures i < |ss| && TokenMatches(ps[i], ss[i])
    {
      assert TokenMatches(ps[i], qs[i]);
      assert i < TailAt(qs) ==> TokenMatches(qs[i], ss[i]);
    }
  }

  function MaxLength(ts: seq<string>): (n: nat)
    ensures forall i :: 0 <= i < |ts| ==> |ts[i]| <= n
  {
    if ts == [] then 0
    else
      var rest := MaxLength(ts[1..]);
      if |ts[0]| > rest then |ts[0]| else rest
  }

  /** A token that occurs in none of `ts`. */
  function Fresh(ts: seq<string>): (t: string)
    ensures ConcreteToken(t) && t !in ts
  {
    seq(MaxLength(ts) + 1, _ => 'x')
  }

  /** A message of the pattern `qs`, made of `n` tokens, whose wildcards are filled with tokens the
      pattern `ps` does not mention. */
  function Sample(ps: seq<string>, qs: seq<string>, n: nat): (ss: seq<string>)
    requires TailAt(qs) <= n
    ensures |ss| == n
  {
    seq(n, i requires 0 <= i < n => if i < TailAt(qs) && qs[i] != "*" then qs[i] else Fresh(ps))
  }

  predicate SampleSize(qs: seq<string>, n: nat) {
    if TailAt(qs) < |qs| then n >= |qs| else n == |qs|
  }

  lemma SampleIsMessage(ps: seq<string>, q: string, n: nat)
    requires ValidPattern(q) && SampleSize(Tokens(q), n)
    ensures AllConcrete(Sample(ps, Tokens(q), n)) && Matches(Tokens(q), Sample(ps, Tokens(q), n))
  {
    var qs := Tokens(q);
    var ss := Sample(ps, qs, n);
    forall i | 0 <= i < n
      ensures ConcreteToken(ss[i])
    {
      if i < TailAt(qs) && qs[i] != "*" {
        assert ValidTokenAt(qs, i);
      }
    }
  }

  /** If `p` matches a sample of `q`, it matches `q` token by token. */
  lemma SampleReflects(p: string, q: string, n: nat)
    requires ValidPattern(q) && SampleSize(Tokens(q), n)
    requires Includes(p, q)
    ensures Matches(Tokens(p), Sample(Tokens(p), Tokens(q), n))
  {
    var ps, qs := Tokens(p), Tokens(q);
    var ss := Sample(ps, qs, n);
    SampleIsMessage(ps, q, n);
    assert forall i :: 0 <= i < |ss| ==> ConcreteToken(ss[i]);
    SplitJoin(ss, '.');
    var s := Join(ss, '.');
    assert Tokens(s) == ss;
    assert Concrete(s) && SubjectMatches(q, s);
  }

  lemma TailIsLast(q: string)
    requires ValidPattern(q) && HasTail(q)
    ensures TailAt(Tokens(q)) == |Tokens(q)| - 1
  {
    var qs := Tokens(q);
    assert ValidTokenAt(qs, TailAt(qs));
  }

  /** Necessity: a pattern that includes `q` matches `q` read as a subject. */
  lemma IncludedIsMatched(p: string, q: string)
    requires ValidPattern(q) && Includes(p, q)
    ensures SubjectMatches(p, q)
    ensures HasTail(q) ==> TailAt(Tokens(p)) < |Tokens(p)| && TailAt(Tokens(p)) < |Tokens(q)|
  {
    var ps, qs := Tokens(p), Tokens(q);
    SampleReflects(p, q, |qs|);
    var ss := Sample(ps, qs, |qs|);
    if HasTail(q) {
      TailIsLast(q);
      SampleReflects(p, q, |qs| + |ps|);
    }
    forall i | 0 <= i < TailAt(ps)
      ensures TokenMatches(ps[i], qs[i])
    {
      assert TokenMatches(ps[i], ss[i]);
      assert ps[i] in ps;
    }
  }

  /** For every pattern `p` and valid pattern `q`: `p` covers all of `q`'s messages exactly when the
      matcher accepts the pair and, if `q` ends in `>`, `p` has its own `>` no later than `q`'s. */
  lemma InclusionCharacterized(p: string, q: string)
    requires ValidPattern(q)
    ensures Includes(p, q) <==>
            && SubjectMatches(p, q)
            && (HasTail(q) ==> TailAt(Tokens(p)) < |Tokens(p)| && TailAt(Tokens(p)) < |Tokens(q)|)
  {
    var ps, qs := Tokens(p), Tokens(q);
    if Includes(p, q) {
      IncludedIsMatched(p, q);
    }
    if SubjectMatches(p, q) && (HasTail(q) ==> TailAt(ps) < |ps| && TailAt(ps) < |qs|) {
      if HasTail(q) {
        TailIsLast(q);
      }
      forall s | Concrete(s) && SubjectMatches(q, s)
        ensures SubjectMatches(p, s)
      {
        MatchesComposes(ps, qs, Tokens(s));
      }
    }
  }

  /** Without `>` in `q` the matcher alone is the inclusion test. */
  lemma MatcherDecidesInclusion(p: string, q: string)
    requires ValidPattern(q) && !HasTail(q)
    ensures SubjectMatches(p, q) <==> Includes(p, q)
  {
    InclusionCharacterized(p, q);
  }

  lemma SplitThree(a: string, b: string, c: string, s: string)
    requires '.' !in a && '.' !in b && '.' !in c && s == a + "." + b + "." + c
    ensures Tokens(s) == [a, b, c]
  {
    var parts := [a, b, c];
    assert parts[1..] == [b, c] && [b, c][1..] == [c];
    assert Join([b, c], '.') == b + "." + c;
    assert Join(parts, '.') == s;
    SplitJoin(parts, '.');
  }

  /** With `>` in `q` it is not: turning the final `>` into `*` gives a pattern that matches `q` but
      not all of its messages. */
  lemma MatcherMissesTail(p: string, q: string, front: seq<string>)
    requires ValidPattern(q) && ">" !in front
    requires Tokens(q) == front + [">"] && Tokens(p) == front + ["*"]
    ensures SubjectMatches(p, q) && !Includes(p, q)
  {
    var ps, qs := Tokens(p), Tokens(q);
    assert qs[|front|] == ">" && ps[|front|] == "*";
    assert forall i :: 0 <= i < |front| ==> ps[i] == front[i] && qs[i] == front[i] && front[i] in front;
    assert TailAt(ps) == |ps| && TailAt(qs) == |front|;
    InclusionCharacterized(p, q);
  }

  lemma MatcherMissesTailExample()
    ensures SubjectMatches("a.b.*", "a.b.>") && !Includes("a.b.*", "a.b.>")
  {
    hide Split, Join, Includes, SubjectMatches, TailAt, Tokens;
    SplitThree("a", "b", "*", "a.b.*");
    SplitThree("a", "b", ">", "a.b.>");
    assert ["a", "b", "*"] == ["a", "b"] + ["*"] && ["a", "b", ">"] == ["a", "b"] + [">"];
    MatcherMissesTail("a.b.*", "a.b.>", ["a", "b"]);
  }
}
