/** For which subject rules a pattern and the messages it matches are always classified alike. */
module Namespaces {
  import opened Text
  import opened Records
  import opened Subjects
  import opened ManagedAuth

  predicate AllNamespaces(rules: seq<Rule>) {
    forall i :: 0 <= i < |rules| ==> NamespacePrefix(rules[i].prefix)
  }

  /** `inner` lies inside `outer`, is at least three tokens deep, and is one that valid subjects have. */
  predicate Nests(outer: Rule, inner: Rule) {
    outer.prefix < inner.prefix && |Tokens(inner.prefix)| >= 4 && ValidateSubject(inner.prefix + "x").None?
  }

  ghost predicate Separate(rules: seq<Rule>) {
    forall i, j :: 0 <= i < |rules| && 0 <= j < |rules| ==> !Nests(rules[i], rules[j])
  }

  predicate KeepsClass(rules: seq<Rule>, pattern: string, subject: string) {
    ClassifySubject(pattern, rules).Good? && ValidateSubject(subject).None? && SubjectMatches(pattern, subject) ==>
      ClassifySubject(subject, rules) == ClassifySubject(pattern, rules)
  }

  // ---------- prefixes and tokens ----------

  lemma PrefixTokens(prefix: string, rest: string)
    requires NamespacePrefix(prefix)
    ensures var ns := Tokens(prefix[..|prefix| - 1]);
      Tokens(prefix + rest) == ns + Tokens(rest) && |Tokens(prefix)| == |ns| + 1
    ensures var ns := Tokens(prefix[..|prefix| - 1]);
      forall i :: 0 <= i < |ns| ==> '*' !in ns[i] && '>' !in ns[i]
  {
    hide Split;
    var name := prefix[..|prefix| - 1];
    assert prefix + rest == name + "." + rest && prefix == name + "." + "";
    TokensAppend(name, rest);
    TokensAppend(name, "");
    NoTokens();
    forall i | 0 <= i < |Tokens(name)|
      ensures '*' !in Tokens(name)[i] && '>' !in Tokens(name)[i]
    {
      PieceChars(name, i);
    }
  }

  lemma NoTokens()
    ensures Tokens("") == [""]
  {
  }

  lemma SingleToken(t: string)
    requires '.' !in t
    ensures Tokens(t) == [t]
  {
    SplitJoin([t], '.');
  }

  /** Placeholders inside a common front are placeholders of both. */
  lemma PlaceholderInFront(front: string, s: string, t: string)
    requires front <= s && front <= t && !HasPlaceholder(t)
    requires forall i :: |front| <= i < |s| ==> s[i] != '>' && s[i] != '}'
    ensures !HasPlaceholder(s)
  {
    forall i, j | 0 <= i < j < |s|
      ensures !Placeholder(s, i, j)
    {
      if j < |front| {
        assert s[i + 1..j] == t[i + 1..j] && s[i] == t[i] && s[j] == t[j];
        assert !Placeholder(t, i, j);
      }
    }
  }

  lemma ExtendValid(prefix: string, subject: string)
    requires NamespacePrefix(prefix) && prefix <= subject && ValidateSubject(subject).None?
    ensures ValidateSubject(prefix + "x").None?
  {
    hide HasPlaceholder, Tokens;
    var ns, rest := Tokens(prefix[..|prefix| - 1]), subject[|prefix|..];
    assert prefix + rest == subject;
    PrefixTokens(prefix, rest);
    PrefixTokens(prefix, "x");
    SingleToken("x");
    PlaceholderInFront(prefix, prefix + "x", subject);
    var ts, ss := Tokens(prefix + "x"), Tokens(subject);
    forall i | 0 <= i < |ts|
      ensures ValidTokenAt(ts, i)
    {
      assert i < |ns| ==> ValidTokenAt(ss, i) && ts[i] == ss[i] == ns[i];
    }
  }

  /** The first two tokens of a valid pattern are literal, so it starts with every namespace of at most
      two tokens that a subject it matches starts with. */
  lemma ShortNamespaceShared(prefix: string, pattern: string, subject: string)
    requires NamespacePrefix(prefix) && prefix <= subject && |Tokens(prefix)| <= 3
    requires ValidateSubject(pattern).None? && ValidateSubject(subject).None? && SubjectMatches(pattern, subject)
    ensures prefix <= pattern
  {
    hide HasPlaceholder, Split;
    var name, rest := prefix[..|prefix| - 1], subject[|prefix|..];
    var ns, ps, ss := Tokens(name), Tokens(pattern), Tokens(subject);
    assert prefix + rest == subject;
    PrefixTokens(prefix, rest);
    var g := TailAt(ps);
    assert g < |ps| ==> ValidTokenAt(ps, g);
    assert |ps| > |ns| && g >= |ns|;
    forall i | 0 <= i < |ns|
      ensures ps[i] == ns[i]
    {
      assert ValidTokenAt(ps, i) && TokenMatches(ps[i], ss[i]);
    }
    assert ps == ns + ps[|ns|..];
    JoinAppend(ns, ps[|ns|..], '.');
    assert pattern == name + ['.'] + Join(ps[|ns|..], '.');
    assert prefix == name + ['.'];
  }

  // ---------- the rule that is picked ----------

  /** The first rule with this prefix. */
  function FirstWith(rules: seq<Rule>, prefix: string): Option<Rule> {
    if rules == [] then None else if rules[0].prefix == prefix then Some(rules[0]) else FirstWith(rules[1..], prefix)
  }

  lemma {:induction false} PickIsFirst(rules: seq<Rule>, subject: string)
    ensures LongestRule(rules, subject).Some? ==>
      LongestRule(rules, subject) == FirstWith(rules, LongestRule(rules, subject).value.prefix)
  {
    if rules == [] {
    } else {
      PickIsFirst(rules[1..], subject);
    }
  }

  /** Separate namespaces keep the class. */
  lemma SeparateKeeps(rules: seq<Rule>, pattern: string, subject: string)
    requires AllNamespaces(rules) && Separate(rules)
    ensures KeepsClass(rules, pattern, subject)
  {
    hide SubjectMatches, ValidateSubject, NamespacePrefix, FirstWith;
    if ClassifySubject(pattern, rules).Good? && ValidateSubject(subject).None? && SubjectMatches(pattern, subject) {
      var rule := ClassifySubject(pattern, rules).value;
      MatchKeepsPrefix(rule.prefix, pattern, subject);
      var found := LongestRule(rules, subject).value;
      assert rule.prefix == subject[..|rule.prefix|] && found.prefix == subject[..|found.prefix|];
      assert rule.prefix <= found.prefix;
      PickIsFirst(rules, pattern);
      PickIsFirst(rules, subject);
      if rule.prefix != found.prefix {
        ExtendValid(found.prefix, subject);
        assert !Nests(rule, found);
        ShortNamespaceShared(found.prefix, pattern, subject);
      }
    }
  }

  // ---------- the leak ----------

  /** The tokens of the leaking pattern: the inner namespace with its last token replaced by `*`. */
  function LeakTokens(inner: string): seq<string>
    requires NamespacePrefix(inner)
  {
    var ns := Tokens(inner[..|inner| - 1]);
    ns[..|ns| - 1] + ["*", "x"]
  }

  function LeakPattern(inner: string): string
    requires NamespacePrefix(inner)
  {
    Join(LeakTokens(inner), '.')
  }

  /** All tokens but the last, with the dot after them. */
  function FrontOf(ns: seq<string>): string
    requires |ns| >= 2
  {
    Join(ns[..|ns| - 1], '.') + "."
  }

  lemma LeakShape(inner: string)
    requires NamespacePrefix(inner) && |Tokens(inner)| >= 4
    ensures |Tokens(inner[..|inner| - 1])| >= 3
    ensures var ns := Tokens(inner[..|inner| - 1]);
      var front := FrontOf(ns);
      && Tokens(LeakPattern(inner)) == LeakTokens(inner) && LeakPattern(inner) == front + "*.x"
      && inner == front + ns[|ns| - 1] + "." && '*' !in ns[|ns| - 1] && '.' !in ns[|ns| - 1]
  {
    hide Split;
    var ns := Tokens(inner[..|inner| - 1]);
    var k := |ns| - 1;
    PrefixTokens(inner, "");
    assert ns == ns[..k] + [ns[k]];
    JoinAppend(ns[..k], [ns[k]], '.');
    JoinAppend(ns[..k], ["*", "x"], '.');
    assert ["*", "x"][1..] == ["x"];
    assert Join(["*", "x"], '.') == "*.x";
    assert inner == inner[..|inner| - 1] + ".";
    SplitJoin(LeakTokens(inner), '.');
  }

  lemma LeakIsValid(inner: string)
    requires NamespacePrefix(inner) && |Tokens(inner)| >= 4 && ValidateSubject(inner + "x").None?
    ensures ValidateSubject(LeakPattern(inner)).None? && SubjectMatches(LeakPattern(inner), inner + "x")
  {
    hide HasPlaceholder, Split, LeakPattern, Join, FrontOf;
    LeakShape(inner);
    var ns := Tokens(inner[..|inner| - 1]);
    var k := |ns| - 1;
    var front := FrontOf(ns);
    PrefixTokens(inner, "x");
    SingleToken("x");
    PlaceholderInFront(front, LeakPattern(inner), inner + "x");
    var ps, ss := Tokens(LeakPattern(inner)), Tokens(inner + "x");
    assert |ps| == |ss| == k + 2 && ps[k] == "*" && ps[k + 1] == "x" == ss[k + 1];
    forall i | 0 <= i < |ps|
      ensures ValidTokenAt(ps, i) && ps[i] != ">" && TokenMatches(ps[i], ss[i])
    {
      assert ValidTokenAt(ss, i);
      assert i < k ==> ps[i] == ss[i] == ns[i];
    }
    assert TailAt(ps) == |ps|;
  }

  /** Nesting leaks: the pattern stays with an outer rule, a subject it matches goes to the inner one. */
  lemma NestingLeaks(rules: seq<Rule>, outer: Rule, inner: Rule)
    requires AllNamespaces(rules) && outer in rules && inner in rules && Nests(outer, inner)
    ensures !KeepsClass(rules, LeakPattern(inner.prefix), inner.prefix + "x")
    ensures ClassifySubject(inner.prefix + "x", rules).Good?
    ensures ClassifySubject(inner.prefix + "x", rules).value in rules
    ensures ClassifySubject(inner.prefix + "x", rules).value.prefix == inner.prefix
  {
    hide ValidateSubject, SubjectMatches, Tokens, LeakPattern, FrontOf;
    LeakShape(inner.prefix);
    var ns := Tokens(inner.prefix[..|inner.prefix| - 1]);
    var last := ns[|ns| - 1];
    var front := FrontOf(ns);
    var pattern, subject := LeakPattern(inner.prefix), inner.prefix + "x";
    LeakIsValid(inner.prefix);
    OuterInFront(outer.prefix, front, last);
    assert outer.prefix <= pattern;
    NotInner(front, last, inner.prefix, pattern);
    var found := LongestRule(rules, subject).value;
    assert found.prefix == subject[..|found.prefix|];
    assert |found.prefix| <= |inner.prefix|;
    assert found.prefix == inner.prefix;
  }

  lemma OuterInFront(outer: string, front: string, last: string)
    requires NamespacePrefix(outer) && outer < front + last + "." && '.' !in last
    ensures outer <= front
  {
    var s := front + last + ".";
    assert outer == s[..|outer|] && outer[|outer| - 1] == s[|outer| - 1];
    assert forall i :: |front| <= i < |front| + |last| ==> s[i] == last[i - |front|] && s[i] in last;
    assert front == s[..|front|];
  }

  lemma NotInner(front: string, last: string, inner: string, pattern: string)
    requires inner == front + last + "." && pattern == front + "*.x" && '*' !in last
    ensures !(inner <= pattern)
  {
    assert pattern[|front|] == '*';
    assert inner[|front|] == if last == "" then '.' else last[0];
  }

  /** Over any dot-ended rules, every valid subject is classified as every pattern that matches it, if
      and only if no namespace of three or more tokens that subjects can have lies inside another. */
  lemma ClassesKeptExactly(rules: seq<Rule>)
    requires AllNamespaces(rules)
    ensures (forall pattern, subject :: KeepsClass(rules, pattern, subject)) <==> Separate(rules)
  {
    hide KeepsClass, Nests;
    if Separate(rules) {
      forall pattern, subject
        ensures KeepsClass(rules, pattern, subject)
      {
        SeparateKeeps(rules, pattern, subject);
      }
    } else {
      var i, j :| 0 <= i < |rules| && 0 <= j < |rules| && Nests(rules[i], rules[j]);
      NestingLeaks(rules, rules[i], rules[j]);
    }
  }

  /** Under separate rules a compiled policy grants no message of a reserved class, whatever the rules. */
  lemma CompiledKeepsClass(policy: Policy, rules: seq<Rule>, pattern: string, subject: string)
    requires AllNamespaces(rules) && Separate(rules) && CompileAuth(policy, rules).Good?
    requires Grants(policy, CompileAuth(policy, rules).value, pattern)
    requires ValidateSubject(subject).None? && SubjectMatches(pattern, subject)
    ensures ClassifySubject(subject, rules) == ClassifySubject(pattern, rules)
    ensures ClassifySubject(subject, rules).Good? && !ClassifySubject(subject, rules).value.reserved
  {
    hide ClassifySubject, SubjectMatches, ValidateSubject, CompileAuth, Grants, Separate;
    GrantedIsClassified(policy, rules, pattern);
    SeparateKeeps(rules, pattern, subject);
  }

  // ---------- an instance ----------

  const OPEN := Rule("tb.proof.", "app", "script", false)
  const INSIDE := Rule("tb.proof.out.", "control", "system", true)

  lemma JoinThree(a: string, b: string, c: string)
    ensures Join([a, b, c], '.') == a + "." + b + "." + c
  {
    assert [a, b, c][1..] == [b, c] && [b, c][1..] == [c];
    assert Join([b, c], '.') == b + ['.'] + c;
  }

  lemma InsideTokens()
    ensures NamespacePrefix(INSIDE.prefix) && Tokens("tb.proof.out") == ["tb", "proof", "out"]
    ensures Tokens("tb.proof.out.x") == ["tb", "proof", "out", "x"] && |Tokens("tb.proof.out.")| == 4
  {
    hide Split, Join;
    JoinThree("tb", "proof", "out");
    assert "tb" + "." + "proof" + "." + "out" == "tb.proof.out";
    SplitJoin(["tb", "proof", "out"], '.');
    assert INSIDE.prefix[..|INSIDE.prefix| - 1] == "tb.proof.out";
    assert INSIDE.prefix + "x" == "tb.proof.out.x";
    PrefixTokens(INSIDE.prefix, "x");
    SingleToken("x");
    assert ["tb", "proof", "out"] + ["x"] == ["tb", "proof", "out", "x"];
  }

  lemma InsideNests()
    ensures AllNamespaces([OPEN, INSIDE]) && Nests(OPEN, INSIDE)
  {
    hide Tokens, ValidateSubject;
    InsideTokens();
    InsideValid();
    assert INSIDE.prefix + "x" == "tb.proof.out.x";
  }

  lemma InsidePattern()
    ensures NamespacePrefix(INSIDE.prefix) && LeakPattern(INSIDE.prefix) == "tb.proof.*.x"
  {
    hide Tokens, LeakPattern;
    InsideTokens();
    assert INSIDE.prefix[..|INSIDE.prefix| - 1] == "tb.proof.out";
    LeakShape(INSIDE.prefix);
    assert ["tb", "proof", "out"][..2] == ["tb", "proof"] && ["tb", "proof"][1..] == ["proof"];
    assert Join(["tb", "proof"], '.') == "tb.proof";
  }

  /** A reserved namespace inside an open one is reached: `tb.proof.*.x` is open and matches the
      reserved `tb.proof.out.x`. */
  lemma ReservedReached()
    ensures !KeepsClass([OPEN, INSIDE], "tb.proof.*.x", "tb.proof.out.x")
    ensures ClassifySubject("tb.proof.out.x", [OPEN, INSIDE]).Good?
      && ClassifySubject("tb.proof.out.x", [OPEN, INSIDE]).value == INSIDE
  {
    hide Tokens, ValidateSubject, SubjectMatches, LeakPattern, KeepsClass, Nests, AllNamespaces, NamespacePrefix;
    InsidePattern();
    InsideNests();
    assert INSIDE.prefix + "x" == "tb.proof.out.x";
    NestingLeaks([OPEN, INSIDE], OPEN, INSIDE);
    var found := ClassifySubject("tb.proof.out.x", [OPEN, INSIDE]).value;
    assert found in [OPEN, INSIDE] && OPEN.prefix != INSIDE.prefix;
  }

  lemma InsideValid()
    ensures ValidateSubject("tb.proof.out.x").None?
  {
    InsideTokens();
    hide Tokens;
    var s := "tb.proof.out.x";
    assert forall i :: 0 <= i < |s| ==> s[i] != '>' && s[i] != '}';
    assert forall i :: 0 <= i < |Tokens(s)| ==> ValidTokenAt(Tokens(s), i);
  }
}
