/** Compiling an auth policy against the subject taxonomy. */
module ManagedAuth {
  import opened Text
  import opened Records
  import opened Subjects

  datatype Rule = Rule(prefix: string, plane: string, owner: string, reserved: bool)

  const ENDGAME_SUBJECTS: seq<Rule> := [
    Rule("tb.internal.", "control", "system", true),
    Rule("tb.control.", "control", "managed-auth", true),
    Rule("tb.proof.out.", "app", "script", false),
    Rule("tb.proof.runtime.", "app", "activation", false),
    Rule("tb.proof.reply.", "app", "activation", false),
    Rule("tb.proof.exec.", "app", "script", false),
    Rule("tb.proof.material.", "app", "materializer", false),
    Rule("tb.proof.artifact.", "app", "artifact", false)
  ]

  datatype AuthError =
    | StaleRevision | RevokedLease | ExpiredLease | ResponseAuthorityUnbounded | AdvancedCapabilityDenied
    | ExposureSubjectMissing | SubjectDeniedNeighbor | SubjectWildcardOverreach | SubjectNamespaceCollision
    | SubjectReserved | ImportExportMismatch | PermissionDeniedByDenyRule | PermissionDenied

  datatype Outcome<+T> = Good(value: T) | Bad(error: AuthError)

  // ---------- subjects ----------

  /** `<...>` or `{...}` with something in between. */
  predicate HasPlaceholder(s: string) {
    exists i, j :: 0 <= i < j < |s| && Placeholder(s, i, j)
  }

  predicate Placeholder(s: string, i: int, j: int)
    requires 0 <= i < j < |s|
  {
    && j > i + 1
    && ((s[i] == '<' && s[j] == '>' && '>' !in s[i + 1..j]) || (s[i] == '{' && s[j] == '}' && '}' !in s[i + 1..j]))
  }

  function ValidateSubject(subject: string): Option<AuthError> {
    if HasPlaceholder(subject) || !ValidPattern(subject) then Some(SubjectDeniedNeighbor)
    else
      var ts := Tokens(subject);
      if ts[|ts| - 1] == ">" && |ts| < 4 then Some(SubjectWildcardOverreach) else None
  }

  /** Sorting by prefix length, longest first, and taking the first rule that applies. */
  function LongestRule(rules: seq<Rule>, subject: string): (r: Option<Rule>)
    ensures r.Some? ==> r.value in rules && r.value.prefix <= subject
    ensures r.Some? ==> forall x :: x in rules && x.prefix <= subject ==> |x.prefix| <= |r.value.prefix|
    ensures r.None? ==> forall x :: x in rules ==> !(x.prefix <= subject)
  {
    if rules == [] then None
    else
      var rest := LongestRule(rules[1..], subject);
      if rules[0].prefix <= subject && (rest.None? || |rules[0].prefix| >= |rest.value.prefix|)
      then Some(rules[0]) else rest
  }

  function ClassifySubject(subject: string, rules: seq<Rule>): Outcome<Rule> {
    match ValidateSubject(subject)
    case Some(e) => Bad(e)
    case None =>
      match LongestRule(rules, subject)
      case None => Bad(SubjectNamespaceCollision)
      case Some(rule) => Good(rule)
  }

  function CheckSubjects(subjects: seq<string>, allow: bool, rules: seq<Rule>): Option<AuthError> {
    if subjects == [] then None
    else
      match ClassifySubject(subjects[0], rules)
      case Bad(e) => Some(e)
      case Good(rule) =>
        if allow && rule.reserved then Some(SubjectReserved) else CheckSubjects(subjects[1..], allow, rules)
  }

  // ---------- policies ----------

  datatype Capability = Capability(appRevision: string, schemaVersion: string, leaseStatus: string)

  datatype NamedExposure = NamedExposure(kind: string, subject: Option<string>)

  datatype Policy = Policy(
    provenance: Provenance, capability: Capability,
    publish: PermList, subscribe: PermList,
    /** `allow_responses`, and in it `expiresMs`, may both be absent. */
    responses: Option<Option<int>>,
    imports: seq<Import>, exports: seq<string>, exposure: seq<NamedExposure>)

  datatype Compiled = Compiled(
    publish: seq<string>, subscribe: seq<string>, imports: seq<string>, exports: seq<string>,
    exposure: seq<string>)

  function ImportSubjects(imports: seq<Import>): Outcome<seq<string>> {
    if imports == [] then Good([])
    else if imports[0].kind == "raw_nats" || imports[0].kind == "cli" then Bad(AdvancedCapabilityDenied)
    else
      var rest := ImportSubjects(imports[1..]);
      if rest.Bad? then rest else Good(imports[0].subjects + rest.value)
  }

  function ExposureSubjects(exposure: seq<NamedExposure>): Outcome<seq<string>> {
    if exposure == [] then Good([])
    else if exposure[0].kind != "request_reply" then Bad(AdvancedCapabilityDenied)
    else if exposure[0].subject.None? || exposure[0].subject.value == "" then Bad(ExposureSubjectMissing)
    else
      var rest := ExposureSubjects(exposure[1..]);
      if rest.Bad? then rest else Good([exposure[0].subject.value] + rest.value)
  }

  function AssertAllowed(perms: PermList, subject: string): Option<AuthError> {
    if exists i :: 0 <= i < |perms.deny| && SubjectMatches(perms.deny[i], subject) then Some(PermissionDeniedByDenyRule)
    else if exists i :: 0 <= i < |perms.allow| && SubjectMatches(perms.allow[i], subject) then None
    else Some(PermissionDenied)
  }

  function AssertAllAllowed(perms: PermList, subjects: seq<string>): Option<AuthError> {
    if subjects == [] then None
    else
      var e := AssertAllowed(perms, subjects[0]);
      if e.Some? then e else AssertAllAllowed(perms, subjects[1..])
  }

  function AssertImports(policy: Policy, imports: seq<Import>): Option<AuthError> {
    if imports == [] then None
    else
      var e := if imports[0].kind == "publish" then AssertAllAllowed(policy.publish, imports[0].subjects)
               else if imports[0].kind == "subscribe" then AssertAllAllowed(policy.subscribe, imports[0].subjects)
               else None;
      if e.Some? then e else AssertImports(policy, imports[1..])
  }

  predicate SameSet(a: seq<string>, b: seq<string>) {
    (forall x :: x in a ==> x in b) && (forall x :: x in b ==> x in a)
  }

  /** The first error of a list of checks, in the order the code performs them. */
  function FirstOf(checks: seq<Option<AuthError>>): (e: Option<AuthError>)
    ensures e.None? ==> forall i :: 0 <= i < |checks| ==> checks[i].None?
  {
    if checks == [] then None else if checks[0].Some? then checks[0] else FirstOf(checks[1..])
  }

  function CheckTaxonomy(policy: Policy, imported: seq<string>, exposed: seq<string>, rules: seq<Rule>)
    : Option<AuthError>
  {
    FirstOf([
      CheckSubjects(policy.publish.allow, true, rules),
      CheckSubjects(policy.subscribe.allow, true, rules),
      CheckSubjects(imported, true, rules),
      CheckSubjects(policy.exports, true, rules),
      CheckSubjects(exposed, true, rules),
      CheckSubjects(policy.publish.deny, false, rules),
      CheckSubjects(policy.subscribe.deny, false, rules),
      if SameSet(policy.exports, exposed) then None else Some(ImportExportMismatch),
      AssertImports(policy, policy.imports),
      AssertAllAllowed(policy.subscribe, policy.exports + exposed)
    ])
  }

  function CompileAuth(policy: Policy, rules: seq<Rule>): Outcome<Compiled> {
    if policy.provenance.appRevision != policy.capability.appRevision
       || policy.provenance.schemaVersion != policy.capability.schemaVersion then Bad(StaleRevision)
    else if policy.capability.leaseStatus == "revoked" then Bad(RevokedLease)
    else if policy.capability.leaseStatus == "expired" then Bad(ExpiredLease)
    else if policy.responses == Some(None) then Bad(ResponseAuthorityUnbounded)
    else
      match ImportSubjects(policy.imports)
      case Bad(e) => Bad(e)
      case Good(imported) =>
        match ExposureSubjects(policy.exposure)
        case Bad(e) => Bad(e)
        case Good(exposed) =>
          match CheckTaxonomy(policy, imported, exposed, rules)
          case Some(e) => Bad(e)
          case None =>
            Good(Compiled(policy.publish.allow + policy.publish.deny, policy.subscribe.allow + policy.subscribe.deny,
                          imported, policy.exports, exposed))
  }

  // ---------- a pattern never reaches into another namespace ----------

  lemma {:induction false} JoinAppend(a: seq<string>, b: seq<string>, sep: char)
    requires |a| >= 1 && |b| >= 1
    ensures Join(a + b, sep) == Join(a, sep) + [sep] + Join(b, sep)
  {
    if |a| == 1 {
      assert (a + b)[1..] == b;
    } else {
      assert (a + b)[1..] == a[1..] + b;
      JoinAppend(a[1..], b, sep);
    }
  }

  lemma TokensAppend(a: string, b: string)
    ensures Tokens(a + "." + b) == Tokens(a) + Tokens(b)
  {
    JoinAppend(Tokens(a), Tokens(b), '.');
    SplitJoin(Tokens(a) + Tokens(b), '.');
  }

  predicate NamespacePrefix(prefix: string) {
    && prefix != "" && prefix[|prefix| - 1] == '.'
    && forall i :: 0 <= i < |prefix| ==> prefix[i] != '*' && prefix[i] != '>'
  }

  /** Namespaces that end at a dot, none inside another. */
  predicate Taxonomy(rules: seq<Rule>) {
    && (forall i :: 0 <= i < |rules| ==> NamespacePrefix(rules[i].prefix))
    && forall i, j :: 0 <= i < |rules| && 0 <= j < |rules| && rules[i].prefix <= rules[j].prefix ==>
         rules[i] == rules[j]
  }

  /** A pattern that starts with a namespace prefix only matches subjects that do. */
  lemma MatchKeepsPrefix(prefix: string, pattern: string, subject: string)
    requires NamespacePrefix(prefix) && prefix <= pattern && SubjectMatches(pattern, subject)
    ensures prefix <= subject
  {
    var name, rest := prefix[..|prefix| - 1], pattern[|prefix|..];
    assert prefix == name + "." && pattern == name + "." + rest;
    TokensAppend(name, rest);
    var ns, ps, ss := Tokens(name), Tokens(pattern), Tokens(subject);
    assert ps == ns + Tokens(rest);
    forall i | 0 <= i < |ns|
      ensures ps[i] == ns[i] && ns[i] != "*" && ns[i] != ">"
    {
      PieceChars(name, i);
      assert '*' !in ns[i] && '>' !in ns[i];
      assert '*' in "*" && '>' in ">";
    }
    assert TailAt(ps) >= |ns|;
    assert |ss| > |ns|;
    forall i | 0 <= i < |ns|
      ensures ss[i] == ns[i]
    {
      assert TokenMatches(ps[i], ss[i]);
    }
    assert ss == ns + ss[|ns|..];
    JoinAppend(ns, ss[|ns|..], '.');
  }

  lemma PieceChars(s: string, i: nat)
    requires i < |Tokens(s)|
    ensures forall c :: c in Tokens(s)[i] ==> c in s
  {
    JoinChars(Tokens(s), i);
  }

  lemma {:induction false} JoinChars(parts: seq<string>, i: nat)
    requires i < |parts|
    ensures forall c :: c in parts[i] ==> c in Join(parts, '.')
  {
    if i == 0 {
    } else {
      JoinChars(parts[1..], i - 1);
    }
  }

  /** Over any such taxonomy, a subject a pattern matches is classified as the pattern is. */
  lemma ClassifiedAlike(rules: seq<Rule>, pattern: string, subject: string)
    requires Taxonomy(rules) && ClassifySubject(pattern, rules).Good?
    requires ValidateSubject(subject).None? && SubjectMatches(pattern, subject)
    ensures ClassifySubject(subject, rules) == ClassifySubject(pattern, rules)
  {
    hide SubjectMatches, ValidateSubject;
    var rule := ClassifySubject(pattern, rules).value;
    MatchKeepsPrefix(rule.prefix, pattern, subject);
    var found := LongestRule(rules, subject).value;
    assert found.prefix <= subject && rule.prefix <= subject;
    assert rule.prefix == subject[..|rule.prefix|] && found.prefix == subject[..|found.prefix|];
    assert rule.prefix <= found.prefix;
  }

  /** The three characters that tell the endgame namespaces apart. */
  function Mark(i: nat): (char, char, char) {
    if i == 0 then ('i', 'a', 'l') else if i == 1 then ('c', 'l', '.')
    else if i == 2 then ('p', 'o', 'u') else if i == 3 then ('p', 'r', 'u')
    else if i == 4 then ('p', 'r', 'e') else if i == 5 then ('p', 'e', 'x')
    else if i == 6 then ('p', 'm', 'a') else ('p', 'a', 'r')
  }

  lemma EndgameMark(i: nat)
    requires i < |ENDGAME_SUBJECTS|
    ensures var p := ENDGAME_SUBJECTS[i].prefix; |p| > 10 && (p[3], p[9], p[10]) == Mark(i)
  {
  }

  lemma EndgamePrefixLow(i: nat)
    requires i < 4
    ensures NamespacePrefix(ENDGAME_SUBJECTS[i].prefix)
  {
  }

  lemma EndgamePrefixHigh(i: nat)
    requires 4 <= i < 8
    ensures NamespacePrefix(ENDGAME_SUBJECTS[i].prefix)
  {
  }

  lemma MarksDiffer(i: nat, j: nat)
    requires i < 8 && j < 8 && Mark(i) == Mark(j)
    ensures i == j
  {
  }

  lemma EndgameIsTaxonomy()
    ensures Taxonomy(ENDGAME_SUBJECTS)
  {
    assert |ENDGAME_SUBJECTS| == 8;
    hide ENDGAME_SUBJECTS, Mark, NamespacePrefix;
    forall i | 0 <= i < 8
      ensures NamespacePrefix(ENDGAME_SUBJECTS[i].prefix)
    {
      if i < 4 {
        EndgamePrefixLow(i);
      } else {
        EndgamePrefixHigh(i);
      }
    }
    forall i, j | 0 <= i < 8 && 0 <= j < 8 && ENDGAME_SUBJECTS[i].prefix <= ENDGAME_SUBJECTS[j].prefix
      ensures ENDGAME_SUBJECTS[i] == ENDGAME_SUBJECTS[j]
    {
      EndgameMark(i);
      EndgameMark(j);
      MarksDiffer(i, j);
    }
  }

  lemma {:induction false} CheckedPattern(subjects: seq<string>, rules: seq<Rule>, pattern: string)
    requires CheckSubjects(subjects, true, rules).None? && pattern in subjects
    ensures ClassifySubject(pattern, rules).Good? && !ClassifySubject(pattern, rules).value.reserved
  {
    hide ClassifySubject;
    if pattern == subjects[0] {
    } else {
      CheckedPattern(subjects[1..], rules, pattern);
    }
  }

  /** Every pattern a compiled policy grants. */
  ghost predicate Grants(policy: Policy, c: Compiled, pattern: string) {
    || pattern in policy.publish.allow || pattern in policy.subscribe.allow
    || pattern in c.imports || pattern in c.exports || pattern in c.exposure
  }

  lemma GrantedIsClassified(policy: Policy, rules: seq<Rule>, pattern: string)
    requires CompileAuth(policy, rules).Good? && Grants(policy, CompileAuth(policy, rules).value, pattern)
    ensures ClassifySubject(pattern, rules).Good? && !ClassifySubject(pattern, rules).value.reserved
  {
    hide ClassifySubject, CheckSubjects, AssertImports, AssertAllAllowed;
    var c := CompileAuth(policy, rules).value;
    var checks := [
      CheckSubjects(policy.publish.allow, true, rules),
      CheckSubjects(policy.subscribe.allow, true, rules),
      CheckSubjects(c.imports, true, rules),
      CheckSubjects(c.exports, true, rules),
      CheckSubjects(c.exposure, true, rules),
      CheckSubjects(policy.publish.deny, false, rules),
      CheckSubjects(policy.subscribe.deny, false, rules),
      if SameSet(policy.exports, c.exposure) then None else Some(ImportExportMismatch),
      AssertImports(policy, policy.imports),
      AssertAllAllowed(policy.subscribe, policy.exports + c.exposure)
    ];
    assert FirstOf(checks).None?;
    assert checks[0].None? && checks[1].None? && checks[2].None? && checks[3].None? && checks[4].None?;
    if pattern in policy.publish.allow {
      CheckedPattern(policy.publish.allow, rules, pattern);
    } else if pattern in policy.subscribe.allow {
      CheckedPattern(policy.subscribe.allow, rules, pattern);
    } else if pattern in c.imports {
      CheckedPattern(c.imports, rules, pattern);
    } else if pattern in c.exports {
      CheckedPattern(c.exports, rules, pattern);
    } else {
      CheckedPattern(c.exposure, rules, pattern);
    }
  }

  /** A compiled policy grants only messages of its own namespaces, never a reserved one. */
  lemma CompiledStaysInNamespace(policy: Policy, pattern: string, subject: string)
    requires CompileAuth(policy, ENDGAME_SUBJECTS).Good?
    requires Grants(policy, CompileAuth(policy, ENDGAME_SUBJECTS).value, pattern)
    requires ValidateSubject(subject).None? && SubjectMatches(pattern, subject)
    ensures ClassifySubject(subject, ENDGAME_SUBJECTS) == ClassifySubject(pattern, ENDGAME_SUBJECTS)
    ensures forall r :: r in ENDGAME_SUBJECTS && r.reserved ==> !(r.prefix <= subject)
  {
    hide ClassifySubject, SubjectMatches, ValidateSubject, CompileAuth, Grants, Taxonomy;
    EndgameIsTaxonomy();
    GrantedIsClassified(policy, ENDGAME_SUBJECTS, pattern);
    ClassifiedAlike(ENDGAME_SUBJECTS, pattern, subject);
    OnlyNamespace(ENDGAME_SUBJECTS, subject);
  }

  /** The rule found is the only one whose prefix the subject has. */
  lemma OnlyNamespace(rules: seq<Rule>, subject: string)
    requires Taxonomy(rules) && ClassifySubject(subject, rules).Good?
    ensures forall r :: r in rules && r.prefix <= subject ==> r == ClassifySubject(subject, rules).value
  {
    hide ValidateSubject;
    var found := ClassifySubject(subject, rules).value;
    forall r | r in rules && r.prefix <= subject
      ensures r == found
    {
      assert r.prefix == subject[..|r.prefix|] && found.prefix == subject[..|found.prefix|];
      assert r.prefix <= found.prefix;
    }
  }

  /** What the run-time check lets through under a compiled policy is in an open namespace, and no
      deny rule matches it. */
  lemma AssertedIsNeverReserved(policy: Policy, perms: PermList, subject: string)
    requires CompileAuth(policy, ENDGAME_SUBJECTS).Good? && (perms == policy.publish || perms == policy.subscribe)
    requires AssertAllowed(perms, subject).None? && ValidateSubject(subject).None?
    ensures ClassifySubject(subject, ENDGAME_SUBJECTS).Good?
    ensures forall r :: r in ENDGAME_SUBJECTS && r.reserved ==> !(r.prefix <= subject)
    ensures forall d :: d in perms.deny ==> !SubjectMatches(d, subject)
  {
    hide ClassifySubject, SubjectMatches, ValidateSubject, CompileAuth, ENDGAME_SUBJECTS;
    var i :| 0 <= i < |perms.allow| && SubjectMatches(perms.allow[i], subject);
    assert Grants(policy, CompileAuth(policy, ENDGAME_SUBJECTS).value, perms.allow[i]);
    CompiledStaysInNamespace(policy, perms.allow[i], subject);
    GrantedIsClassified(policy, ENDGAME_SUBJECTS, perms.allow[i]);
  }
}
