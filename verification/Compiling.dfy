/** When a policy compiles, exactly, what it compiles to, and what it is refused with. */
module Compiling {
  import opened Records
  import opened Subjects
  import opened ManagedAuth

  // ---------- lists of subjects ----------

  /** The error of a subject on its own: malformed, too wide, in no namespace, or reserved. */
  function SubjectError(subject: string, allow: bool, rules: seq<Rule>): Option<AuthError> {
    match ClassifySubject(subject, rules)
    case Bad(e) => Some(e)
    case Good(rule) => if allow && rule.reserved then Some(SubjectReserved) else None
  }

  /** A well-formed subject whose longest namespace is open, if openness is asked for. */
  ghost predicate Placed(subject: string, allow: bool, rules: seq<Rule>) {
    && !Templated(subject) && ValidPattern(subject)
    && (Tokens(subject)[|Tokens(subject)| - 1] == ">" ==> |Tokens(subject)| >= 4)
    && (exists r :: r in rules && r.prefix <= subject)
    && (allow ==> !LongestRule(rules, subject).value.reserved)
  }

  lemma PlacedExactly(subject: string, allow: bool, rules: seq<Rule>)
    ensures SubjectError(subject, allow, rules).None? <==> Placed(subject, allow, rules)
    ensures SubjectError(subject, allow, rules) == Some(SubjectReserved) <==>
      allow && Placed(subject, false, rules) && !Placed(subject, true, rules)
    ensures SubjectError(subject, allow, rules) == Some(SubjectWildcardOverreach) <==>
      && !Templated(subject) && ValidPattern(subject)
      && Tokens(subject)[|Tokens(subject)| - 1] == ">" && |Tokens(subject)| < 4
    ensures SubjectError(subject, allow, rules) == Some(SubjectDeniedNeighbor) <==>
      Templated(subject) || !ValidPattern(subject)
    ensures SubjectError(subject, allow, rules) == Some(SubjectNamespaceCollision) <==>
      ValidateSubject(subject).None? && forall r :: r in rules ==> !(r.prefix <= subject)
  {
    PlaceholderExactly(subject);
    hide HasPlaceholder, Templated, ValidPattern, Tokens;
  }

  /** The first bad subject decides. */
  predicate FirstBadSubject(subjects: seq<string>, allow: bool, rules: seq<Rule>, i: nat) {
    && i < |subjects| && SubjectError(subjects[i], allow, rules).Some?
    && forall k :: 0 <= k < i ==> SubjectError(subjects[k], allow, rules).None?
  }

  lemma {:induction false} SubjectsExactly(subjects: seq<string>, allow: bool, rules: seq<Rule>)
    ensures CheckSubjects(subjects, allow, rules).None? <==> forall s :: s in subjects ==> Placed(s, allow, rules)
    ensures forall i: nat :: FirstBadSubject(subjects, allow, rules, i) ==>
      CheckSubjects(subjects, allow, rules) == SubjectError(subjects[i], allow, rules)
  {
    hide Placed, ClassifySubject;
    if subjects == [] {
    } else {
      PlacedExactly(subjects[0], allow, rules);
      SubjectsExactly(subjects[1..], allow, rules);
      assert subjects == [subjects[0]] + subjects[1..];
      forall i: nat | FirstBadSubject(subjects, allow, rules, i)
        ensures CheckSubjects(subjects, allow, rules) == SubjectError(subjects[i], allow, rules)
      {
        if i > 0 {
          assert SubjectError(subjects[0], allow, rules).None?;
          assert FirstBadSubject(subjects[1..], allow, rules, i - 1);
        }
      }
    }
  }

  // ---------- permissions ----------

  ghost predicate Permits(perms: PermList, subject: string) {
    && (exists a :: a in perms.allow && SubjectMatches(a, subject))
    && forall d :: d in perms.deny ==> !SubjectMatches(d, subject)
  }

  lemma PermitsExactly(perms: PermList, subject: string)
    ensures AssertAllowed(perms, subject).None? <==> Permits(perms, subject)
    ensures AssertAllowed(perms, subject) == Some(PermissionDeniedByDenyRule) <==>
      exists d :: d in perms.deny && SubjectMatches(d, subject)
    ensures AssertAllowed(perms, subject) in {None, Some(PermissionDeniedByDenyRule), Some(PermissionDenied)}
  {
    hide SubjectMatches;
  }

  lemma {:induction false} AllPermitted(perms: PermList, subjects: seq<string>)
    ensures AssertAllAllowed(perms, subjects).None? <==> forall s :: s in subjects ==> Permits(perms, s)
  {
    hide Permits, AssertAllowed;
    if subjects == [] {
    } else {
      PermitsExactly(perms, subjects[0]);
      AllPermitted(perms, subjects[1..]);
      assert subjects == [subjects[0]] + subjects[1..];
    }
  }

  // ---------- imports and exposures ----------

  lemma {:induction false} ImportsFlatten(imports: seq<Import>)
    ensures ImportSubjects(imports).Good? <==> forall i :: i in imports ==> i.kind !in ["raw_nats", "cli"]
    ensures ImportSubjects(imports).Bad? ==> ImportSubjects(imports).error == AdvancedCapabilityDenied
    ensures ImportSubjects(imports).Good? ==>
      forall s :: s in ImportSubjects(imports).value <==> exists i :: i in imports && s in i.subjects
  {
    if imports == [] {
    } else {
      ImportsFlatten(imports[1..]);
      assert imports == [imports[0]] + imports[1..];
    }
  }

  predicate Exposable(e: NamedExposure) {
    e.kind == "request_reply" && e.subject.Some? && e.subject.value != ""
  }

  lemma {:induction false} ExposuresListed(exposure: seq<NamedExposure>)
    ensures ExposureSubjects(exposure).Good? <==> forall e :: e in exposure ==> Exposable(e)
    ensures ExposureSubjects(exposure).Good? ==>
      && |ExposureSubjects(exposure).value| == |exposure|
      && forall i :: 0 <= i < |exposure| ==> exposure[i].subject == Some(ExposureSubjects(exposure).value[i])
    ensures ExposureSubjects(exposure).Bad? ==>
      exists i :: 0 <= i < |exposure| && !Exposable(exposure[i]) && (forall k :: 0 <= k < i ==> Exposable(exposure[k]))
        && ExposureSubjects(exposure).error
           == if exposure[i].kind == "request_reply" then ExposureSubjectMissing else AdvancedCapabilityDenied
  {
    if exposure == [] {
    } else {
      var rest := exposure[1..];
      ExposuresListed(rest);
      assert exposure == [exposure[0]] + rest;
      if Exposable(exposure[0]) && ExposureSubjects(rest).Bad? {
        var i :| 0 <= i < |rest| && !Exposable(rest[i]) && (forall k :: 0 <= k < i ==> Exposable(rest[k]))
          && ExposureSubjects(rest).error
             == if rest[i].kind == "request_reply" then ExposureSubjectMissing else AdvancedCapabilityDenied;
        assert !Exposable(exposure[i + 1]);
        forall k | 0 <= k < i + 1
          ensures Exposable(exposure[k])
        {
          assert k > 0 ==> exposure[k] == rest[k - 1];
        }
      }
    }
  }

  ghost predicate ImportPermitted(policy: Policy, i: Import) {
    && (i.kind == "publish" ==> forall s :: s in i.subjects ==> Permits(policy.publish, s))
    && (i.kind == "subscribe" ==> forall s :: s in i.subjects ==> Permits(policy.subscribe, s))
  }

  function ImportError(policy: Policy, i: Import): Option<AuthError> {
    if i.kind == "publish" then AssertAllAllowed(policy.publish, i.subjects)
    else if i.kind == "subscribe" then AssertAllAllowed(policy.subscribe, i.subjects)
    else None
  }

  lemma ImportExactly(policy: Policy, i: Import)
    ensures ImportError(policy, i).None? <==> ImportPermitted(policy, i)
  {
    hide Permits, AssertAllAllowed;
    AllPermitted(policy.publish, i.subjects);
    AllPermitted(policy.subscribe, i.subjects);
  }

  lemma {:induction false} ImportsPermitted(policy: Policy, imports: seq<Import>)
    ensures AssertImports(policy, imports).None? <==> forall i :: i in imports ==> ImportPermitted(policy, i)
  {
    hide ImportPermitted, AssertAllAllowed;
    if imports == [] {
    } else {
      ImportExactly(policy, imports[0]);
      ImportsPermitted(policy, imports[1..]);
      assert imports == [imports[0]] + imports[1..];
    }
  }

  // ---------- the compiler ----------

  /** A current policy under a standing lease, with bounded responses and no advanced capability. */
  ghost predicate Current(policy: Policy) {
    && policy.provenance == Provenance(policy.capability.appRevision, policy.capability.schemaVersion)
    && policy.capability.leaseStatus !in ["revoked", "expired"]
    && (policy.responses.Some? ==> policy.responses.value.Some?)
    && (forall i :: i in policy.imports ==> i.kind !in ["raw_nats", "cli"])
    && forall e :: e in policy.exposure ==> Exposable(e)
  }

  ghost predicate Exposed(policy: Policy, s: string) {
    exists e :: e in policy.exposure && e.subject == Some(s)
  }

  ghost predicate Imported(policy: Policy, s: string) {
    exists i :: i in policy.imports && s in i.subjects
  }

  /** The subjects a policy asks for. */
  ghost predicate Claimed(policy: Policy, s: string) {
    || s in policy.publish.allow || s in policy.subscribe.allow || s in policy.exports
    || Imported(policy, s) || Exposed(policy, s)
  }

  /** Every allowed, imported, exported and exposed subject lies in an open namespace and every denied one
      in some namespace; what is exported is exposed and the other way round; and the permissions cover
      imports and exports. */
  ghost predicate Lawful(policy: Policy, rules: seq<Rule>) {
    && (forall s :: Claimed(policy, s) ==> Placed(s, true, rules))
    && (forall s :: s in policy.publish.deny || s in policy.subscribe.deny ==> Placed(s, false, rules))
    && (forall s :: s in policy.exports <==> Exposed(policy, s))
    && (forall i :: i in policy.imports ==> ImportPermitted(policy, i))
    && forall s :: s in policy.exports ==> Permits(policy.subscribe, s)
  }

  lemma FirstOfAll(checks: seq<Option<AuthError>>)
    ensures FirstOf(checks).None? <==> forall i :: 0 <= i < |checks| ==> checks[i].None?
  {
    if checks == [] {
    } else if checks[0].None? {
      FirstOfAll(checks[1..]);
      assert forall i :: 1 <= i < |checks| ==> checks[i] == checks[1..][i - 1];
    }
  }

  ghost predicate Checked(policy: Policy, imported: seq<string>, exposed: seq<string>, rules: seq<Rule>) {
    && CheckSubjects(policy.publish.allow, true, rules).None?
    && CheckSubjects(policy.subscribe.allow, true, rules).None?
    && CheckSubjects(imported, true, rules).None? && CheckSubjects(policy.exports, true, rules).None?
    && CheckSubjects(exposed, true, rules).None?
    && CheckSubjects(policy.publish.deny, false, rules).None?
    && CheckSubjects(policy.subscribe.deny, false, rules).None?
    && SameSet(policy.exports, exposed) && AssertImports(policy, policy.imports).None?
    && AssertAllAllowed(policy.subscribe, policy.exports + exposed).None?
  }

  lemma TaxonomyChecked(policy: Policy, imported: seq<string>, exposed: seq<string>, rules: seq<Rule>)
    ensures CheckTaxonomy(policy, imported, exposed, rules).None? <==> Checked(policy, imported, exposed, rules)
  {
    hide CheckSubjects, SameSet, AssertImports, AssertAllAllowed, FirstOf;
    var checks := [
      CheckSubjects(policy.publish.allow, true, rules),
      CheckSubjects(policy.subscribe.allow, true, rules),
      CheckSubjects(imported, true, rules),
      CheckSubjects(policy.exports, true, rules),
      CheckSubjects(exposed, true, rules),
      CheckSubjects(policy.publish.deny, false, rules),
      CheckSubjects(policy.subscribe.deny, false, rules),
      if SameSet(policy.exports, exposed) then None else Some(ImportExportMismatch),
      AssertImports(policy, policy.imports),
      AssertAllAllowed(policy.subscribe, policy.exports + exposed)
    ];
    FirstOfAll(checks);
    assert FirstOf(checks).None? ==>
      checks[0].None? && checks[1].None? && checks[2].None? && checks[3].None? && checks[4].None? && checks[5].None?
      && checks[6].None? && checks[7].None? && checks[8].None? && checks[9].None?;
  }

  lemma LawfulExactly(policy: Policy, imported: seq<string>, exposed: seq<string>, rules: seq<Rule>)
    requires forall s :: s in imported <==> Imported(policy, s)
    requires forall s :: s in exposed <==> Exposed(policy, s)
    ensures CheckTaxonomy(policy, imported, exposed, rules).None? <==> Lawful(policy, rules)
  {
    hide Placed, Permits, Imported, Exposed, ImportPermitted, CheckSubjects, AssertImports, AssertAllAllowed,
         CheckTaxonomy;
    TaxonomyChecked(policy, imported, exposed, rules);
    SubjectsExactly(policy.publish.allow, true, rules);
    SubjectsExactly(policy.subscribe.allow, true, rules);
    SubjectsExactly(imported, true, rules);
    SubjectsExactly(policy.exports, true, rules);
    SubjectsExactly(exposed, true, rules);
    SubjectsExactly(policy.publish.deny, false, rules);
    SubjectsExactly(policy.subscribe.deny, false, rules);
    ImportsPermitted(policy, policy.imports);
    AllPermitted(policy.subscribe, policy.exports + exposed);
    hide FirstBadSubject;
  }

  lemma ExposedSubjects(policy: Policy)
    requires ExposureSubjects(policy.exposure).Good?
    ensures forall s :: s in ExposureSubjects(policy.exposure).value <==> Exposed(policy, s)
  {
    ExposuresListed(policy.exposure);
    var exposed := ExposureSubjects(policy.exposure).value;
    hide ExposureSubjects, Exposable;
    forall s
      ensures s in exposed <==> Exposed(policy, s)
    {
      if s in exposed {
        var i :| 0 <= i < |exposed| && exposed[i] == s;
        assert policy.exposure[i].subject == Some(s);
      }
      if Exposed(policy, s) {
        var e :| e in policy.exposure && e.subject == Some(s);
        var i :| 0 <= i < |policy.exposure| && policy.exposure[i] == e;
        assert exposed[i] == s;
      }
    }
  }

  /** A policy compiles if and only if it is current and lawful; then it lists its own publish and
      subscribe patterns, exports, and exactly the subjects imported and exposed. */
  lemma CompilesExactly(policy: Policy, rules: seq<Rule>)
    ensures CompileAuth(policy, rules).Good? <==> Current(policy) && Lawful(policy, rules)
    ensures CompileAuth(policy, rules).Good? ==>
      var c := CompileAuth(policy, rules).value;
      && c.publish == policy.publish.allow + policy.publish.deny
      && c.subscribe == policy.subscribe.allow + policy.subscribe.deny && c.exports == policy.exports
      && (forall s :: s in c.imports <==> Imported(policy, s)) && (forall s :: s in c.exposure <==> Exposed(policy, s))
  {
    hide Lawful, Exposed, Imported, CheckTaxonomy, ImportSubjects, ExposureSubjects, Exposable;
    ImportsFlatten(policy.imports);
    ExposuresListed(policy.exposure);
    if ImportSubjects(policy.imports).Good? && ExposureSubjects(policy.exposure).Good? {
      ExposedSubjects(policy);
      ImportedSubjects(policy);
      LawfulExactly(policy, ImportSubjects(policy.imports).value, ExposureSubjects(policy.exposure).value, rules);
    }
  }

  lemma ImportedSubjects(policy: Policy)
    requires ImportSubjects(policy.imports).Good?
    ensures forall s :: s in ImportSubjects(policy.imports).value <==> Imported(policy, s)
  {
    ImportsFlatten(policy.imports);
  }

  predicate UpToDate(policy: Policy) {
    policy.provenance == Provenance(policy.capability.appRevision, policy.capability.schemaVersion)
  }

  predicate Unbounded(policy: Policy) {
    policy.responses.Some? && policy.responses.value.None?
  }

  ghost predicate Advanced(policy: Policy) {
    exists i :: i in policy.imports && i.kind in ["raw_nats", "cli"]
  }

  /** What a policy that is not current is refused with: stale, revoked, expired, unbounded responses,
      or an advanced import, in this order. */
  lemma RefusedExactly(policy: Policy, rules: seq<Rule>)
    ensures var lease, r := policy.capability.leaseStatus, CompileAuth(policy, rules);
      && (!UpToDate(policy) ==> r == Bad(StaleRevision))
      && (UpToDate(policy) ==>
            && (lease == "revoked" ==> r == Bad(RevokedLease))
            && (lease == "expired" ==> r == Bad(ExpiredLease))
            && (lease !in ["revoked", "expired"] ==>
                  && (Unbounded(policy) ==> r == Bad(ResponseAuthorityUnbounded))
                  && (!Unbounded(policy) && Advanced(policy) ==> r == Bad(AdvancedCapabilityDenied))))
  {
    hide CheckTaxonomy, ImportSubjects, ExposureSubjects, Advanced;
    SomeAdvanced(policy);
  }

  lemma SomeAdvanced(policy: Policy)
    ensures Advanced(policy) ==> ImportSubjects(policy.imports) == Bad(AdvancedCapabilityDenied)
    ensures !Advanced(policy) ==> ImportSubjects(policy.imports).Good?
  {
    ImportsFlatten(policy.imports);
    hide ImportSubjects;
  }

  /** After that, the first exposure that cannot be served decides. */
  lemma UnservedRefused(policy: Policy, rules: seq<Rule>, i: nat)
    requires UpToDate(policy) && policy.capability.leaseStatus !in ["revoked", "expired"]
    requires !Unbounded(policy) && !Advanced(policy) && FirstUnserved(policy.exposure, i)
    ensures CompileAuth(policy, rules)
            == Bad(if policy.exposure[i].kind == "request_reply" then ExposureSubjectMissing
                   else AdvancedCapabilityDenied)
  {
    hide CheckTaxonomy, ImportSubjects, ExposureSubjects, Exposable, Advanced;
    SomeAdvanced(policy);
    ExposuresListed(policy.exposure);
    assert policy.exposure[i] in policy.exposure;
  }

  predicate FirstUnserved(exposure: seq<NamedExposure>, i: nat) {
    i < |exposure| && !Exposable(exposure[i]) && forall k :: 0 <= k < i ==> Exposable(exposure[k])
  }

  /** A lawless policy is refused with the first of these that fails: its own patterns, imports, exports,
      exposures and deny patterns in turn, exports against exposures, and what the permissions cover. */
  lemma LawlessRefused(policy: Policy, rules: seq<Rule>, exposed: seq<string>, imported: seq<string>)
    requires Current(policy) && ImportSubjects(policy.imports) == Good(imported)
    requires ExposureSubjects(policy.exposure) == Good(exposed)
    ensures var lists := [(policy.publish.allow, true), (policy.subscribe.allow, true), (imported, true),
                          (policy.exports, true), (exposed, true), (policy.publish.deny, false),
                          (policy.subscribe.deny, false)];
      var r := CompileAuth(policy, rules);
      && (forall k: nat, i: nat :: FirstBadList(lists, rules, k, i) ==>
            r == Bad(SubjectError(lists[k].0[i], lists[k].1, rules).value))
      && ((forall k :: 0 <= k < |lists| ==> CheckSubjects(lists[k].0, lists[k].1, rules).None?) ==>
            (!SameSet(policy.exports, exposed) ==> r == Bad(ImportExportMismatch)))
  {
    hide CheckSubjects, SameSet, AssertImports, AssertAllAllowed, ImportSubjects, ExposureSubjects, Exposable,
         ClassifySubject;
    var lists := [(policy.publish.allow, true), (policy.subscribe.allow, true), (imported, true),
                  (policy.exports, true), (exposed, true), (policy.publish.deny, false),
                  (policy.subscribe.deny, false)];
    var rest := [
      if SameSet(policy.exports, exposed) then None else Some(ImportExportMismatch),
      AssertImports(policy, policy.imports),
      AssertAllAllowed(policy.subscribe, policy.exports + exposed)];
    var checks := Results(lists, rules) + rest;
    assert CheckTaxonomy(policy, imported, exposed, rules) == FirstOf(checks) by {
      assert checks == [
        CheckSubjects(policy.publish.allow, true, rules), CheckSubjects(policy.subscribe.allow, true, rules),
        CheckSubjects(imported, true, rules), CheckSubjects(policy.exports, true, rules),
        CheckSubjects(exposed, true, rules), CheckSubjects(policy.publish.deny, false, rules),
        CheckSubjects(policy.subscribe.deny, false, rules), rest[0], rest[1], rest[2]];
    }
    hide CheckTaxonomy;
    forall k: nat, i: nat | FirstBadList(lists, rules, k, i)
      ensures CompileAuth(policy, rules) == Bad(SubjectError(lists[k].0[i], lists[k].1, rules).value)
    {
      SubjectsExactly(lists[k].0, lists[k].1, rules);
      FirstOfAt(checks, k);
    }
    if (forall k :: 0 <= k < |lists| ==> CheckSubjects(lists[k].0, lists[k].1, rules).None?)
       && !SameSet(policy.exports, exposed) {
      FirstOfAt(checks, 7);
    }
  }

  function Results(lists: seq<(seq<string>, bool)>, rules: seq<Rule>): seq<Option<AuthError>> {
    seq(|lists|, i requires 0 <= i < |lists| => CheckSubjects(lists[i].0, lists[i].1, rules))
  }

  predicate FirstBadList(lists: seq<(seq<string>, bool)>, rules: seq<Rule>, k: nat, i: nat) {
    && k < |lists| && FirstBadSubject(lists[k].0, lists[k].1, rules, i)
    && forall m :: 0 <= m < k ==> CheckSubjects(lists[m].0, lists[m].1, rules).None?
  }

  lemma {:induction false} FirstOfAt(checks: seq<Option<AuthError>>, k: nat)
    requires k < |checks| && checks[k].Some? && forall m :: 0 <= m < k ==> checks[m].None?
    ensures FirstOf(checks) == checks[k]
  {
    if k == 0 {
    } else {
      FirstOfAt(checks[1..], k - 1);
    }
  }

  // ---------- placeholders ----------

  /** Some text in angle brackets without a `>` in it, or in braces without a `}`. */
  ghost predicate Templated(s: string) {
    exists a: string, w: string, b: string :: w != "" && (Bracketed(s, a, w, b) || Braced(s, a, w, b))
  }

  predicate Bracketed(s: string, a: string, w: string, b: string) {
    s == a + "<" + w + ">" + b && '>' !in w
  }

  predicate Braced(s: string, a: string, w: string, b: string) {
    s == a + "{" + w + "}" + b && '}' !in w
  }

  lemma PlaceholderExactly(s: string)
    ensures HasPlaceholder(s) <==> Templated(s)
  {
    if HasPlaceholder(s) {
      var i, j :| 0 <= i < j < |s| && Placeholder(s, i, j);
      var a, w, b := s[..i], s[i + 1..j], s[j + 1..];
      assert s == a + [s[i]] + w + [s[j]] + b;
      assert Bracketed(s, a, w, b) || Braced(s, a, w, b);
    }
    if a: string, w: string, b: string :| w != "" && (Bracketed(s, a, w, b) || Braced(s, a, w, b)) {
      var i, j := |a|, |a| + 1 + |w|;
      assert s[i + 1..j] == w;
      assert Placeholder(s, i, j);
    }
  }

  // ---------- the shipped namespaces ----------

  lemma EndgameAt(subject: string, i: nat)
    requires ValidateSubject(subject).None? && i < 8 == |ENDGAME_SUBJECTS| && ENDGAME_SUBJECTS[i].prefix <= subject
    ensures ClassifySubject(subject, ENDGAME_SUBJECTS) == Good(ENDGAME_SUBJECTS[i])
  {
    hide ENDGAME_SUBJECTS, ValidateSubject, Taxonomy, LongestRule;
    EndgameIsTaxonomy();
    assert ENDGAME_SUBJECTS[i] in ENDGAME_SUBJECTS;
    OnlyNamespace(ENDGAME_SUBJECTS, subject);
  }

  /** Plane, owner and openness of every valid subject, by its first tokens. */
  lemma EndgameClasses(subject: string)
    requires ValidateSubject(subject).None?
    ensures var c := ClassifySubject(subject, ENDGAME_SUBJECTS);
      && ("tb.internal." <= subject ==> c == Good(Rule("tb.internal.", "control", "system", true)))
      && ("tb.control." <= subject ==> c == Good(Rule("tb.control.", "control", "managed-auth", true)))
      && ("tb.proof.out." <= subject ==> c == Good(Rule("tb.proof.out.", "app", "script", false)))
      && ("tb.proof.runtime." <= subject ==> c == Good(Rule("tb.proof.runtime.", "app", "activation", false)))
      && ("tb.proof.reply." <= subject ==> c == Good(Rule("tb.proof.reply.", "app", "activation", false)))
      && ("tb.proof.exec." <= subject ==> c == Good(Rule("tb.proof.exec.", "app", "script", false)))
      && ("tb.proof.material." <= subject ==> c == Good(Rule("tb.proof.material.", "app", "materializer", false)))
      && ("tb.proof.artifact." <= subject ==> c == Good(Rule("tb.proof.artifact.", "app", "artifact", false)))
      && (c.Good? ==> exists i :: 0 <= i < 8 && ENDGAME_SUBJECTS[i].prefix <= subject && c.value == ENDGAME_SUBJECTS[i])
  {
    hide ValidateSubject, LongestRule;
    EndgameTable();
    hide ENDGAME_SUBJECTS;
    forall i | 0 <= i < 8 && ENDGAME_SUBJECTS[i].prefix <= subject
      ensures ClassifySubject(subject, ENDGAME_SUBJECTS) == Good(ENDGAME_SUBJECTS[i])
    {
      EndgameAt(subject, i);
    }
    Classified(subject);
  }

  lemma Classified(subject: string)
    ensures var c := ClassifySubject(subject, ENDGAME_SUBJECTS);
      c.Good? ==> exists i :: 0 <= i < |ENDGAME_SUBJECTS| && ENDGAME_SUBJECTS[i].prefix <= subject
                              && c.value == ENDGAME_SUBJECTS[i]
  {
    hide ENDGAME_SUBJECTS, ValidateSubject;
  }

  lemma EndgameTable()
    ensures |ENDGAME_SUBJECTS| == 8
    ensures ENDGAME_SUBJECTS[0] == Rule("tb.internal.", "control", "system", true)
    ensures ENDGAME_SUBJECTS[1] == Rule("tb.control.", "control", "managed-auth", true)
    ensures ENDGAME_SUBJECTS[2] == Rule("tb.proof.out.", "app", "script", false)
    ensures ENDGAME_SUBJECTS[3] == Rule("tb.proof.runtime.", "app", "activation", false)
    ensures ENDGAME_SUBJECTS[4] == Rule("tb.proof.reply.", "app", "activation", false)
    ensures ENDGAME_SUBJECTS[5] == Rule("tb.proof.exec.", "app", "script", false)
    ensures ENDGAME_SUBJECTS[6] == Rule("tb.proof.material.", "app", "materializer", false)
    ensures ENDGAME_SUBJECTS[7] == Rule("tb.proof.artifact.", "app", "artifact", false)
  {
  }

  /** Under the shipped namespaces, whatever a compiled policy grants stays under `tb.proof.`, and never
      reaches `tb.internal.` or `tb.control.`. */
  lemma CompiledReaches(policy: Policy, pattern: string, subject: string)
    requires CompileAuth(policy, ENDGAME_SUBJECTS).Good?
    requires Grants(policy, CompileAuth(policy, ENDGAME_SUBJECTS).value, pattern)
    requires ValidateSubject(subject).None? && SubjectMatches(pattern, subject)
    ensures "tb.proof." <= subject && !("tb.internal." <= subject) && !("tb.control." <= subject)
  {
    hide CompileAuth, Grants, ValidateSubject, SubjectMatches, ClassifySubject;
    CompiledStaysInNamespace(policy, pattern, subject);
    GrantedIsClassified(policy, ENDGAME_SUBJECTS, pattern);
    EndgameClasses(subject);
    EndgameTable();
    hide ENDGAME_SUBJECTS;
    var i :| 0 <= i < 8 && ENDGAME_SUBJECTS[i].prefix <= subject
             && ClassifySubject(subject, ENDGAME_SUBJECTS).value == ENDGAME_SUBJECTS[i];
    assert i >= 2;
    ProofPrefix(i);
    assert "tb.proof." <= ENDGAME_SUBJECTS[i].prefix;
  }

  lemma ProofPrefix(i: nat)
    requires 2 <= i < 8
    ensures |ENDGAME_SUBJECTS| == 8 && "tb.proof." <= ENDGAME_SUBJECTS[i].prefix
  {
  }
}
