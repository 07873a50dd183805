/** When a source is granted, exactly, and with what answer it is refused. */
module Grants {
  import opened Records
  import opened Text
  import opened Subjects
  import opened Authority

  // ---------- the answer to a list of refusals ----------

  /** A reason to refuse: whether it applies, and the error it gives. */
  datatype Refusal = Refusal(applies: bool, kind: Kind)

  /** The first refusal that applies decides. */
  function Verdict(refusals: seq<Refusal>): (k: Option<Kind>)
    ensures k.None? <==> forall i :: 0 <= i < |refusals| ==> !refusals[i].applies
  {
    if refusals == [] then None else if refusals[0].applies then Some(refusals[0].kind) else Verdict(refusals[1..])
  }

  /** The verdict of what is left from the `i`-th on. */
  lemma VerdictAt(rs: seq<Refusal>, i: nat)
    requires i < |rs|
    ensures Verdict(rs[i..]) == if rs[i].applies then Some(rs[i].kind) else Verdict(rs[i + 1..])
  {
    assert rs[i..][1..] == rs[i + 1..];
  }

  /** Lists of up to five, spelled out. */
  lemma VerdictOf(rs: seq<Refusal>)
    requires |rs| <= 5
    ensures Verdict(rs) ==
      if |rs| > 0 && rs[0].applies then Some(rs[0].kind)
      else if |rs| > 1 && rs[1].applies then Some(rs[1].kind)
      else if |rs| > 2 && rs[2].applies then Some(rs[2].kind)
      else if |rs| > 3 && rs[3].applies then Some(rs[3].kind)
      else if |rs| > 4 && rs[4].applies then Some(rs[4].kind)
      else None
  {
    hide Verdict;
    VerdictOfNone();
    assert rs[0..] == rs && rs[|rs|..] == [];
    if |rs| > 0 { VerdictAt(rs, 0); }
    if |rs| > 1 { VerdictAt(rs, 1); }
    if |rs| > 2 { VerdictAt(rs, 2); }
    if |rs| > 3 { VerdictAt(rs, 3); }
    if |rs| > 4 { VerdictAt(rs, 4); }
  }

  lemma VerdictOfNone()
    ensures Verdict([]) == None
  {
  }

  // ---------- what each kind of source must show ----------

  /** The subject a source is observed on: its own, or one built from its coordinates. */
  ghost predicate Observes(src: Source, sub: string) {
    || (src.kind in ["request_reply", "command_acceptance", "stream"] && src.subject != "" && sub == src.subject)
    || (src.kind == "subject" && src.observedSubject != "" && sub == src.observedSubject)
    || (src.kind == "kv" && src.bucket != "" && src.key != "" && sub == "$KV." + src.bucket + "." + src.key)
    || (src.kind == "object" && src.bucket != "" && src.name != "" && sub == "$O." + src.bucket + "." + src.name)
    || (src.kind == "schedule" && src.scheduleID != "" && src.tickID != ""
        && sub == "tb.schedule." + src.scheduleID + "." + src.tickID)
  }

  /** The exposure a source kind is served under. */
  predicate Serves(exposure: string, kind: string) {
    || (exposure == "request_reply" && kind in ["request_reply", "command_acceptance"])
    || (exposure == "subject" && kind in ["subject", "schedule"])
    || (exposure == "kv_watch" && kind == "kv")
    || (exposure == "object_change" && kind == "object")
    || (exposure == "stream" && kind == "stream")
  }

  /** Some allow pattern matches, and no deny pattern does. */
  predicate Covered(perms: PermList, s: string) {
    && (exists i :: 0 <= i < |perms.allow| && SubjectMatches(perms.allow[i], s))
    && forall i :: 0 <= i < |perms.deny| ==> !SubjectMatches(perms.deny[i], s)
  }

  lemma CoveredExactly(perms: PermList)
    ensures forall s: string :: Allowed(perms, s) <==> Covered(perms, s)
  {
    hide SubjectMatches;
  }

  predicate OwnPrincipal(auth: Auth, act: Activation) {
    var who := act.sourcePrincipal;
    && (exists i :: 0 <= i < |auth.user| && !(9 <= auth.user[i] as int <= 13) && auth.user[i] as int != 32)
    && who.principalID == auth.user
    && (auth.capability.principalID == "" || auth.capability.principalID == auth.user)
    && who.sourceID != "" && who.authorityRef != "" && who.sourceKind == act.source.kind != ""
    && (auth.capability.leaseID == "" || auth.capability.leaseID == act.sourceLease.leaseID)
  }

  predicate CurrentLease(auth: Auth, act: Activation) {
    var lease := act.sourceLease;
    && lease.leaseStatus == "active" && auth.capability.leaseStatus !in ["revoked", "expired"] && lease.leaseID != ""
    && lease.appRevision == act.provenance.appRevision && lease.schemaVersion == act.provenance.schemaVersion
    && (lease.scriptRevision == 0 || act.scriptRevision == 0 || lease.scriptRevision == act.scriptRevision)
  }

  /** A pattern by the subject rules, with no placeholder in it. */
  predicate WellFormed(pattern: string) {
    ValidPattern(pattern) && forall c :: c in pattern ==> c != '<' && c != '{'
  }

  /** A pattern source names a valid, narrow pattern without a tail that matches what was observed. */
  predicate NarrowPattern(src: Source) {
    src.kind == "subject" ==>
      && WellFormed(src.pattern) && ">" !in Tokens(src.pattern)
      && SubjectMatches(src.pattern, src.observedSubject)
  }

  predicate ImportFine(auth: Auth, imp: Import, sub: string) {
    || (imp.kind == "subscribe"
        && forall j :: 0 <= j < |imp.subjects| ==>
             SubjectMatches(imp.subjects[j], sub) && Covered(auth.subscribe, imp.subjects[j]))
    || (imp.kind == "publish" && forall j :: 0 <= j < |imp.subjects| ==> Covered(auth.publish, imp.subjects[j]))
  }

  /** Everything a source must show to be granted `sub`. */
  ghost predicate Granted(auth: Auth, act: Activation, sub: string) {
    var ref := act.sourcePrincipal.authorityRef;
    && OwnPrincipal(auth, act) && CurrentLease(auth, act) && Observes(act.source, sub) && NarrowPattern(act.source)
    && ref in auth.exposure
    && Serves(auth.exposure[ref].kind, act.source.kind)
    && auth.exposure[ref].subject != "" && auth.exposure[ref].subject in auth.exports
    && SubjectMatches(auth.exposure[ref].subject, sub)
    && (forall i :: 0 <= i < |auth.imports| ==> ImportFine(auth, auth.imports[i], sub))
    && (act.source.kind == "request_reply" ==> auth.maxResponses > 0 && auth.responsesExpireMs > 0)
    && Covered(auth.subscribe, sub) && (act.source.kind == "subject" ==> Covered(auth.subscribe, act.source.pattern))
  }

  // ---------- the parts ----------

  lemma SubjectExactly(src: Source, sub: string)
    ensures SourceSubject(src) == Ok(sub) <==> Observes(src, sub)
    ensures SourceSubject(src).Err? ==> SourceSubject(src).kind == SourceAuthDenied
  {
  }

  /** An overbroad pattern has a tail, so the tail check alone decides. */
  lemma OverbroadHasTail(p: string)
    requires Overbroad(p)
    ensures HasTail(p)
  {
    if p == ">" {
      SplitJoin([">"], '.');
      assert Tokens(p)[0] == ">";
    } else {
      var front := p[..|p| - 2];
      assert p == front + "." + ">";
      SplitJoin([">"], '.');
      TokensOfTail(front);
      assert Tokens(p)[|Tokens(p)| - 1] == ">";
    }
  }

  lemma TokensOfTail(front: string)
    ensures Tokens(front + "." + ">") == Tokens(front) + [">"]
  {
    JoinLast(Tokens(front), ">", '.');
    SplitJoin(Tokens(front) + [">"], '.');
  }

  lemma {:induction false} JoinLast(parts: seq<string>, last: string, sep: char)
    requires |parts| >= 1
    ensures Join(parts + [last], sep) == Join(parts, sep) + [sep] + last
  {
    if |parts| == 1 {
      assert (parts + [last])[1..] == [last];
    } else {
      assert (parts + [last])[1..] == parts[1..] + [last];
      JoinLast(parts[1..], last, sep);
    }
  }

  /** In the order they are checked. */
  function PatternRefusals(src: Source): seq<Refusal> {
    [Refusal(src.kind == "subject" && src.pattern == "", SourceAuthDenied),
     Refusal(src.kind == "subject" && (!WellFormed(src.pattern) || ">" in Tokens(src.pattern)), WildcardOverreach),
     Refusal(src.kind == "subject" && !SubjectMatches(src.pattern, src.observedSubject), DeniedNeighbor)]
  }

  lemma ApertureExactly(src: Source)
    ensures CheckSourceAperture(src).None? <==> NarrowPattern(src)
    ensures CheckSourceAperture(src) == Verdict(PatternRefusals(src))
  {
    hide SubjectMatches, Overbroad;
    if src.kind == "subject" && Overbroad(src.pattern) {
      OverbroadHasTail(src.pattern);
    }
    TailIn(src.pattern);
    if ValidPattern(src.pattern) {
      ValidIsNamed(src.pattern);
    }
    hide Tokens, ValidPattern, HasTail;
    assert WellFormed(src.pattern) <==> ValidSubject(src.pattern);
    VerdictOf(PatternRefusals(src));
    hide Verdict;
  }

  lemma TailIn(p: string)
    ensures HasTail(p) <==> ">" in Tokens(p)
  {
  }

  lemma ValidIsNamed(p: string)
    requires ValidPattern(p)
    ensures p != ""
  {
    var ts := Tokens(p);
    assert ValidTokenAt(ts, 0);
  }

  function PrincipalRefusals(auth: Auth, act: Activation): seq<Refusal> {
    var lease, standing := act.sourceLease.leaseStatus, auth.capability.leaseStatus;
    [Refusal(!OwnPrincipal(auth, act) || lease == "", SourceAuthDenied),
     Refusal(lease == "revoked" || standing == "revoked", LeaseRevoked),
     Refusal(lease == "expired" || standing == "expired", LeaseExpired),
     Refusal(lease != "active" || act.sourceLease.leaseID == "", SourceAuthDenied),
     Refusal(!CurrentLease(auth, act), StaleChain)]
  }

  lemma PrincipalExactly(auth: Auth, act: Activation)
    ensures CheckPrincipal(auth, act) == Verdict(PrincipalRefusals(auth, act))
    ensures CheckPrincipal(auth, act).None? <==> OwnPrincipal(auth, act) && CurrentLease(auth, act)
  {
    BlankExactly(auth.user);
    BlankExactly(act.sourcePrincipal.principalID);
    hide IsBlank;
    VerdictOf(PrincipalRefusals(auth, act));
    hide Verdict;
  }

  lemma {:induction false} ImportSubjectsExactly(auth: Auth, kind: string, subjects: seq<string>, sub: string)
    requires kind == "subscribe" || kind == "publish"
    ensures CheckImportSubjects(auth, kind, subjects, sub).None? <==> ImportFine(auth, Import(kind, subjects), sub)
    ensures CheckImportSubjects(auth, kind, subjects, sub) in {None, Some(DeniedNeighbor)}
  {
    CoveredExactly(auth.subscribe);
    CoveredExactly(auth.publish);
    hide SubjectMatches, Allowed, Covered;
    if subjects == [] {
    } else {
      ImportSubjectsExactly(auth, kind, subjects[1..], sub);
      assert forall j :: 0 <= j < |subjects| - 1 ==> subjects[1..][j] == subjects[j + 1];
      if ImportFine(auth, Import(kind, subjects), sub) {
        assert ImportFine(auth, Import(kind, subjects[1..]), sub);
      } else if ImportFine(auth, Import(kind, subjects[1..]), sub) {
        forall j | 1 <= j < |subjects|
          ensures subjects[j] == subjects[1..][j - 1]
        {
        }
      }
    }
  }

  /** The imports before the `i`-th are fine and it is not: it decides the answer. */
  predicate FirstBad(auth: Auth, imports: seq<Import>, sub: string, i: nat) {
    i < |imports| && !ImportFine(auth, imports[i], sub)
    && forall k :: 0 <= k < i ==> ImportFine(auth, imports[k], sub)
  }

  lemma {:induction false} ImportsExactly(auth: Auth, imports: seq<Import>, sub: string)
    ensures CheckSourceImports(auth, imports, sub).None?
            <==> forall i :: 0 <= i < |imports| ==> ImportFine(auth, imports[i], sub)
    ensures forall i: nat :: FirstBad(auth, imports, sub, i) ==>
      CheckSourceImports(auth, imports, sub)
      == Some(if imports[i].kind in ["publish", "subscribe"] then DeniedNeighbor else PermissionCompileFailed)
  {
    hide CheckImportSubjects, ImportFine;
    if imports == [] {
    } else {
      ImportsExactly(auth, imports[1..], sub);
      FirstImport(auth, imports[0], sub);
      forall i: nat | FirstBad(auth, imports, sub, i)
        ensures CheckSourceImports(auth, imports, sub)
                == Some(if imports[i].kind in ["publish", "subscribe"] then DeniedNeighbor else PermissionCompileFailed)
      {
        if i > 0 {
          assert ImportFine(auth, imports[0], sub);
          assert FirstBad(auth, imports[1..], sub, i - 1);
        }
      }
    }
  }

  lemma FirstImport(auth: Auth, imp: Import, sub: string)
    ensures imp.kind != "publish" && imp.kind != "subscribe" ==> !ImportFine(auth, imp, sub)
    ensures imp.kind == "publish" || imp.kind == "subscribe" ==>
      (CheckImportSubjects(auth, imp.kind, imp.subjects, sub).None? <==> ImportFine(auth, imp, sub))
      && CheckImportSubjects(auth, imp.kind, imp.subjects, sub) in {None, Some(DeniedNeighbor)}
  {
    hide SubjectMatches, Allowed, CheckImportSubjects;
    if imp.kind == "publish" || imp.kind == "subscribe" {
      ImportSubjectsExactly(auth, imp.kind, imp.subjects, sub);
    }
  }

  function ExposureOf(auth: Auth, act: Activation): Exposure {
    var ref := act.sourcePrincipal.authorityRef;
    if ref in auth.exposure then auth.exposure[ref] else Exposure("", "")
  }

  function ExposureRefusals(auth: Auth, act: Activation, sub: string): seq<Refusal> {
    var exp := ExposureOf(auth, act);
    [Refusal(act.sourcePrincipal.authorityRef !in auth.exposure, SourceAuthDenied),
     Refusal(exp.subject == "" || !Serves(exp.kind, act.source.kind), PermissionCompileFailed),
     Refusal(!SubjectMatches(exp.subject, sub), DeniedNeighbor),
     Refusal(exp.subject !in auth.exports, PermissionCompileFailed)]
  }

  ghost function ImportRefusals(auth: Auth, sub: string): seq<Refusal> {
    [Refusal(exists i: nat :: FirstBad(auth, auth.imports, sub, i)
               && auth.imports[i].kind !in ["publish", "subscribe"], PermissionCompileFailed),
     Refusal(exists i: nat :: FirstBad(auth, auth.imports, sub, i), DeniedNeighbor)]
  }

  lemma ExposureExactly(auth: Auth, act: Activation, sub: string)
    requires Observes(act.source, sub)
    ensures CheckExposure(auth, act, sub) == Verdict(ExposureRefusals(auth, act, sub) + ImportRefusals(auth, sub))
  {
    ServedExactly(act.source, sub, ExposureOf(auth, act).kind);
    hide SubjectMatches, CheckSourceImports, Serves, ExposureKind, Observes, FirstBad;
    ImportVerdict(auth, sub);
    VerdictOf(ExposureRefusals(auth, act, sub));
    VerdictJoin(ExposureRefusals(auth, act, sub), ImportRefusals(auth, sub));
    hide Verdict, ImportRefusals;
  }

  lemma ServedExactly(src: Source, sub: string, exposure: string)
    requires Observes(src, sub)
    ensures ExposureKind(src.kind) != "" && (Serves(exposure, src.kind) <==> exposure == ExposureKind(src.kind))
  {
  }

  lemma ImportVerdict(auth: Auth, sub: string)
    ensures CheckSourceImports(auth, auth.imports, sub) == Verdict(ImportRefusals(auth, sub))
  {
    hide CheckSourceImports, ImportFine;
    ImportsExactly(auth, auth.imports, sub);
    VerdictOf(ImportRefusals(auth, sub));
    hide Verdict;
    if CheckSourceImports(auth, auth.imports, sub).Some? {
      var i := FindBad(auth, auth.imports, sub);
      assert forall k: nat :: FirstBad(auth, auth.imports, sub, k) ==> k == i;
    }
  }

  lemma {:induction false} FindBad(auth: Auth, imports: seq<Import>, sub: string) returns (i: nat)
    requires exists k :: 0 <= k < |imports| && !ImportFine(auth, imports[k], sub)
    ensures FirstBad(auth, imports, sub, i)
  {
    hide ImportFine;
    if !ImportFine(auth, imports[0], sub) {
      i := 0;
    } else {
      var k :| 0 <= k < |imports| && !ImportFine(auth, imports[k], sub);
      assert imports[1..][k - 1] == imports[k];
      var before := FindBad(auth, imports[1..], sub);
      i := before + 1;
      assert forall j :: 1 <= j <= i ==> imports[j] == imports[1..][j - 1];
    }
  }

  lemma {:induction false} VerdictJoin(a: seq<Refusal>, b: seq<Refusal>)
    ensures Verdict(a + b) == if Verdict(a).Some? then Verdict(a) else Verdict(b)
  {
    if a == [] {
      assert a + b == b;
    } else {
      assert (a + b)[1..] == a[1..] + b;
      VerdictJoin(a[1..], b);
    }
  }

  // ---------- the whole ----------

  /** The checks on the response bounds and on the subscribe aperture. */
  function LastRefusals(auth: Auth, src: Source, sub: string): seq<Refusal> {
    [Refusal(src.kind == "request_reply" && (auth.maxResponses <= 0 || auth.responsesExpireMs <= 0),
             PermissionCompileFailed),
     Refusal(!Covered(auth.subscribe, sub) || (src.kind == "subject" && !Covered(auth.subscribe, src.pattern)),
             DeniedNeighbor)]
  }

  /** Every reason to refuse a source observed on `sub`, in the order that decides the answer: the
      principal and its lease, the subject, the pattern, the exposure, the imports, the bounds. */
  ghost function Refusals(auth: Auth, act: Activation, sub: string): seq<Refusal> {
    PrincipalRefusals(auth, act) + ([Refusal(!Observes(act.source, sub), SourceAuthDenied)]
    + (PatternRefusals(act.source) + ((ExposureRefusals(auth, act, sub) + ImportRefusals(auth, sub))
    + LastRefusals(auth, act.source, sub))))
  }

  /** The answer to any source, observed on `sub` or on nothing: the first refusal that applies, or a
      grant of `sub`. */
  lemma AnsweredExactly(auth: Auth, act: Activation, sub: string)
    requires Observes(act.source, sub) || forall s :: !Observes(act.source, s)
    ensures var refused := Verdict(Refusals(auth, act, sub));
      AuthorizeSource(auth, act) == if refused.Some? then Err(refused.value) else Ok(sub)
  {
    hide CheckPrincipal, SourceSubject, CheckSourceAperture, CheckExposure, Allowed, Covered, SubjectMatches, Observes,
         PrincipalRefusals, PatternRefusals, ExposureRefusals, ImportRefusals;
    PrincipalExactly(auth, act);
    SubjectExactly(act.source, sub);
    ApertureExactly(act.source);
    var one := [Refusal(!Observes(act.source, sub), SourceAuthDenied)];
    var last := LastRefusals(auth, act.source, sub);
    var bounds := ExposureRefusals(auth, act, sub) + ImportRefusals(auth, sub);
    VerdictJoin(PrincipalRefusals(auth, act), one + (PatternRefusals(act.source) + (bounds + last)));
    VerdictJoin(one, PatternRefusals(act.source) + (bounds + last));
    VerdictJoin(PatternRefusals(act.source), bounds + last);
    VerdictJoin(bounds, last);
    VerdictOf(one);
    VerdictOf(last);
    hide Verdict;
    assert Refusals(auth, act, sub)
           == PrincipalRefusals(auth, act) + (one + (PatternRefusals(act.source) + (bounds + last)));
    if SourceSubject(act.source).Ok? {
      SubjectExactly(act.source, SourceSubject(act.source).value);
      ExposureExactly(auth, act, sub);
    }
    ChecksMean(auth, act.source, sub);
  }

  lemma ChecksMean(auth: Auth, src: Source, sub: string)
    ensures (forall c :: c in SourceChecks(src, sub) ==> Allowed(auth.subscribe, c))
            <==> Covered(auth.subscribe, sub) && (src.kind == "subject" ==> Covered(auth.subscribe, src.pattern))
  {
    CoveredExactly(auth.subscribe);
    hide Allowed, Covered;
    assert sub in SourceChecks(src, sub);
    if src.kind == "subject" {
      assert src.pattern in SourceChecks(src, sub);
    }
  }

  /** A source is granted a subject if and only if it is the user's own under a current lease, is
      observed on that subject, and exposure, exports, imports, response bounds and the subscribe
      aperture all cover it. */
  lemma GrantedExactly(auth: Auth, act: Activation, sub: string)
    ensures AuthorizeSource(auth, act) == Ok(sub) <==> Granted(auth, act, sub)
  {
    hide CheckPrincipal, SourceSubject, CheckSourceAperture, CheckExposure, Allowed, Covered, SubjectMatches, Observes,
         Serves, NarrowPattern, OwnPrincipal, CurrentLease, ImportFine;
    PrincipalExactly(auth, act);
    SubjectExactly(act.source, sub);
    ApertureExactly(act.source);
    if Observes(act.source, sub) {
      ExposureMeans(auth, act, sub);
    }
    ChecksMean(auth, act.source, sub);
  }

  lemma ExposureMeans(auth: Auth, act: Activation, sub: string)
    requires Observes(act.source, sub)
    ensures var ref := act.sourcePrincipal.authorityRef;
      CheckExposure(auth, act, sub).None? <==>
        && ref in auth.exposure && Serves(auth.exposure[ref].kind, act.source.kind)
        && auth.exposure[ref].subject != "" && auth.exposure[ref].subject in auth.exports
        && SubjectMatches(auth.exposure[ref].subject, sub)
        && forall i :: 0 <= i < |auth.imports| ==> ImportFine(auth, auth.imports[i], sub)
  {
    ServedExactly(act.source, sub, ExposureOf(auth, act).kind);
    hide SubjectMatches, CheckSourceImports, Observes, Serves, ExposureKind, ImportFine;
    ImportsExactly(auth, auth.imports, sub);
  }
}
