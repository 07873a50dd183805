/** Deciding whether a source may raise an activation. */
module Authority {
  import opened Text
  import opened Records
  import opened Subjects

  predicate MatchAny(patterns: seq<string>, subject: string) {
    exists i :: 0 <= i < |patterns| && SubjectMatches(patterns[i], subject)
  }

  predicate Allowed(perms: PermList, subject: string) {
    !MatchAny(perms.deny, subject) && MatchAny(perms.allow, subject)
  }

  function CheckSourceLease(act: Activation, auth: Auth): Option<Kind> {
    var lease := act.sourceLease;
    if lease.leaseStatus == "" then Some(SourceAuthDenied)
    else if lease.leaseStatus == "revoked" || auth.capability.leaseStatus == "revoked" then Some(LeaseRevoked)
    else if lease.leaseStatus == "expired" || auth.capability.leaseStatus == "expired" then Some(LeaseExpired)
    else if lease.leaseStatus != "active" then Some(SourceAuthDenied)
    else if lease.leaseID == "" then Some(SourceAuthDenied)
    else if lease.appRevision != act.provenance.appRevision || lease.schemaVersion != act.provenance.schemaVersion
    then Some(StaleChain)
    else if lease.scriptRevision != 0 && act.scriptRevision != 0 && lease.scriptRevision != act.scriptRevision
    then Some(StaleChain)
    else None
  }

  function SourceSubject(src: Source): Result<string> {
    match src.kind
    case "request_reply" => if src.subject == "" then Err(SourceAuthDenied) else Ok(src.subject)
    case "command_acceptance" => if src.subject == "" then Err(SourceAuthDenied) else Ok(src.subject)
    case "subject" => if src.observedSubject == "" then Err(SourceAuthDenied) else Ok(src.observedSubject)
    case "kv" =>
      if src.bucket == "" || src.key == "" then Err(SourceAuthDenied)
      else Ok("$KV." + src.bucket + "." + src.key)
    case "object" =>
      if src.bucket == "" || src.name == "" then Err(SourceAuthDenied)
      else Ok("$O." + src.bucket + "." + src.name)
    case "stream" => if src.subject == "" then Err(SourceAuthDenied) else Ok(src.subject)
    case "schedule" =>
      if src.scheduleID == "" || src.tickID == "" then Err(SourceAuthDenied)
      else Ok("tb.schedule." + src.scheduleID + "." + src.tickID)
    case _ => Err(SourceAuthDenied)
  }

  /** `>` alone, or a final `>` after fewer than three tokens. */
  predicate Overbroad(subject: string) {
    || subject == ">"
    || (|subject| >= 2 && subject[|subject| - 2..] == ".>" && |Tokens(subject[..|subject| - 2])| < 3)
  }

  function CheckSourceAperture(src: Source): Option<Kind> {
    if src.kind != "subject" then None
    else if src.pattern == "" then Some(SourceAuthDenied)
    else if !ValidSubject(src.pattern) || Overbroad(src.pattern) || HasTail(src.pattern) then Some(WildcardOverreach)
    else if !SubjectMatches(src.pattern, src.observedSubject) then Some(DeniedNeighbor)
    else None
  }

  function ExposureKind(kind: string): string {
    match kind
    case "request_reply" => "request_reply"
    case "command_acceptance" => "request_reply"
    case "subject" => "subject"
    case "schedule" => "subject"
    case "kv" => "kv_watch"
    case "object" => "object_change"
    case "stream" => "stream"
    case _ => ""
  }

  function CheckImportSubjects(auth: Auth, kind: string, subjects: seq<string>, sub: string): Option<Kind> {
    if subjects == [] then None
    else if kind == "subscribe" && !SubjectMatches(subjects[0], sub) then Some(DeniedNeighbor)
    else if kind == "subscribe" && !Allowed(auth.subscribe, subjects[0]) then Some(DeniedNeighbor)
    else if kind == "publish" && !Allowed(auth.publish, subjects[0]) then Some(DeniedNeighbor)
    else CheckImportSubjects(auth, kind, subjects[1..], sub)
  }

  function CheckSourceImports(auth: Auth, imports: seq<Import>, sub: string): Option<Kind> {
    if imports == [] then None
    else if imports[0].kind != "publish" && imports[0].kind != "subscribe" then Some(PermissionCompileFailed)
    else
      var bad := CheckImportSubjects(auth, imports[0].kind, imports[0].subjects, sub);
      if bad.Some? then bad else CheckSourceImports(auth, imports[1..], sub)
  }

  function SourceChecks(src: Source, sub: string): seq<string> {
    if src.kind == "subject" then [src.pattern, sub] else [sub]
  }

  function CheckPrincipal(auth: Auth, act: Activation): Option<Kind> {
    var who := act.sourcePrincipal;
    if IsBlank(auth.user) || IsBlank(who.principalID) then Some(SourceAuthDenied)
    else if auth.user != who.principalID then Some(SourceAuthDenied)
    else if auth.capability.principalID != "" && auth.capability.principalID != auth.user then Some(SourceAuthDenied)
    else if who.sourceID == "" || who.sourceKind == "" || who.authorityRef == "" then Some(SourceAuthDenied)
    else if who.sourceKind != act.source.kind then Some(SourceAuthDenied)
    else if auth.capability.leaseID != "" && auth.capability.leaseID != act.sourceLease.leaseID
    then Some(SourceAuthDenied)
    else CheckSourceLease(act, auth)
  }

  function CheckExposure(auth: Auth, act: Activation, sub: string): Option<Kind> {
    var ref := act.sourcePrincipal.authorityRef;
    if ref !in auth.exposure then Some(SourceAuthDenied)
    else
      var exp := auth.exposure[ref];
      var want := ExposureKind(act.source.kind);
      if exp.subject == "" then Some(PermissionCompileFailed)
      else if want != "" && exp.kind != want then Some(PermissionCompileFailed)
      else if !SubjectMatches(exp.subject, sub) then Some(DeniedNeighbor)
      else if exp.subject !in auth.exports then Some(PermissionCompileFailed)
      else CheckSourceImports(auth, auth.imports, sub)
  }

  /** The observed subject a source is granted. */
  function AuthorizeSource(auth: Auth, act: Activation): Result<string> {
    match CheckPrincipal(auth, act)
    case Some(kind) => Err(kind)
    case None =>
      match SourceSubject(act.source)
      case Err(kind) => Err(kind)
      case Ok(sub) =>
        match CheckSourceAperture(act.source)
        case Some(kind) => Err(kind)
        case None =>
          match CheckExposure(auth, act, sub)
          case Some(kind) => Err(kind)
          case None =>
            if act.source.kind == "request_reply" && (auth.maxResponses <= 0 || auth.responsesExpireMs <= 0)
            then Err(PermissionCompileFailed)
            else if forall c :: c in SourceChecks(act.source, sub) ==> Allowed(auth.subscribe, c) then Ok(sub)
            else Err(DeniedNeighbor)
  }

  // ---------- what a grant means ----------

  /** Whatever its kind, a granted source is its own user's, under an active, current lease, and its
      observed subject is exposed, exported, subscribable and matched by every subscribe import. */
  lemma GrantMeans(auth: Auth, act: Activation)
    requires AuthorizeSource(auth, act).Ok?
    ensures var sub, who, lease := AuthorizeSource(auth, act).value, act.sourcePrincipal, act.sourceLease;
      && SourceSubject(act.source) == Ok(sub) && Allowed(auth.subscribe, sub)
      && who.principalID == auth.user && !IsBlank(auth.user) && who.sourceKind == act.source.kind
      && lease.leaseStatus == "active" && auth.capability.leaseStatus != "revoked"
      && auth.capability.leaseStatus != "expired"
      && lease.appRevision == act.provenance.appRevision && lease.schemaVersion == act.provenance.schemaVersion
      && who.authorityRef in auth.exposure && auth.exposure[who.authorityRef].subject in auth.exports
      && SubjectMatches(auth.exposure[who.authorityRef].subject, sub)
    ensures var sub := AuthorizeSource(auth, act).value;
      forall i, j :: 0 <= i < |auth.imports| && 0 <= j < |auth.imports[i].subjects| ==>
        auth.imports[i].kind == "subscribe" ==> SubjectMatches(auth.imports[i].subjects[j], sub)
  {
    hide SubjectMatches, MatchAny, CheckSourceImports, CheckSourceAperture, SourceSubject;
    var sub := AuthorizeSource(auth, act).value;
    assert sub in SourceChecks(act.source, sub);
    forall i, j | 0 <= i < |auth.imports| && 0 <= j < |auth.imports[i].subjects| && auth.imports[i].kind == "subscribe"
      ensures SubjectMatches(auth.imports[i].subjects[j], sub)
    {
      GrantedImportsAllowed(auth, auth.imports, sub, i, j);
    }
  }

  /** A granted "subject" source may observe nothing outside the subscribe allow list: one allow
      pattern covers every message of the source's pattern. */
  lemma GrantedPatternIsAllowed(auth: Auth, act: Activation)
    requires AuthorizeSource(auth, act).Ok? && act.source.kind == "subject"
    ensures exists i :: 0 <= i < |auth.subscribe.allow| && Includes(auth.subscribe.allow[i], act.source.pattern)
    ensures forall i :: 0 <= i < |auth.subscribe.deny| ==> !Includes(auth.subscribe.deny[i], act.source.pattern)
  {
    var q := act.source.pattern;
    hide Tokens;
    assert q in SourceChecks(act.source, act.source.observedSubject);
    assert Allowed(auth.subscribe, q);
    forall p: string
      ensures SubjectMatches(p, q) <==> Includes(p, q)
    {
      MatcherDecidesInclusion(p, q);
    }
  }

  /** The same, message by message, with the observed subject itself also clear of the deny list. */
  lemma GrantedMessagesAreAllowed(auth: Auth, act: Activation, message: string)
    requires AuthorizeSource(auth, act).Ok? && act.source.kind == "subject"
    requires Concrete(message) && SubjectMatches(act.source.pattern, message)
    ensures MatchAny(auth.subscribe.allow, message)
    ensures !MatchAny(auth.subscribe.deny, AuthorizeSource(auth, act).value)
  {
    hide SubjectMatches, Concrete;
    GrantedPatternIsAllowed(auth, act);
    var i :| 0 <= i < |auth.subscribe.allow| && Includes(auth.subscribe.allow[i], act.source.pattern);
    assert SubjectMatches(auth.subscribe.allow[i], message);
    var sub := AuthorizeSource(auth, act).value;
    assert sub in SourceChecks(act.source, sub);
  }

  /** What `Allowed` says about a pattern: one allow pattern covers all its messages, except that a
      pattern ending in `>` needs an allow pattern whose own `>` comes no later. */
  lemma AllowedPatternCovered(perms: PermList, q: string)
    requires ValidPattern(q) && Allowed(perms, q)
    ensures (exists i :: 0 <= i < |perms.allow| && Includes(perms.allow[i], q)) <==>
            (HasTail(q) ==> exists i :: 0 <= i < |perms.allow| && SubjectMatches(perms.allow[i], q)
                                        && HasTail(perms.allow[i])
                                        && TailAt(Tokens(perms.allow[i])) < |Tokens(q)|)
  {
    hide Tokens, Matches, Includes;
    forall p: string
      ensures Includes(p, q) <==>
              SubjectMatches(p, q) && (HasTail(q) ==> HasTail(p) && TailAt(Tokens(p)) < |Tokens(q)|)
    {
      InclusionCharacterized(p, q);
      TailPresent(p);
    }
  }

  lemma TailPresent(p: string)
    ensures HasTail(p) <==> TailAt(Tokens(p)) < |Tokens(p)|
  {
  }

  /** Subscribe imports of a granted source are allowed patterns, so the above applies to them. */
  lemma {:induction false} GrantedImportsAllowed(auth: Auth, imports: seq<Import>, sub: string, i: nat, j: nat)
    requires CheckSourceImports(auth, imports, sub).None?
    requires i < |imports| && j < |imports[i].subjects| && imports[i].kind == "subscribe"
    ensures Allowed(auth.subscribe, imports[i].subjects[j]) && SubjectMatches(imports[i].subjects[j], sub)
  {
    hide Allowed, SubjectMatches;
    if i > 0 {
      GrantedImportsAllowed(auth, imports[1..], sub, i - 1, j);
    } else {
      ImportSubjectsAllowed(auth, imports[0].subjects, sub, j);
    }
  }

  lemma {:induction false} ImportSubjectsAllowed(auth: Auth, subjects: seq<string>, sub: string, j: nat)
    requires CheckImportSubjects(auth, "subscribe", subjects, sub).None? && j < |subjects|
    ensures Allowed(auth.subscribe, subjects[j]) && SubjectMatches(subjects[j], sub)
  {
    hide Allowed, SubjectMatches;
    if j == 0 {
    } else {
      ImportSubjectsAllowed(auth, subjects[1..], sub, j - 1);
    }
  }
}
