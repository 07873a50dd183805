/** Browser commands: concurrent acceptances on one claim store, one event-loop turn at a time. */
module CommandClaims {
  import opened Records
  import opened Text

  // ---------- the decision ----------

  datatype Denial =
    | CapabilityMismatch | RevokedLease | ExpiredLease | StaleRevision | AcceptanceDenied | ActivationLoopSuppressed

  datatype Intent = Intent(
    commandID: string, command: string, sessionID: string, capabilityID: string, expectedRevision: string, chain: Chain)

  datatype Route = Route(activationName: string, scriptKey: string)

  datatype Options = Options(
    sessionID: string, capabilityID: string, leaseStatus: string, provenance: Provenance, capability: Provenance,
    currentArtifactRevision: string, routes: map<string, Route>)

  datatype Status = Status(commandID: string, error: Option<Denial>, sequence: nat, observedAt: string, chain: Chain)

  datatype CommandActivation = CommandActivation(
    activationID: string, dedupeKey: string, scriptKey: string, observedAt: string, chain: Chain)

  datatype Draft = Draft(status: Status, activation: Option<CommandActivation>)

  /** The command comes from the session and capability whose lease stands, at the current revisions,
      has a route, and may take one more hop. */
  predicate Permitted(opts: Options, intent: Intent) {
    && intent.sessionID == opts.sessionID && intent.capabilityID == opts.capabilityID
    && opts.leaseStatus !in ["revoked", "expired"]
    && opts.provenance == opts.capability && intent.expectedRevision == opts.currentArtifactRevision
    && intent.command in opts.routes && intent.chain.hop < intent.chain.maxHops
  }

  function Deny(opts: Options, intent: Intent): (d: Option<Denial>)
    ensures d.None? <==> Permitted(opts, intent)
  {
    if intent.sessionID != opts.sessionID || intent.capabilityID != opts.capabilityID then Some(CapabilityMismatch)
    else if opts.leaseStatus == "revoked" then Some(RevokedLease)
    else if opts.leaseStatus == "expired" then Some(ExpiredLease)
    else if opts.provenance != opts.capability then Some(StaleRevision)
    else if intent.expectedRevision != opts.currentArtifactRevision then Some(StaleRevision)
    else if intent.command !in opts.routes then Some(AcceptanceDenied)
    else if intent.chain.hop + 1 > intent.chain.maxHops then Some(ActivationLoopSuppressed)
    else None
  }

  /** Each denial names the first thing that is wrong: who asks, the lease, the revisions of capability
      and artifact, the route, the hops. */
  lemma DenialMeans(opts: Options, intent: Intent)
    ensures var d := Deny(opts, intent);
      var known := intent.sessionID == opts.sessionID && intent.capabilityID == opts.capabilityID;
      var leased := known && opts.leaseStatus != "revoked" && opts.leaseStatus != "expired";
      var current := leased && opts.provenance == opts.capability
                     && intent.expectedRevision == opts.currentArtifactRevision;
      && (d == Some(CapabilityMismatch) <==> !known)
      && (d == Some(RevokedLease) <==> known && opts.leaseStatus == "revoked")
      && (d == Some(ExpiredLease) <==> known && opts.leaseStatus == "expired")
      && (d == Some(StaleRevision) <==> leased && !current)
      && (d == Some(AcceptanceDenied) <==> current && intent.command !in opts.routes)
      && (d == Some(ActivationLoopSuppressed) <==>
            current && intent.command in opts.routes && intent.chain.hop >= intent.chain.maxHops)
  {
  }

  function ActivationFor(route: Route, intent: Intent, observedAt: string): CommandActivation {
    CommandActivation(
      Join(["act", route.scriptKey, route.activationName, intent.commandID], ':'),
      Join(["command_acceptance", route.scriptKey, route.activationName, intent.commandID], ':'),
      route.scriptKey, observedAt, intent.chain.(hop := intent.chain.hop + 1))
  }

  /** What the create callback makes when it does not throw. */
  function MakeDraft(opts: Options, intent: Intent, observedAt: string, sequence: nat): (d: Draft)
    ensures d.status.commandID == intent.commandID && d.status.sequence == sequence && d.status.observedAt == observedAt
    ensures d.activation.Some? <==> d.status.error.None?
    ensures d.activation.Some? ==> d.activation.value.chain.hop <= d.activation.value.chain.maxHops
  {
    var denied := Deny(opts, intent);
    Draft(Status(intent.commandID, denied, sequence, observedAt, intent.chain),
          if denied.Some? then None else Some(ActivationFor(opts.routes[intent.command], intent, observedAt)))
  }

  // ---------- the machine ----------

  /** The promise chain of one claim: create, store the status, drop the claim, settle. */
  datatype Stage =
    | Queued | Threw | Made(draft: Draft) | Stored(draft: Draft) | Rejected | Resolved(draft: Draft)

  datatype Job = Job(opts: Options, intent: Intent, stage: Stage)

  datatype Outcome = Failed | Answered(status: Status, created: bool, activation: Option<CommandActivation>)

  /** `statuses`, `claims` and `sequence` are the store's; `callers` names each call's command,
      `jobs` are the claims' promises, `waits` says which promise a call awaits. `makers` and
      `numbers` only record which job stored a status and which one drew a number. */
  datatype Sys = Sys(
    statuses: map<string, Status>, claims: map<string, nat>, sequence: nat,
    callers: map<nat, string>, jobs: map<nat, Job>, waits: map<nat, nat>, outcomes: map<nat, Outcome>,
    makers: map<string, nat>, numbers: map<nat, nat>)

  const START := Sys(map[], map[], 0, map[], map[], map[], map[], map[], map[])

  datatype Event =
    | Call(p: nat, opts: Options, intent: Intent)
    | Create(p: nat, observedAt: string, throws: bool)
    | StoreStatus(p: nat)
    | Settle(p: nat)
    | Resume(q: nat)

  predicate InFlight(stage: Stage) {
    stage.Queued? || stage.Threw? || stage.Made? || stage.Stored?
  }

  function DoCall(s: Sys, p: nat, opts: Options, intent: Intent): Sys {
    var id := intent.commandID;
    var t := s.(callers := s.callers[p := id]);
    if p in s.callers then s
    else if id in s.statuses then t.(outcomes := t.outcomes[p := Answered(s.statuses[id], false, None)])
    else if id in s.claims then t.(waits := t.waits[p := s.claims[id]])
    else t.(claims := t.claims[id := p], jobs := t.jobs[p := Job(opts, intent, Queued)], waits := t.waits[p := p])
  }

  function DoCreate(s: Sys, p: nat, observedAt: string, throws: bool): Sys {
    if p !in s.jobs || !s.jobs[p].stage.Queued? then s
    else if throws then s.(jobs := s.jobs[p := s.jobs[p].(stage := Threw)])
    else
      var draft := MakeDraft(s.jobs[p].opts, s.jobs[p].intent, observedAt, s.sequence + 1);
      s.(sequence := s.sequence + 1, numbers := s.numbers[s.sequence + 1 := p],
         jobs := s.jobs[p := s.jobs[p].(stage := Made(draft))])
  }

  function DoStore(s: Sys, p: nat): Sys {
    if p !in s.jobs || !s.jobs[p].stage.Made? then s
    else
      var draft := s.jobs[p].stage.draft;
      s.(statuses := s.statuses[s.jobs[p].intent.commandID := draft.status],
         makers := s.makers[s.jobs[p].intent.commandID := p],
         jobs := s.jobs[p := s.jobs[p].(stage := Stored(draft))])
  }

  function DoSettle(s: Sys, p: nat): Sys {
    if p !in s.jobs || !(s.jobs[p].stage.Stored? || s.jobs[p].stage.Threw?) then s
    else
      var stage := s.jobs[p].stage;
      s.(claims := s.claims - {s.jobs[p].intent.commandID},
         jobs := s.jobs[p := s.jobs[p].(stage := if stage.Stored? then Resolved(stage.draft) else Rejected)])
  }

  predicate CanResume(s: Sys, q: nat) {
    && q in s.waits && q !in s.outcomes && s.waits[q] in s.jobs
    && (s.jobs[s.waits[q]].stage.Rejected? || s.jobs[s.waits[q]].stage.Resolved?)
  }

  /** The owner of the claim is its creator and gets the activation; everyone else is a duplicate. */
  function OutcomeOf(s: Sys, q: nat): Outcome
    requires CanResume(s, q)
  {
    match s.jobs[s.waits[q]].stage
    case Resolved(draft) =>
      var created := s.waits[q] == q;
      Answered(draft.status, created, if created then draft.activation else None)
    case _ => Failed
  }

  function DoResume(s: Sys, q: nat): Sys {
    if CanResume(s, q) then s.(outcomes := s.outcomes[q := OutcomeOf(s, q)]) else s
  }

  function Do(s: Sys, e: Event): Sys {
    match e
    case Call(p, opts, intent) => DoCall(s, p, opts, intent)
    case Create(p, observedAt, throws) => DoCreate(s, p, observedAt, throws)
    case StoreStatus(p) => DoStore(s, p)
    case Settle(p) => DoSettle(s, p)
    case Resume(q) => DoResume(s, q)
  }

  function Exec(events: seq<Event>): Sys {
    if events == [] then START else Do(Exec(events[..|events| - 1]), events[|events| - 1])
  }

  // ---------- what every turn keeps ----------

  predicate HasDraft(stage: Stage) {
    stage.Made? || stage.Stored? || stage.Resolved?
  }

  predicate HasStored(job: Job, id: string) {
    (job.stage.Stored? || job.stage.Resolved?) && job.intent.commandID == id
  }

  /** One job: registered while in flight; its draft is what the create made, under a number of its own;
      once stored, it is the one behind the command's status. */
  predicate JobOk(s: Sys, p: nat, job: Job) {
    var id := job.intent.commandID;
    && p in s.callers && s.callers[p] == id && p in s.waits && s.waits[p] == p
    && (InFlight(job.stage) ==> id in s.claims && s.claims[id] == p)
    && (HasDraft(job.stage) ==> DraftOk(s, p, job, job.stage.draft))
    && (HasStored(job, id) ==> id in s.makers && s.makers[id] == p && id in s.statuses)
    && ((job.stage.Queued? || job.stage.Threw? || job.stage.Made?) ==> id !in s.statuses)
  }

  predicate DraftOk(s: Sys, p: nat, job: Job, draft: Draft) {
    && draft == MakeDraft(job.opts, job.intent, draft.status.observedAt, draft.status.sequence)
    && draft.status.sequence in s.numbers && s.numbers[draft.status.sequence] == p
  }

  ghost predicate JobsOk(s: Sys) {
    && (forall p :: p in s.jobs ==> JobOk(s, p, s.jobs[p]))
    && (forall n :: n in s.numbers ==> n <= s.sequence)
  }

  predicate ClaimOk(s: Sys, id: string, p: nat) {
    p in s.jobs && s.jobs[p].intent.commandID == id && InFlight(s.jobs[p].stage)
  }

  ghost predicate ClaimsOk(s: Sys) {
    forall id :: id in s.claims ==> ClaimOk(s, id, s.claims[id])
  }

  predicate StatusOk(s: Sys, id: string) {
    && id in s.statuses && id in s.makers && s.makers[id] in s.jobs
    && HasStored(s.jobs[s.makers[id]], id) && s.jobs[s.makers[id]].stage.draft.status == s.statuses[id]
  }

  ghost predicate StatusesOk(s: Sys) {
    forall id :: id in s.statuses ==> StatusOk(s, id)
  }

  predicate WaitOk(s: Sys, q: nat, p: nat) {
    q in s.callers && p in s.jobs && s.jobs[p].intent.commandID == s.callers[q]
  }

  predicate OutcomeOk(s: Sys, q: nat, o: Outcome) {
    && q in s.callers
    && (o.Failed? ==> q in s.waits && s.waits[q] in s.jobs && s.jobs[s.waits[q]].stage.Rejected?)
    && (o.Answered? ==>
          && s.callers[q] in s.statuses && o.status == s.statuses[s.callers[q]]
          && s.callers[q] in s.makers && (o.created <==> s.makers[s.callers[q]] == q)
          && (o.created ==>
                q in s.jobs && s.jobs[q].stage.Resolved? && s.jobs[q].stage.draft.activation == o.activation)
          && (!o.created ==> o.activation.None?))
  }

  ghost predicate CallsOk(s: Sys) {
    && (forall q :: q in s.waits ==> WaitOk(s, q, s.waits[q]))
    && (forall q :: q in s.outcomes ==> OutcomeOk(s, q, s.outcomes[q]))
  }

  ghost predicate Inv(s: Sys) {
    JobsOk(s) && ClaimsOk(s) && StatusesOk(s) && CallsOk(s)
  }

  predicate SameCall(a: Job, b: Job) {
    a.opts == b.opts && a.intent == b.intent
  }

  /** A status, once stored, is never changed or removed; a job keeps the options and the command it has. */
  ghost predicate Keeps(s: Sys, t: Sys) {
    && (forall id :: id in s.statuses ==> id in t.statuses && t.statuses[id] == s.statuses[id])
    && (forall p :: p in s.jobs ==> p in t.jobs && SameCall(s.jobs[p], t.jobs[p]))
  }

  // ---------- the steps that move one job on ----------

  /** `t` differs from `s` in the stage of job `p`, not yet settled, and perhaps in new statuses. */
  ghost predicate Moves(s: Sys, t: Sys, p: nat) {
    && t.callers == s.callers && t.waits == s.waits && t.outcomes == s.outcomes
    && p in s.jobs && !s.jobs[p].stage.Resolved? && !s.jobs[p].stage.Rejected?
    && t.jobs.Keys == s.jobs.Keys && SameCall(s.jobs[p], t.jobs[p])
    && (forall q :: q in s.jobs && q != p ==> t.jobs[q] == s.jobs[q])
    && Keeps(s, t)
    && (forall id :: id in s.statuses && id in s.makers ==> id in t.makers && t.makers[id] == s.makers[id])
  }

  lemma JobAt(s: Sys, p: nat)
    requires JobsOk(s) && p in s.jobs
    ensures JobOk(s, p, s.jobs[p])
  {
  }

  lemma KeepsAll(s: Sys)
    ensures Keeps(s, s)
  {
  }

  lemma MovesKeeps(s: Sys, t: Sys, p: nat)
    requires Moves(s, t, p)
    ensures Keeps(s, t) && t.jobs.Keys == s.jobs.Keys
  {
  }

  lemma CallsMoved(s: Sys, t: Sys, p: nat)
    requires CallsOk(s) && Moves(s, t, p)
    ensures CallsOk(t)
  {
    forall q | q in t.waits
      ensures WaitOk(t, q, t.waits[q])
    {
      assert WaitOk(s, q, s.waits[q]);
    }
    forall q | q in t.outcomes
      ensures OutcomeOk(t, q, t.outcomes[q])
    {
      assert OutcomeOk(s, q, s.outcomes[q]);
    }
  }

  lemma CreateKeepsInv(s: Sys, p: nat, observedAt: string, throws: bool)
    requires Inv(s)
    ensures Inv(DoCreate(s, p, observedAt, throws)) && Keeps(s, DoCreate(s, p, observedAt, throws))
    ensures DoCreate(s, p, observedAt, throws).jobs.Keys == s.jobs.Keys
  {
    hide MakeDraft, JobsOk, ClaimsOk, StatusesOk, CallsOk, Keeps, Moves;
    KeepsAll(s);
    if p in s.jobs && s.jobs[p].stage.Queued? {
      CreateKeepsJobs(s, p, observedAt, throws);
      CreateKeepsRest(s, p, observedAt, throws);
      CreateMoves(s, p, observedAt, throws);
      CallsMoved(s, DoCreate(s, p, observedAt, throws), p);
      MovesKeeps(s, DoCreate(s, p, observedAt, throws), p);
      hide DoCreate;
    }
  }

  lemma CreateMoves(s: Sys, p: nat, observedAt: string, throws: bool)
    requires p in s.jobs && s.jobs[p].stage.Queued?
    ensures Moves(s, DoCreate(s, p, observedAt, throws), p)
  {
    hide MakeDraft;
  }

  lemma CreateKeepsJobs(s: Sys, p: nat, observedAt: string, throws: bool)
    requires JobsOk(s) && p in s.jobs && s.jobs[p].stage.Queued?
    ensures JobsOk(DoCreate(s, p, observedAt, throws))
  {
    hide MakeDraft;
    var t := DoCreate(s, p, observedAt, throws);
    forall q | q in t.jobs
      ensures JobOk(t, q, t.jobs[q])
    {
      assert JobOk(s, q, s.jobs[q]);
    }
  }

  lemma CreateKeepsRest(s: Sys, p: nat, observedAt: string, throws: bool)
    requires ClaimsOk(s) && StatusesOk(s) && p in s.jobs && s.jobs[p].stage.Queued?
    ensures ClaimsOk(DoCreate(s, p, observedAt, throws)) && StatusesOk(DoCreate(s, p, observedAt, throws))
  {
    hide MakeDraft;
    var t := DoCreate(s, p, observedAt, throws);
    forall id | id in t.claims
      ensures ClaimOk(t, id, t.claims[id])
    {
      assert ClaimOk(s, id, s.claims[id]);
    }
    forall id | id in t.statuses
      ensures StatusOk(t, id)
    {
      assert StatusOk(s, id);
    }
  }

  lemma StoreKeepsInv(s: Sys, p: nat)
    requires Inv(s)
    ensures Inv(DoStore(s, p)) && Keeps(s, DoStore(s, p))
    ensures DoStore(s, p).jobs.Keys == s.jobs.Keys
  {
    hide JobsOk, ClaimsOk, StatusesOk, CallsOk, Keeps, Moves, JobOk;
    KeepsAll(s);
    if p in s.jobs && s.jobs[p].stage.Made? {
      JobAt(s, p);
      StoreKeepsJobs(s, p);
      StoreKeepsRest(s, p);
      StoreMoves(s, p);
      CallsMoved(s, DoStore(s, p), p);
      MovesKeeps(s, DoStore(s, p), p);
      hide DoStore;
    }
  }

  lemma StoreMoves(s: Sys, p: nat)
    requires p in s.jobs && JobOk(s, p, s.jobs[p]) && s.jobs[p].stage.Made? && StatusesOk(s)
    ensures Moves(s, DoStore(s, p), p)
  {
  }

  lemma StoreKeepsJobs(s: Sys, p: nat)
    requires JobsOk(s) && p in s.jobs && s.jobs[p].stage.Made?
    ensures JobsOk(DoStore(s, p))
  {
    var t := DoStore(s, p);
    assert JobOk(s, p, s.jobs[p]);
    forall q | q in t.jobs
      ensures JobOk(t, q, t.jobs[q])
    {
      assert JobOk(s, q, s.jobs[q]);
    }
  }

  lemma StoreKeepsRest(s: Sys, p: nat)
    requires ClaimsOk(s) && StatusesOk(s) && p in s.jobs && s.jobs[p].stage.Made?
    ensures ClaimsOk(DoStore(s, p)) && StatusesOk(DoStore(s, p))
  {
    var t := DoStore(s, p);
    forall id | id in t.claims
      ensures ClaimOk(t, id, t.claims[id])
    {
      assert ClaimOk(s, id, s.claims[id]);
    }
    forall id | id in t.statuses
      ensures StatusOk(t, id)
    {
      assert id in s.statuses ==> StatusOk(s, id);
    }
  }

  lemma SettleKeepsInv(s: Sys, p: nat)
    requires Inv(s)
    ensures Inv(DoSettle(s, p)) && Keeps(s, DoSettle(s, p))
    ensures DoSettle(s, p).jobs.Keys == s.jobs.Keys
  {
    hide JobsOk, ClaimsOk, StatusesOk, CallsOk, Keeps, Moves, JobOk;
    KeepsAll(s);
    if p in s.jobs && (s.jobs[p].stage.Stored? || s.jobs[p].stage.Threw?) {
      JobAt(s, p);
      SettleKeepsJobs(s, p);
      SettleKeepsRest(s, p);
      SettleMoves(s, p);
      CallsMoved(s, DoSettle(s, p), p);
      MovesKeeps(s, DoSettle(s, p), p);
      hide DoSettle;
    }
  }

  lemma SettleMoves(s: Sys, p: nat)
    requires p in s.jobs && (s.jobs[p].stage.Stored? || s.jobs[p].stage.Threw?)
    ensures Moves(s, DoSettle(s, p), p)
  {
  }

  lemma SettleKeepsJobs(s: Sys, p: nat)
    requires JobsOk(s) && p in s.jobs && (s.jobs[p].stage.Stored? || s.jobs[p].stage.Threw?)
    ensures JobsOk(DoSettle(s, p))
  {
    var t := DoSettle(s, p);
    assert JobOk(s, p, s.jobs[p]);
    forall q | q in t.jobs
      ensures JobOk(t, q, t.jobs[q])
    {
      assert JobOk(s, q, s.jobs[q]);
    }
  }

  lemma SettleKeepsRest(s: Sys, p: nat)
    requires ClaimsOk(s) && StatusesOk(s) && p in s.jobs && JobOk(s, p, s.jobs[p])
    requires (s.jobs[p].stage.Stored? || s.jobs[p].stage.Threw?)
    ensures ClaimsOk(DoSettle(s, p)) && StatusesOk(DoSettle(s, p))
  {
    var t := DoSettle(s, p);
    forall id | id in t.claims
      ensures ClaimOk(t, id, t.claims[id])
    {
      assert ClaimOk(s, id, s.claims[id]);
    }
    forall id | id in t.statuses
      ensures StatusOk(t, id)
    {
      assert StatusOk(s, id);
    }
  }

  // ---------- the steps that start and end a call ----------

  /** `t` is `s` with more callers, waits, outcomes and jobs; nothing that was there is different. */
  ghost predicate Adds(s: Sys, t: Sys) {
    && t.statuses == s.statuses && t.makers == s.makers && t.numbers == s.numbers && t.sequence == s.sequence
    && (forall q :: q in s.callers ==> q in t.callers && t.callers[q] == s.callers[q])
    && (forall q :: q in s.waits ==> q in t.waits && t.waits[q] == s.waits[q])
    && (forall q :: q in s.jobs ==> q in t.jobs && t.jobs[q] == s.jobs[q])
  }

  ghost predicate NewCalls(s: Sys, t: Sys) {
    && (forall q :: q in t.waits ==> (q in s.waits && t.waits[q] == s.waits[q]) || WaitOk(t, q, t.waits[q]))
    && (forall q :: q in t.outcomes ==>
          (q in s.outcomes && t.outcomes[q] == s.outcomes[q]) || OutcomeOk(t, q, t.outcomes[q]))
  }

  lemma CallsAdded(s: Sys, t: Sys)
    requires CallsOk(s) && Adds(s, t) && NewCalls(s, t)
    ensures CallsOk(t)
  {
    forall q | q in t.waits
      ensures WaitOk(t, q, t.waits[q])
    {
      assert q in s.waits ==> WaitOk(s, q, s.waits[q]);
    }
    forall q | q in t.outcomes
      ensures OutcomeOk(t, q, t.outcomes[q])
    {
      assert q in s.outcomes ==> OutcomeOk(s, q, s.outcomes[q]);
    }
  }

  lemma StatusesAdded(s: Sys, t: Sys)
    requires StatusesOk(s) && Adds(s, t)
    ensures StatusesOk(t)
  {
    forall id | id in t.statuses
      ensures StatusOk(t, id)
    {
      assert StatusOk(s, id);
    }
  }

  lemma JobsAdded(s: Sys, t: Sys)
    requires JobsOk(s) && Adds(s, t)
    requires forall id :: id in s.claims ==> id in t.claims && t.claims[id] == s.claims[id]
    requires forall q :: q in t.jobs && q !in s.jobs ==> JobOk(t, q, t.jobs[q])
    ensures JobsOk(t)
  {
    forall q | q in t.jobs
      ensures JobOk(t, q, t.jobs[q])
    {
      assert q in s.jobs ==> JobOk(s, q, s.jobs[q]);
    }
  }

  lemma ClaimsAdded(s: Sys, t: Sys)
    requires ClaimsOk(s) && Adds(s, t)
    requires forall id :: id in t.claims ==>
      (id in s.claims && t.claims[id] == s.claims[id]) || ClaimOk(t, id, t.claims[id])
    ensures ClaimsOk(t)
  {
    forall id | id in t.claims
      ensures ClaimOk(t, id, t.claims[id])
    {
      assert id in s.claims ==> ClaimOk(s, id, s.claims[id]);
    }
  }

  lemma ResumeKeepsInv(s: Sys, q: nat)
    requires Inv(s)
    ensures Inv(DoResume(s, q)) && Keeps(s, DoResume(s, q))
    ensures DoResume(s, q).jobs.Keys == s.jobs.Keys
  {
    hide JobsOk, ClaimsOk, StatusesOk, CallsOk, Adds, NewCalls, Keeps, CanResume, OutcomeOf;
    KeepsAll(s);
    if CanResume(s, q) {
      var t := DoResume(s, q);
      OutcomeMade(s, q);
      OutcomeAdds(s, t, q, OutcomeOf(s, q));
      JobsAdded(s, t);
      ClaimsAdded(s, t);
      StatusesAdded(s, t);
      CallsAdded(s, t);
    }
  }

  lemma OutcomeAdds(s: Sys, t: Sys, q: nat, o: Outcome)
    requires t == s.(outcomes := s.outcomes[q := o]) && OutcomeOk(t, q, o)
    ensures Adds(s, t) && NewCalls(s, t) && Keeps(s, t)
  {
    hide OutcomeOk, WaitOk;
  }

  lemma OutcomeMade(s: Sys, q: nat)
    requires JobsOk(s) && StatusesOk(s) && CallsOk(s) && CanResume(s, q)
    ensures OutcomeOk(DoResume(s, q), q, OutcomeOf(s, q))
  {
    var p := s.waits[q];
    assert JobOk(s, p, s.jobs[p]) && WaitOk(s, q, p);
    hide JobsOk, CallsOk;
    if s.jobs[p].stage.Resolved? {
      assert StatusOk(s, s.jobs[p].intent.commandID);
    }
  }

  lemma CallKeepsInv(s: Sys, p: nat, opts: Options, intent: Intent)
    requires Inv(s)
    ensures Inv(DoCall(s, p, opts, intent)) && Keeps(s, DoCall(s, p, opts, intent))
    ensures StartsOnly(s, DoCall(s, p, opts, intent), p, Job(opts, intent, Queued))
  {
    hide JobsOk, ClaimsOk, StatusesOk, CallsOk, Adds, NewCalls, Keeps, StartsOnly;
    KeepsAll(s);
    StartsNothing(s, p, Job(opts, intent, Queued));
    if p !in s.callers {
      var t := DoCall(s, p, opts, intent);
      NewCaller(s, p);
      CallAdds(s, p, opts, intent);
      JobsAdded(s, t);
      ClaimsAdded(s, t);
      StatusesAdded(s, t);
      CallsAdded(s, t);
      AddsKeeps(s, t);
      hide DoCall;
    }
  }

  /** The one job `t` may have and `s` not is the given one. */
  ghost predicate StartsOnly(s: Sys, t: Sys, p: nat, job: Job) {
    forall q :: q in t.jobs && q !in s.jobs ==> q == p && t.jobs[q] == job
  }

  lemma StartsNothing(s: Sys, p: nat, job: Job)
    ensures StartsOnly(s, s, p, job)
  {
  }

  lemma AddsKeeps(s: Sys, t: Sys)
    requires Adds(s, t)
    ensures Keeps(s, t)
  {
  }

  /** A caller not seen before owns nothing and awaits nothing. */
  lemma NewCaller(s: Sys, p: nat)
    requires JobsOk(s) && CallsOk(s) && p !in s.callers
    ensures p !in s.jobs && p !in s.waits && p !in s.outcomes
  {
    assert p in s.jobs ==> JobOk(s, p, s.jobs[p]);
    assert p in s.waits ==> WaitOk(s, p, s.waits[p]);
    assert p in s.outcomes ==> OutcomeOk(s, p, s.outcomes[p]);
  }

  lemma CallAdds(s: Sys, p: nat, opts: Options, intent: Intent)
    requires ClaimsOk(s) && StatusesOk(s)
    requires p !in s.callers && p !in s.jobs && p !in s.waits && p !in s.outcomes
    ensures var t := DoCall(s, p, opts, intent);
      && Adds(s, t) && NewCalls(s, t)
      && (forall id :: id in s.claims ==> id in t.claims && t.claims[id] == s.claims[id])
      && StartsOnly(s, t, p, Job(opts, intent, Queued))
      && (forall q :: q in t.jobs && q !in s.jobs ==> JobOk(t, q, t.jobs[q]))
      && (forall id :: id in t.claims ==>
            (id in s.claims && t.claims[id] == s.claims[id]) || ClaimOk(t, id, t.claims[id]))
  {
    var id := intent.commandID;
    if id in s.statuses {
      assert StatusOk(s, id);
      FoundAdds(s, p, opts, intent);
    } else if id in s.claims {
      assert ClaimOk(s, id, s.claims[id]);
      JoinedAdds(s, p, opts, intent);
    } else {
      OwnerAdds(s, p, opts, intent);
    }
    hide DoCall;
  }

  lemma FoundAdds(s: Sys, p: nat, opts: Options, intent: Intent)
    requires intent.commandID in s.statuses && StatusOk(s, intent.commandID)
    requires p !in s.callers && p !in s.jobs && p !in s.waits && p !in s.outcomes
    ensures var t := DoCall(s, p, opts, intent);
      Adds(s, t) && NewCalls(s, t) && t.claims == s.claims && t.jobs == s.jobs
  {
    var t := DoCall(s, p, opts, intent);
    assert OutcomeOk(t, p, t.outcomes[p]);
    hide OutcomeOk, WaitOk;
  }

  lemma JoinedAdds(s: Sys, p: nat, opts: Options, intent: Intent)
    requires intent.commandID !in s.statuses && intent.commandID in s.claims
    requires ClaimOk(s, intent.commandID, s.claims[intent.commandID])
    requires p !in s.callers && p !in s.jobs && p !in s.waits && p !in s.outcomes
    ensures var t := DoCall(s, p, opts, intent);
      Adds(s, t) && NewCalls(s, t) && t.claims == s.claims && t.jobs == s.jobs
  {
    var t := DoCall(s, p, opts, intent);
    assert WaitOk(t, p, t.waits[p]);
    hide OutcomeOk, WaitOk;
  }

  lemma OwnerAdds(s: Sys, p: nat, opts: Options, intent: Intent)
    requires intent.commandID !in s.statuses && intent.commandID !in s.claims
    requires p !in s.callers && p !in s.jobs && p !in s.waits && p !in s.outcomes
    ensures var t := DoCall(s, p, opts, intent);
      && Adds(s, t) && NewCalls(s, t) && t.claims == s.claims[intent.commandID := p]
      && t.jobs == s.jobs[p := Job(opts, intent, Queued)] && JobOk(t, p, t.jobs[p]) && ClaimOk(t, intent.commandID, p)
  {
    var t := DoCall(s, p, opts, intent);
    assert WaitOk(t, p, t.waits[p]);
    hide OutcomeOk, WaitOk;
  }

  lemma DoKeepsInv(s: Sys, e: Event)
    requires Inv(s)
    ensures Inv(Do(s, e)) && Keeps(s, Do(s, e))
    ensures e.Call? ==> StartsOnly(s, Do(s, e), e.p, Job(e.opts, e.intent, Queued))
    ensures !e.Call? ==> Do(s, e).jobs.Keys == s.jobs.Keys
  {
    hide Inv, Keeps, StartsOnly, DoCall, DoCreate, DoStore, DoSettle, DoResume;
    match e
    case Call(p, opts, intent) => CallKeepsInv(s, p, opts, intent);
    case Create(p, observedAt, throws) => CreateKeepsInv(s, p, observedAt, throws);
    case StoreStatus(p) => StoreKeepsInv(s, p);
    case Settle(p) => SettleKeepsInv(s, p);
    case Resume(q) => ResumeKeepsInv(s, q);
  }

  lemma {:induction false} ExecKeepsInv(events: seq<Event>)
    ensures Inv(Exec(events))
  {
    hide Do;
    if events == [] {
    } else {
      hide Inv;
      ExecKeepsInv(events[..|events| - 1]);
      DoKeepsInv(Exec(events[..|events| - 1]), events[|events| - 1]);
    }
  }

  // ---------- the results ----------

  /** A stored status is the command's for good. */
  lemma {:induction false} StatusIsFinal(events: seq<Event>, more: seq<Event>, id: string)
    requires id in Exec(events).statuses
    ensures id in Exec(events + more).statuses && Exec(events + more).statuses[id] == Exec(events).statuses[id]
    decreases |more|
  {
    hide Do, Inv, Exec;
    if more == [] {
      assert events + more == events;
    } else {
      var front, last := more[..|more| - 1], more[|more| - 1];
      StatusIsFinal(events, front, id);
      ExecNext(events + front, last);
      assert events + more == events + front + [last];
      ExecKeepsInv(events + front);
      DoKeepsInv(Exec(events + front), last);
    }
  }

  lemma ExecNext(events: seq<Event>, last: Event)
    ensures Exec(events + [last]) == Do(Exec(events), last)
  {
    assert (events + [last])[..|events|] == events;
  }

  /** Whoever succeeds for one command gets its one stored status; among them at most one is its creator. */
  lemma AnswersAgree(s: Sys, p: nat, q: nat)
    requires Inv(s) && p in s.outcomes && q in s.outcomes && s.outcomes[p].Answered? && s.outcomes[q].Answered?
    requires p in s.callers && q in s.callers && s.callers[p] == s.callers[q]
    ensures s.callers[p] in s.statuses && s.outcomes[p].status == s.outcomes[q].status == s.statuses[s.callers[p]]
    ensures s.outcomes[p].created && s.outcomes[q].created ==> p == q
    ensures s.outcomes[p].activation.Some? && s.outcomes[q].activation.Some? ==> p == q
  {
    hide JobsOk, ClaimsOk, StatusesOk;
    assert OutcomeOk(s, p, s.outcomes[p]) && OutcomeOk(s, q, s.outcomes[q]);
  }

  /** All callers of one command that succeed see the one stored status, in every interleaving and
      whatever creates fail in between; among them at most one is its creator. */
  lemma OneStatusOneCreator(events: seq<Event>, p: nat, q: nat)
    requires var s := Exec(events);
      && p in s.outcomes && q in s.outcomes && s.outcomes[p].Answered? && s.outcomes[q].Answered?
      && p in s.callers && q in s.callers && s.callers[p] == s.callers[q]
    ensures var s := Exec(events);
      && s.callers[p] in s.statuses && s.outcomes[p].status == s.outcomes[q].status == s.statuses[s.callers[p]]
      && (s.outcomes[p].created && s.outcomes[q].created ==> p == q)
      && (s.outcomes[p].activation.Some? && s.outcomes[q].activation.Some? ==> p == q)
  {
    hide Exec, Inv;
    ExecKeepsInv(events);
    AnswersAgree(Exec(events), p, q);
  }

  /** A job was started by a call of the run, with that call's options and command. */
  lemma {:induction false} JobWasCalled(events: seq<Event>, p: nat)
    requires p in Exec(events).jobs
    ensures Call(p, Exec(events).jobs[p].opts, Exec(events).jobs[p].intent) in events
  {
    hide Inv, Do;
    if events == [] {
    } else {
      var front, last := events[..|events| - 1], events[|events| - 1];
      ExecKeepsInv(front);
      DoKeepsInv(Exec(front), last);
      if p in Exec(front).jobs {
        JobWasCalled(front, p);
      }
    }
  }

  /** Every answer is the decision on one call of the run, its command's creator: the status is without
      error exactly if that call was permitted by the options it was made with, and only that caller
      gets an activation, the one of its own command and route, one hop on. */
  lemma AnswerIsOneCallsDecision(events: seq<Event>, q: nat)
    requires q in Exec(events).outcomes && Exec(events).outcomes[q].Answered?
    ensures var s := Exec(events);
      var answer := s.outcomes[q];
      && q in s.callers && s.callers[q] in s.makers && s.makers[s.callers[q]] in s.jobs
      && var maker := s.makers[s.callers[q]];
      var job := s.jobs[maker];
      && Call(maker, job.opts, job.intent) in events && job.intent.commandID == s.callers[q]
      && answer.status.error == Deny(job.opts, job.intent)
      && (answer.status.error.None? <==> Permitted(job.opts, job.intent))
      && (answer.activation.Some? <==> q == maker && Permitted(job.opts, job.intent))
      && (answer.activation.Some? ==>
            && answer.activation.value
               == ActivationFor(job.opts.routes[job.intent.command], job.intent, answer.status.observedAt)
            && job.intent.chain.hop < answer.activation.value.chain.hop <= job.intent.chain.maxHops)
  {
    hide Exec, Deny;
    ExecKeepsInv(events);
    var s := Exec(events);
    assert OutcomeOk(s, q, s.outcomes[q]);
    var id := s.callers[q];
    assert StatusOk(s, id) && JobOk(s, s.makers[id], s.jobs[s.makers[id]]);
    hide Inv;
    JobWasCalled(events, s.makers[id]);
  }

  predicate Created(o: Outcome) {
    o.Answered? && o.created
  }

  /** Once every call has ended, each command with a status has exactly one creator, and that caller
      holds the activation if and only if the command was accepted. */
  lemma ExactlyOneCreator(events: seq<Event>, id: string)
    requires id in Exec(events).statuses
    requires forall q :: q in Exec(events).callers ==> q in Exec(events).outcomes
    ensures var s := Exec(events);
      && id in s.makers && s.makers[id] in s.outcomes && s.outcomes[s.makers[id]].Answered?
      && s.outcomes[s.makers[id]].created && s.outcomes[s.makers[id]].status == s.statuses[id]
      && (s.outcomes[s.makers[id]].activation.Some? <==> s.statuses[id].error.None?)
      && forall q :: q in s.outcomes && q in s.callers && s.callers[q] == id && Created(s.outcomes[q]) ==>
           q == s.makers[id]
  {
    hide Exec, ClaimsOk;
    ExecKeepsInv(events);
    var s := Exec(events);
    var p := s.makers[id];
    assert StatusOk(s, id) && JobOk(s, p, s.jobs[p]);
    assert OutcomeOk(s, p, s.outcomes[p]);
    forall q | q in s.outcomes && q in s.callers && s.callers[q] == id && Created(s.outcomes[q])
      ensures q == p
    {
      assert OutcomeOk(s, q, s.outcomes[q]);
    }
  }

  /** No two commands are stored under the same sequence number. */
  lemma DistinctSequences(events: seq<Event>, a: string, b: string)
    requires a in Exec(events).statuses && b in Exec(events).statuses && a != b
    ensures Exec(events).statuses[a].sequence != Exec(events).statuses[b].sequence
  {
    hide Exec, ClaimsOk, CallsOk;
    ExecKeepsInv(events);
    var s := Exec(events);
    assert StatusOk(s, a) && StatusOk(s, b);
    assert JobOk(s, s.makers[a], s.jobs[s.makers[a]]) && JobOk(s, s.makers[b], s.jobs[s.makers[b]]);
  }

  // ---------- the store itself ----------

  /** The store and its pending promises; each method is one turn of the event loop. */
  class CommandStore {
    var statuses: map<string, Status>
    var claims: map<string, nat>
    var sequence: nat
    var jobs: map<nat, Job>
    var waits: map<nat, nat>
    var outcomes: map<nat, Outcome>
    ghost var callers: map<nat, string>
    ghost var makers: map<string, nat>
    ghost var numbers: map<nat, nat>

    ghost function State(): Sys
      reads this
    {
      Sys(statuses, claims, sequence, callers, jobs, waits, outcomes, makers, numbers)
    }

    /** What holds between any two turns; AnswersAgree says what it means for the callers. */
    ghost predicate Valid()
      reads this
    {
      Inv(State())
    }

    constructor ()
      ensures Valid() && State() == START
    {
      statuses, claims, sequence, jobs, waits, outcomes := map[], map[], 0, map[], map[], map[];
      callers, makers, numbers := map[], map[], map[];
    }

    /** The command has its status: the answer needs no await. */
    method AnswerStored(p: nat, opts: Options, intent: Intent)
      requires Valid() && p !in callers && intent.commandID in statuses
      modifies this
      ensures State() == DoCall(old(State()), p, opts, intent)
      ensures Valid()
    {
      hide Inv, Keeps;
      ghost var before := State();
      callers := callers[p := intent.commandID];
      outcomes := outcomes[p := Answered(statuses[intent.commandID], false, None)];
      assert State() == DoCall(before, p, opts, intent);
      CallKeepsInv(before, p, opts, intent);
    }

    /** The command's promise is in flight: the call awaits it. */
    method AwaitClaim(p: nat, opts: Options, intent: Intent)
      requires Valid() && p !in callers && intent.commandID !in statuses && intent.commandID in claims
      modifies this
      ensures State() == DoCall(old(State()), p, opts, intent)
      ensures Valid()
    {
      hide Inv, Keeps;
      ghost var before := State();
      callers := callers[p := intent.commandID];
      waits := waits[p := claims[intent.commandID]];
      assert State() == DoCall(before, p, opts, intent);
      CallKeepsInv(before, p, opts, intent);
    }

    /** The call makes the command's promise and awaits it. */
    method StartClaim(p: nat, opts: Options, intent: Intent)
      requires Valid() && p !in callers && intent.commandID !in statuses && intent.commandID !in claims
      modifies this
      ensures State() == DoCall(old(State()), p, opts, intent)
      ensures Valid()
    {
      hide Inv, Keeps;
      ghost var before := State();
      callers := callers[p := intent.commandID];
      jobs := jobs[p := Job(opts, intent, Queued)];
      claims := claims[intent.commandID := p];
      waits := waits[p := p];
      assert State() == DoCall(before, p, opts, intent);
      CallKeepsInv(before, p, opts, intent);
    }

    /** A call up to its first await. */
    method Claim(p: nat, opts: Options, intent: Intent)
      requires Valid() && p !in callers
      modifies this
      ensures State() == DoCall(old(State()), p, opts, intent)
      ensures Valid()
    {
      hide Inv, DoCall;
      if intent.commandID in statuses {
        AnswerStored(p, opts, intent);
      } else if intent.commandID in claims {
        AwaitClaim(p, opts, intent);
      } else {
        StartClaim(p, opts, intent);
      }
    }

    method NextSequence() returns (n: nat)
      modifies this`sequence
      ensures n == sequence == old(sequence) + 1
    {
      sequence := sequence + 1;
      n := sequence;
    }

    /** The create callback's turn: it throws before it draws a number, or makes a draft. */
    method RunCreate(p: nat, observedAt: string, throws: bool)
      requires Valid() && p in jobs && jobs[p].stage.Queued?
      modifies this
      ensures State() == DoCreate(old(State()), p, observedAt, throws)
      ensures Valid()
    {
      hide Inv, Keeps, MakeDraft;
      ghost var before := State();
      if throws {
        jobs := jobs[p := jobs[p].(stage := Threw)];
      } else {
        var n := NextSequence();
        numbers := numbers[n := p];
        jobs := jobs[p := jobs[p].(stage := Made(MakeDraft(jobs[p].opts, jobs[p].intent, observedAt, n)))];
      }
      assert State() == DoCreate(before, p, observedAt, throws);
      CreateKeepsInv(before, p, observedAt, throws);
    }

    method StoreMade(p: nat)
      requires Valid() && p in jobs && jobs[p].stage.Made?
      modifies this
      ensures State() == DoStore(old(State()), p)
      ensures Valid()
    {
      hide Inv, Keeps;
      ghost var before := State();
      var draft := jobs[p].stage.draft;
      statuses := statuses[jobs[p].intent.commandID := draft.status];
      makers := makers[jobs[p].intent.commandID := p];
      jobs := jobs[p := jobs[p].(stage := Stored(draft))];
      assert State() == DoStore(before, p);
      StoreKeepsInv(before, p);
    }

    /** `finally`: the claim goes, and everyone awaiting the promise can resume. */
    method Finish(p: nat)
      requires Valid() && p in jobs && (jobs[p].stage.Stored? || jobs[p].stage.Threw?)
      modifies this
      ensures State() == DoSettle(old(State()), p)
      ensures Valid()
    {
      hide Inv, Keeps;
      ghost var before := State();
      claims := claims - {jobs[p].intent.commandID};
      var stage := jobs[p].stage;
      jobs := jobs[p := jobs[p].(stage := if stage.Stored? then Resolved(stage.draft) else Rejected)];
      assert State() == DoSettle(before, p);
      SettleKeepsInv(before, p);
    }

    /** A call after its await: the one that owns the promise is the creator. */
    method Resume(q: nat)
      requires Valid() && CanResume(State(), q)
      modifies this`outcomes
      ensures State() == DoResume(old(State()), q)
      ensures Valid()
    {
      hide Inv, Keeps;
      ghost var before := State();
      var owner := waits[q];
      var stage := jobs[owner].stage;
      outcomes := outcomes[q :=
        if stage.Resolved? then
          Answered(stage.draft.status, owner == q, if owner == q then stage.draft.activation else None)
        else Failed];
      assert State() == DoResume(before, q);
      ResumeKeepsInv(before, q);
    }
  }
}
