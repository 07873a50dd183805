/** Command claims go on: what a call left alone is answered and leaves, and that no waiting call is
    ever stuck. */
module ClaimProgress {
  import opened Records
  import opened CommandClaims

  lemma ExecJoin(events: seq<Event>, more: seq<Event>, last: Event)
    ensures Exec(events + (more + [last])) == Do(Exec(events + more), last)
  {
    assert events + (more + [last]) == events + more + [last];
    ExecNext(events + more, last);
  }

  // ---------- the turns a promise has left ----------

  function Rest(p: nat, q: nat, observedAt: string, throws: bool): seq<Event> {
    [Create(p, observedAt, throws)] + [StoreStatus(p)] + [Settle(p)] + [Resume(q)]
  }

  function AfterRest(s: Sys, p: nat, q: nat, observedAt: string, throws: bool): Sys {
    DoResume(DoSettle(DoStore(DoCreate(s, p, observedAt, throws), p), p), q)
  }

  lemma RestRuns(events: seq<Event>, p: nat, q: nat, observedAt: string, throws: bool)
    ensures Exec(events + Rest(p, q, observedAt, throws)) == AfterRest(Exec(events), p, q, observedAt, throws)
  {
    hide Exec, DoCreate, DoStore, DoSettle, DoResume;
    var one := [Create(p, observedAt, throws)];
    ExecNext(events, one[0]);
    ExecJoin(events, one, StoreStatus(p));
    ExecJoin(events, one + [StoreStatus(p)], Settle(p));
    ExecJoin(events, one + [StoreStatus(p)] + [Settle(p)], Resume(q));
  }

  // ---------- one promise, turn by turn ----------

  /** A turn of promise `p` leaves the calls as they are and gives the promise this stage. */
  ghost predicate Turns(s: Sys, t: Sys, p: nat, stage: Stage) {
    && t.callers == s.callers && t.waits == s.waits && t.outcomes == s.outcomes
    && p in s.jobs && p in t.jobs && t.jobs[p] == s.jobs[p].(stage := stage)
  }

  lemma CreateTurn(s: Sys, p: nat, observedAt: string, throws: bool)
    requires p in s.jobs
    ensures var job := s.jobs[p];
      Turns(s, DoCreate(s, p, observedAt, throws), p,
            if !job.stage.Queued? then job.stage else if throws then Threw
            else Made(MakeDraft(job.opts, job.intent, observedAt, s.sequence + 1)))
  {
    hide MakeDraft;
  }

  lemma StoreTurn(s: Sys, p: nat)
    requires p in s.jobs
    ensures var stage := s.jobs[p].stage;
      Turns(s, DoStore(s, p), p, if stage.Made? then Stored(stage.draft) else stage)
  {
  }

  lemma SettleTurn(s: Sys, p: nat)
    requires p in s.jobs
    ensures var stage := s.jobs[p].stage;
      Turns(s, DoSettle(s, p), p,
            if stage.Stored? then Resolved(stage.draft) else if stage.Threw? then Rejected else stage)
  {
  }

  /** The stage a promise ends in. */
  function Ends(s: Sys, job: Job, observedAt: string, throws: bool): Stage {
    match job.stage
    case Queued => if throws then Rejected else Resolved(MakeDraft(job.opts, job.intent, observedAt, s.sequence + 1))
    case Threw => Rejected
    case Rejected => Rejected
    case Made(draft) => Resolved(draft)
    case Stored(draft) => Resolved(draft)
    case Resolved(draft) => Resolved(draft)
  }

  /** A call waiting on the promise is answered by the stage it ends in. */
  lemma Resumes(s: Sys, p: nat, q: nat, observedAt: string, throws: bool)
    requires p in s.jobs && q in s.waits && s.waits[q] == p && q !in s.outcomes
    ensures var t := AfterRest(s, p, q, observedAt, throws);
      var stage := Ends(s, s.jobs[p], observedAt, throws);
      && t.callers == s.callers
      && t.outcomes == s.outcomes[q := if stage.Rejected? then Failed
           else Answered(stage.draft.status, p == q, if p == q then stage.draft.activation else None)]
  {
    hide DoCreate, DoStore, DoSettle, MakeDraft;
    var u := DoCreate(s, p, observedAt, throws);
    CreateTurn(s, p, observedAt, throws);
    var v := DoStore(u, p);
    StoreTurn(u, p);
    SettleTurn(v, p);
  }

  lemma DraftSays(s: Sys, p: nat, observedAt: string, throws: bool)
    requires p in s.jobs && JobOk(s, p, s.jobs[p]) && Ends(s, s.jobs[p], observedAt, throws).Resolved?
    ensures var draft := Ends(s, s.jobs[p], observedAt, throws).draft;
      draft.activation.Some? <==> draft.status.error.None?
  {
    hide Deny, ActivationFor;
  }

  /** A call that waits can always be answered by its promise's remaining turns: it fails exactly if the
      create throws or has thrown, and otherwise gets the command's stored status, as creator exactly if
      the promise is its own, with an activation exactly if it is the creator of an accepted command. */
  lemma NeverStuck(events: seq<Event>, q: nat, observedAt: string, throws: bool)
    requires q in Exec(events).waits && q !in Exec(events).outcomes
    ensures var s := Exec(events);
      var p := s.waits[q];
      var t := Exec(events + Rest(p, q, observedAt, throws));
      && p in s.jobs && q in s.callers && q in t.outcomes
      && var stage := s.jobs[p].stage;
      && (t.outcomes[q].Failed? <==> stage.Threw? || stage.Rejected? || (stage.Queued? && throws))
      && (t.outcomes[q].Answered? ==>
            && s.callers[q] in t.statuses && t.outcomes[q].status == t.statuses[s.callers[q]]
            && (t.outcomes[q].created <==> p == q)
            && (t.outcomes[q].activation.Some? <==> p == q && t.outcomes[q].status.error.None?))
  {
    hide Exec, Inv, JobOk, MakeDraft, AfterRest;
    var s := Exec(events);
    ExecKeepsInv(events);
    Waits(s, q);
    var p := s.waits[q];
    RestRuns(events, p, q, observedAt, throws);
    ExecKeepsInv(events + Rest(p, q, observedAt, throws));
    Resumes(s, p, q, observedAt, throws);
    if Ends(s, s.jobs[p], observedAt, throws).Resolved? {
      DraftSays(s, p, observedAt, throws);
      Agrees(Exec(events + Rest(p, q, observedAt, throws)), q);
    }
  }

  lemma Waits(s: Sys, q: nat)
    requires Inv(s) && q in s.waits
    ensures q in s.callers && s.waits[q] in s.jobs && JobOk(s, s.waits[q], s.jobs[s.waits[q]])
  {
    hide ClaimsOk, StatusesOk;
    assert WaitOk(s, q, s.waits[q]);
  }

  lemma Agrees(t: Sys, q: nat)
    requires Inv(t) && q in t.outcomes && t.outcomes[q].Answered?
    ensures q in t.callers && t.callers[q] in t.statuses && t.outcomes[q].status == t.statuses[t.callers[q]]
  {
    hide JobsOk, ClaimsOk, StatusesOk;
    assert OutcomeOk(t, q, t.outcomes[q]);
  }

  // ---------- a call left alone ----------

  function Alone(p: nat, opts: Options, intent: Intent, observedAt: string, throws: bool): seq<Event> {
    [Call(p, opts, intent)] + Rest(p, p, observedAt, throws)
  }

  lemma AloneRuns(events: seq<Event>, p: nat, opts: Options, intent: Intent, observedAt: string, throws: bool)
    ensures Exec(events + Alone(p, opts, intent, observedAt, throws))
            == AfterRest(DoCall(Exec(events), p, opts, intent), p, p, observedAt, throws)
  {
    hide Exec, DoCall, AfterRest, Rest;
    ExecNext(events, Call(p, opts, intent));
    RestRuns(events + [Call(p, opts, intent)], p, p, observedAt, throws);
    assert events + [Call(p, opts, intent)] + Rest(p, p, observedAt, throws)
           == events + Alone(p, opts, intent, observedAt, throws);
  }

  /** What three turns of a queued promise leave in the store. */
  lemma QueuedLeaves(s: Sys, p: nat, observedAt: string, throws: bool)
    requires p in s.jobs && s.jobs[p].stage.Queued?
    ensures var t := DoSettle(DoStore(DoCreate(s, p, observedAt, throws), p), p);
      var job := s.jobs[p];
      && t.claims == s.claims - {job.intent.commandID}
      && t.sequence == s.sequence + (if throws then 0 else 1)
      && t.statuses == if throws then s.statuses else
           s.statuses[job.intent.commandID := MakeDraft(job.opts, job.intent, observedAt, s.sequence + 1).status]
  {
    hide MakeDraft;
  }

  lemma ResumeLeaves(s: Sys, q: nat)
    ensures var t := DoResume(s, q);
      t.claims == s.claims && t.sequence == s.sequence && t.statuses == s.statuses
  {
    hide CanResume, OutcomeOf;
  }

  lemma RestLeaves(s: Sys, p: nat, observedAt: string, throws: bool)
    requires p in s.jobs && s.jobs[p].stage.Queued?
    ensures var t := AfterRest(s, p, p, observedAt, throws);
      var job := s.jobs[p];
      && t.claims == s.claims - {job.intent.commandID}
      && t.sequence == s.sequence + (if throws then 0 else 1)
      && t.statuses == if throws then s.statuses else
           s.statuses[job.intent.commandID := MakeDraft(job.opts, job.intent, observedAt, s.sequence + 1).status]
  {
    hide MakeDraft, DoCreate, DoStore, DoSettle, DoResume;
    QueuedLeaves(s, p, observedAt, throws);
    ResumeLeaves(DoSettle(DoStore(DoCreate(s, p, observedAt, throws), p), p), p);
  }

  lemma CallOwns(s: Sys, p: nat, opts: Options, intent: Intent)
    requires p !in s.callers && intent.commandID !in s.statuses && intent.commandID !in s.claims
    ensures var t := DoCall(s, p, opts, intent);
      && p in t.jobs && t.jobs[p] == Job(opts, intent, Queued) && p in t.waits && t.waits[p] == p
      && t.claims == s.claims[intent.commandID := p] && t.sequence == s.sequence && t.statuses == s.statuses
      && t.outcomes == s.outcomes
  {
  }

  function Decided(opts: Options, intent: Intent, sequence: nat, observedAt: string): Outcome {
    var denied := Deny(opts, intent);
    var status := Status(intent.commandID, denied, sequence, observedAt, intent.chain);
    if denied.Some? then Answered(status, true, None)
    else Answered(status, true, Some(ActivationFor(opts.routes[intent.command], intent, observedAt)))
  }

  lemma DraftIsDecided(s: Sys, job: Job, observedAt: string, throws: bool)
    requires job.stage.Queued? && !throws
    ensures var draft := Ends(s, job, observedAt, throws).draft;
      Answered(draft.status, true, draft.activation) == Decided(job.opts, job.intent, s.sequence + 1, observedAt)
  {
    hide Deny, ActivationFor;
  }

  /** A new command's call, left alone: a create that throws leaves no trace but the failed call; any other
      draws the next number and leaves its decision as the command's status and answer, and no claim. */
  lemma AloneExactly(events: seq<Event>, p: nat, opts: Options, intent: Intent, observedAt: string, throws: bool)
    requires var s := Exec(events);
      p !in s.callers && intent.commandID !in s.statuses && intent.commandID !in s.claims
    ensures var s, t := Exec(events), Exec(events + Alone(p, opts, intent, observedAt, throws));
      var answer := Decided(opts, intent, s.sequence + 1, observedAt);
      && t.claims == s.claims
      && t.sequence == s.sequence + (if throws then 0 else 1)
      && t.statuses == (if throws then s.statuses else s.statuses[intent.commandID := answer.status])
      && t.outcomes == s.outcomes[p := if throws then Failed else answer]
  {
    hide Inv, Exec, Deny, ActivationFor, DoCall, AfterRest, Alone;
    var s := Exec(events);
    ExecKeepsInv(events);
    Unseen(s, p);
    AloneRuns(events, p, opts, intent, observedAt, throws);
    CallOwns(s, p, opts, intent);
    var u := DoCall(s, p, opts, intent);
    Resumes(u, p, p, observedAt, throws);
    RestLeaves(u, p, observedAt, throws);
    if !throws {
      DraftIsDecided(u, u.jobs[p], observedAt, throws);
    }
    assert s.claims[intent.commandID := p] - {intent.commandID} == s.claims;
  }

  lemma Unseen(s: Sys, p: nat)
    requires Inv(s) && p !in s.callers
    ensures p !in s.outcomes
  {
    NewCaller(s, p);
  }

  /** A call for a command that has its status is answered it at once, and changes nothing else. */
  lemma StoredExactly(events: seq<Event>, p: nat, opts: Options, intent: Intent)
    requires p !in Exec(events).callers && intent.commandID in Exec(events).statuses
    ensures var s, t := Exec(events), Exec(events + [Call(p, opts, intent)]);
      && t.outcomes == s.outcomes[p := Answered(s.statuses[intent.commandID], false, None)]
      && t.statuses == s.statuses && t.claims == s.claims && t.sequence == s.sequence
  {
    hide Exec;
    ExecNext(events, Call(p, opts, intent));
  }
}
