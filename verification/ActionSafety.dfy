/** What holds in every reachable state of the action protocol. */
module ActionSafety {
  import opened KeyValue
  import opened ActionKeys
  import opened ActionProtocol

  // ---------- the inductive invariant ----------

  /** Action items are written once, by a submitter. */
  ghost predicate ActionsWrittenOnce(h: Log) {
    forall i :: 0 <= i < |h| && IsActionKey(h[i].key) ==>
      LastRevision(h[..i], h[i].key) == 0 && IsSubmitted(h[i])
  }

  predicate IsSubmitted(w: Write<Stored>) {
    && w.value.Item? && w.value.body.ActionBody?
    && w.value == ActionItem(w.value.body.act) && ValidAction(w.value.body.act, w.key)
  }

  ghost predicate LogInv(h: Log) {
    && ActionsWrittenOnce(h)
    && forall a :: IsActionKey(a) ==> PhaseOf(h, a) != Broken
  }

  /** Processes between creating an "applying" receipt and closing it. */
  predicate Holds(p: Proc) {
    p.WritingState? || p.FinishingApplied? || p.ReadingLatest? || p.FinishingStale?
  }

  ghost predicate ProcInv(h: Log, p: Proc) {
    match p
    case ReadingState(req, act, rev) => ActionIs(h, req.actionKey, act, rev)
    case CreatingReceipt(req, act, rev, stateRev) => ActionIs(h, req.actionKey, act, rev)
    case WritingState(req, act, rev, receiptRev) =>
      req.Apply? && ActionIs(h, req.actionKey, act, rev) && PhaseOf(h, req.actionKey) == Pending(receiptRev)
    case ReadingLatest(req, act, rev, receiptRev) =>
      req.Apply? && ActionIs(h, req.actionKey, act, rev) && PhaseOf(h, req.actionKey) == Pending(receiptRev)
    case FinishingStale(req, act, rev, receiptRev, latestRev) =>
      req.Apply? && ActionIs(h, req.actionKey, act, rev) && PhaseOf(h, req.actionKey) == Pending(receiptRev)
    case FinishingApplied(req, act, rev, receiptRev, stateRev) =>
      && req.Apply? && ActionIs(h, req.actionKey, act, rev)
      && PhaseOf(h, req.actionKey) == Written(receiptRev, stateRev)
      && 0 < stateRev <= |h| && h[stateRev - 1].key == act.stateKey
    case Done(req, Success(receiptRev, stateRev)) =>
      && IsActionKey(req.actionKey)
      && PhaseOf(h, req.actionKey) == (if req.Apply? then Settled(stateRev) else Refused)
    case SubmitReading(sub) => Initial(p)
    case SubmitCreating(sub) => Initial(SubmitReading(sub))
    case _ => true
  }

  ghost predicate Exclusive(procs: seq<Proc>) {
    forall i, j :: 0 <= i < j < |procs| && Holds(procs[i]) && Holds(procs[j]) ==>
      procs[i].req.actionKey != procs[j].req.actionKey
  }

  ghost predicate Inv(s: Sys) {
    && LogInv(s.log)
    && (forall i :: 0 <= i < |s.procs| ==> ProcInv(s.log, s.procs[i]))
    && Exclusive(s.procs)
  }

  // ---------- one write ----------

  /** Every write some step can make. */
  ghost predicate Lawful(h: Log, w: Write<Stored>) {
    || OtherWrite(w)
    || (IsActionKey(w.key) && LastRevision(h, w.key) == 0 && IsSubmitted(w))
    || (exists a :: LawfulReducer(h, w, a))
  }

  ghost predicate LawfulReducer(h: Log, w: Write<Stored>, action: string) {
    && IsActionKey(action) && ByReducerOf(w, action)
    && (w.key == ReceiptKey(action) || IsStateKey(w.key))
    && PhaseOf(h + [w], action) != Broken
  }

  lemma ValidActionKeys(act: AppAction, key: string)
    requires ValidAction(act, key)
    ensures IsActionKey(key) && IsStateKey(act.stateKey)
  {
  }

  /** `rev` is what the phase says about the last revision of the action's receipt. */
  predicate Tracks(phase: Phase, rev: nat) {
    && (phase.Fresh? <==> rev == 0)
    && (phase.Pending? || phase.Written? ==> rev == phase.receiptRev)
  }

  lemma AdvanceTracks(h: Log, phase: Phase, w: Write<Stored>, action: string, rev: nat)
    requires phase != Broken && Tracks(phase, rev) && Advance(h, phase, w, action) != Broken
    ensures Tracks(Advance(h, phase, w, action), if w.key == ReceiptKey(action) then |h| + 1 else rev)
  {
    hide ReceiptKey, StateWriteAllowed;
  }

  lemma NothingTracked(action: string)
    ensures Tracks(PhaseOf([], action), LastRevision<Stored>([], ReceiptKey(action)))
  {
    hide ReceiptKey;
  }

  lemma {:induction false} PhaseTracksReceipt(h: Log, action: string)
    requires PhaseOf(h, action) != Broken
    ensures Tracks(PhaseOf(h, action), LastRevision(h, ReceiptKey(action)))
  {
    hide ReceiptKey, PhaseOf, LastRevision, Advance, Tracks;
    if h == [] {
      NothingTracked(action);
    } else {
      var h0, w := h[..|h| - 1], h[|h| - 1];
      assert h == h0 + [w];
      PhaseAppend(h0, w, action);
      LastRevisionAppend(h0, w, ReceiptKey(action));
      BrokenStays(h0, w, action);
      PhaseTracksReceipt(h0, action);
      AdvanceTracks(h0, PhaseOf(h0, action), w, action, LastRevision(h0, ReceiptKey(action)));
    }
  }

  lemma BrokenStays(h: Log, w: Write<Stored>, action: string)
    ensures Advance(h, Broken, w, action) == Broken
  {
    hide ReceiptKey, StateWriteAllowed;
  }

  /** A lawful write never touches the receipt of an action it is not made for, and never rewrites
      an action item. */
  lemma LawfulElsewhere(h: Log, w: Write<Stored>, action: string)
    requires Lawful(h, w) && IsActionKey(action)
    ensures w.key == ReceiptKey(action) ==> ByReducerOf(w, action)
    ensures w.key == action ==> LastRevision(h, action) == 0
  {
    hide ReceiptKey, ValidAction, ActionKey, PhaseOf, LastRevision;
    KeysDisjoint(w.key);
    assert IsReceiptKey(ReceiptKey(action));
    if a :| LawfulReducer(h, w, a) && w.key == ReceiptKey(a) {
      assert IsReceiptKey(w.key);
      if w.key == ReceiptKey(action) {
        ReceiptKeyInjective(a, action);
      }
    }
  }

  lemma LawfulKeepsLog(h: Log, w: Write<Stored>)
    requires LogInv(h) && Lawful(h, w)
    ensures LogInv(h + [w])
  {
    hide ReceiptKey, ValidAction, ActionKey, PhaseOf, LastRevision;
    var t := h + [w];
    forall i | 0 <= i < |t| && IsActionKey(t[i].key)
      ensures LastRevision(t[..i], t[i].key) == 0 && IsSubmitted(t[i])
    {
      if i < |h| {
        assert t[..i] == h[..i];
      } else {
        assert t[..i] == h;
        KeysDisjoint(w.key);
        assert forall a :: LawfulReducer(h, w, a) && w.key == ReceiptKey(a) ==> IsReceiptKey(w.key);
      }
    }
    forall a | IsActionKey(a)
      ensures PhaseOf(t, a) != Broken
    {
      PhaseAppend(h, w, a);
      LawfulElsewhere(h, w, a);
    }
  }

  lemma ActionStays(h: Log, w: Write<Stored>, action: string, act: AppAction, rev: nat)
    requires LogInv(h) && Lawful(h, w) && ActionIs(h, action, act, rev)
    ensures ActionIs(h + [w], action, act, rev) && IsActionKey(action)
  {
    hide ReceiptKey, ValidAction, ActionKey, PhaseOf, LastRevision, Lawful, LogInv;
    ValidActionKeys(act, action);
    LawfulElsewhere(h, w, action);
    LastRevisionAppend(h, w, action);
  }

  lemma PhaseStays(h: Log, w: Write<Stored>, action: string)
    requires Lawful(h, w) && IsActionKey(action) && !ByReducerOf(w, action)
    ensures PhaseOf(h + [w], action) == PhaseOf(h, action)
  {
    hide ReceiptKey, PhaseOf, Lawful, StateWriteAllowed;
    LawfulElsewhere(h, w, action);
    PhaseAppend(h, w, action);
  }

  lemma FinalPhaseStays(h: Log, w: Write<Stored>, action: string)
    requires LogInv(h) && Lawful(h, w) && IsActionKey(action)
    requires PhaseOf(h, action).Settled? || PhaseOf(h, action).Refused?
    ensures PhaseOf(h + [w], action) == PhaseOf(h, action)
  {
    hide ReceiptKey, PhaseOf, Lawful, StateWriteAllowed, LastRevision, IsSubmitted;
    LawfulKeepsLog(h, w);
    LawfulElsewhere(h, w, action);
    PhaseAppend(h, w, action);
  }

  /** A write that is not made for the action a process works on leaves what the process knows. */
  lemma WriteKeepsProc(h: Log, w: Write<Stored>, p: Proc)
    requires LogInv(h) && Lawful(h, w) && ProcInv(h, p)
    requires Holds(p) ==> !ByReducerOf(w, p.req.actionKey)
    ensures ProcInv(h + [w], p)
  {
    hide LogInv, Lawful, ByReducerOf, ActionIs, PhaseOf, Initial, IsActionKey;
    if p.ReadingState? || p.CreatingReceipt? || Holds(p) {
      ActionStays(h, w, p.req.actionKey, p.act, p.actionRev);
      if Holds(p) {
        PhaseStays(h, w, p.req.actionKey);
      }
    } else if p.Done? && p.result.Success? {
      FinalPhaseStays(h, w, p.req.actionKey);
    }
  }

  // ---------- one step of one process ----------

  /** What a step may do to the history and to its own process. */
  ghost predicate GoodStep(h: Log, p: Proc, t: (Log, Proc)) {
    && (t.0 == h || exists w :: t.0 == h + [w] && Lawful(h, w) && WrittenBy(h, p, w))
    && ProcInv(t.0, t.1)
    && (Holds(t.1) && !Holds(p) ==>
          p.CreatingReceipt? && t.1.req == p.req && LastRevision(h, ReceiptKey(p.req.actionKey)) == 0)
    && (Holds(t.1) && Holds(p) ==> t.1.req == p.req)
  }

  /** A reducer writes only for its own action, and before it holds the receipt there is none. */
  ghost predicate WrittenBy(h: Log, p: Proc, w: Write<Stored>) {
    forall a :: ByReducerOf(w, a) ==>
      && (p.CreatingReceipt? || Holds(p)) && a == p.req.actionKey
      && (!Holds(p) ==> LastRevision(h, ReceiptKey(a)) == 0)
  }

  lemma ReceiptCreationIsLawful(h: Log, p: Proc)
    requires LogInv(h) && ProcInv(h, p) && p.CreatingReceipt?
    requires LastRevision(h, ReceiptKey(p.req.actionKey)) == 0
    ensures var a, w := p.req.actionKey, Write(ReceiptKey(p.req.actionKey), FirstReceipt(p));
      && LawfulReducer(h, w, a)
      && PhaseOf(h + [w], a) == (if p.req.Apply? then Pending(|h| + 1) else Refused)
      && ActionIs(h + [w], a, p.act, p.actionRev)
  {
    hide ReceiptKey, ValidAction, ActionKey, PhaseOf, LastRevision, OtherWrite, IsActionKey, IsStateKey,
         StateWriteAllowed, ActionsWrittenOnce;
    var a, w := p.req.actionKey, Write(ReceiptKey(p.req.actionKey), FirstReceipt(p));
    ValidActionKeys(p.act, a);
    PhaseTracksReceipt(h, a);
    PhaseAppend(h, w, a);
    LastRevisionAppend(h, w, a);
    KeysDisjoint(a);
    assert IsReceiptKey(w.key);
  }

  lemma CreateReceiptStep(h: Log, p: Proc, reply: Reply)
    requires LogInv(h) && ProcInv(h, p) && FairReply(reply) && p.CreatingReceipt?
    ensures GoodStep(h, p, CreateReceipt(h, p, reply))
  {
    hide ReceiptKey, ValidAction, ActionKey, PhaseOf, LastRevision, OtherWrite, IsActionKey, IsStateKey, Advance;
    ValidActionKeys(p.act, p.req.actionKey);
    if LastRevision(h, ReceiptKey(p.req.actionKey)) == 0 {
      ReceiptCreationIsLawful(h, p);
    }
  }

  lemma StateWriteIsLawful(h: Log, p: Proc)
    requires LogInv(h) && ProcInv(h, p) && p.WritingState?
    requires LastRevision(h, p.act.stateKey) == p.act.baseRevision
    ensures var a, w := p.req.actionKey, Write(p.act.stateKey, NewState(p));
      && LawfulReducer(h, w, a)
      && PhaseOf(h + [w], a) == Written(p.receiptRev, |h| + 1)
      && ActionIs(h + [w], a, p.act, p.actionRev)
  {
    hide ReceiptKey, ValidAction, ActionKey, PhaseOf, LastRevision;
    var a, w := p.req.actionKey, Write(p.act.stateKey, NewState(p));
    ValidActionKeys(p.act, a);
    KeysDisjoint(w.key);
    assert IsReceiptKey(ReceiptKey(a));
    assert StateWriteAllowed(h, w, a);
    PhaseAppend(h, w, a);
    LastRevisionAppend(h, w, a);
  }

  lemma WriteStateStep(h: Log, p: Proc, reply: Reply)
    requires LogInv(h) && ProcInv(h, p) && FairReply(reply) && p.WritingState?
    ensures GoodStep(h, p, WriteState(h, p, reply))
  {
    hide ReceiptKey, ValidAction, ActionKey, PhaseOf, LastRevision, OtherWrite, IsActionKey, IsStateKey, Advance;
    if LastRevision(h, p.act.stateKey) == p.act.baseRevision {
      StateWriteIsLawful(h, p);
    }
  }

  lemma ClosingIsLawful(h: Log, a: string, receipt: Receipt, status: Status)
    requires IsActionKey(a) && receipt.actionKey == a
    requires receipt.outcome.Rejected? ==> PhaseOf(h, a).Pending?
    requires !receipt.outcome.Rejected? ==>
               && receipt.outcome.Applied? && PhaseOf(h, a).Written?
               && PhaseOf(h, a).stateRev == receipt.stateRevision && 0 < receipt.stateRevision <= |h|
               && h[receipt.stateRevision - 1].key == receipt.stateKey
    ensures var w := Write(ReceiptKey(a), ReceiptItem(a, receipt, status));
      && LawfulReducer(h, w, a)
      && PhaseOf(h + [w], a) == if receipt.outcome.Rejected? then Refused else Settled(receipt.stateRevision)
  {
    hide ReceiptKey, ValidAction, ActionKey, PhaseOf, LastRevision;
    PhaseAppend(h, Write(ReceiptKey(a), ReceiptItem(a, receipt, status)), a);
  }

  lemma FinishAppliedStep(h: Log, p: Proc, reply: Reply)
    requires LogInv(h) && ProcInv(h, p) && FairReply(reply) && p.FinishingApplied?
    ensures GoodStep(h, p, FinishApplied(h, p, reply))
  {
    hide ReceiptKey, ValidAction, ActionKey, PhaseOf, LastRevision, OtherWrite, IsActionKey, IsStateKey, Advance;
    ValidActionKeys(p.act, p.req.actionKey);
    PhaseTracksReceipt(h, p.req.actionKey);
    ClosingIsLawful(h, p.req.actionKey, AppliedReceipt(p), ResolvedItem);
  }

  lemma FinishStaleStep(h: Log, p: Proc, reply: Reply)
    requires LogInv(h) && ProcInv(h, p) && FairReply(reply) && p.FinishingStale?
    ensures GoodStep(h, p, FinishStale(h, p, reply))
  {
    hide ReceiptKey, ValidAction, ActionKey, PhaseOf, LastRevision, OtherWrite, IsActionKey, IsStateKey, Advance;
    ValidActionKeys(p.act, p.req.actionKey);
    ClosingIsLawful(h, p.req.actionKey, StaleReceipt(p), DeniedItem);
  }

  lemma SubmitStep(h: Log, p: Proc, reply: Reply)
    requires LogInv(h) && ProcInv(h, p) && FairReply(reply) && p.SubmitCreating?
    ensures GoodStep(h, p, SubmitCreate(h, p, reply))
  {
    var item := ActionItem(p.sub);
    ValidActionKeys(p.sub, item.key);
    assert IsSubmitted(Write(item.key, item));
  }

  /** A pending action item read back is the one that was submitted. */
  lemma ReadActionStep(h: Log, p: Proc, reply: Reply)
    requires LogInv(h) && ProcInv(h, p) && FairReply(reply) && p.ReadingAction?
    ensures GoodStep(h, p, (h, ReadAction(h, p, reply)))
  {
    hide ReceiptKey, ValidAction, ActionKey, PhaseOf, LastRevision;
    var t := ReadAction(h, p, reply);
    if t.ReadingState? {
      var rev := LastRevision(h, p.req.actionKey);
      ValidActionKeys(t.act, p.req.actionKey);
      assert IsSubmitted(h[rev - 1]);
    }
  }

  lemma ReadStep(h: Log, p: Proc, reply: Reply)
    requires LogInv(h) && ProcInv(h, p)
    ensures p.ReadingReceipt? ==> GoodStep(h, p, (h, ReadReceipt(h, p, reply)))
    ensures p.ReadingState? ==> GoodStep(h, p, (h, ReadState(h, p, reply)))
    ensures p.ReadingLatest? ==> GoodStep(h, p, (h, ReadLatest(h, p, reply)))
    ensures p.SubmitReading? ==> GoodStep(h, p, (h, SubmitRead(h, p, reply)))
  {
    hide ReceiptKey, ValidAction, ActionKey, PhaseOf, LastRevision, OtherWrite, IsActionKey, IsStateKey, Advance;
  }

  lemma StepIsGood(h: Log, p: Proc, reply: Reply)
    requires LogInv(h) && ProcInv(h, p) && FairReply(reply)
    ensures GoodStep(h, p, Step(h, p, reply))
  {
    hide ReceiptKey, ValidAction, ActionKey, PhaseOf, LastRevision, OtherWrite, IsActionKey, IsStateKey, Advance;
    if p.ReadingAction? {
      ReadActionStep(h, p, reply);
    } else if p.CreatingReceipt? {
      CreateReceiptStep(h, p, reply);
    } else if p.WritingState? {
      WriteStateStep(h, p, reply);
    } else if p.FinishingApplied? {
      FinishAppliedStep(h, p, reply);
    } else if p.FinishingStale? {
      FinishStaleStep(h, p, reply);
    } else if p.SubmitCreating? {
      SubmitStep(h, p, reply);
    } else {
      ReadStep(h, p, reply);
    }
  }

  // ---------- the whole system ----------

  /** A process that holds a receipt knows it is there. */
  lemma HolderHasReceipt(h: Log, p: Proc)
    requires ProcInv(h, p) && Holds(p)
    ensures LastRevision(h, ReceiptKey(p.req.actionKey)) > 0
  {
    hide ReceiptKey, ValidAction, ActionKey, PhaseOf, LastRevision;
    PhaseTracksReceipt(h, p.req.actionKey);
  }

  lemma ProcStepKeepsInv(s: Sys, t: Sys, pid: nat, reply: Reply)
    requires Inv(s) && ProcStep(s, t, pid, reply)
    ensures Inv(t)
  {
    hide ReceiptKey, ValidAction, ActionKey, PhaseOf, LastRevision;
    var p := s.procs[pid];
    var r := Step(s.log, p, reply);
    StepIsGood(s.log, p, reply);
    forall i | 0 <= i < |t.procs|
      ensures ProcInv(t.log, t.procs[i])
    {
      if i != pid && t.log != s.log {
        if Holds(s.procs[i]) {
          HolderHasReceipt(s.log, s.procs[i]);
        }
        WriteKeepsProc(s.log, t.log[|s.log|], s.procs[i]);
      }
    }
    if t.log != s.log {
      LawfulKeepsLog(s.log, t.log[|s.log|]);
    }
    forall i | 0 <= i < |t.procs| && i != pid && Holds(t.procs[i]) && Holds(r.1)
      ensures t.procs[i].req.actionKey != r.1.req.actionKey
    {
      HolderHasReceipt(s.log, s.procs[i]);
    }
  }

  lemma NextKeepsInv(s: Sys, t: Sys)
    requires Inv(s) && Next(s, t)
    ensures Inv(t)
  {
    hide ReceiptKey, ValidAction, ActionKey, PhaseOf, LastRevision;
    if pid, reply :| ProcStep(s, t, pid, reply) {
      ProcStepKeepsInv(s, t, pid, reply);
    } else if w :| OtherStep(s, t, w) {
      LawfulKeepsLog(s.log, w);
      forall i | 0 <= i < |t.procs|
        ensures ProcInv(t.log, t.procs[i])
      {
        WriteKeepsProc(s.log, w, s.procs[i]);
      }
    }
  }

  lemma {:induction false} RunKeepsInv(run: seq<Sys>, i: nat)
    requires IsRun(run) && i < |run|
    ensures Inv(run[i])
  {
    if i == 0 {
    } else {
      RunKeepsInv(run, i - 1);
      NextKeepsInv(run[i - 1], run[i]);
    }
  }
}
