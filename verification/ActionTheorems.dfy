/** The promises of the action protocol, over every run. */
module ActionTheorems {
  import opened KeyValue
  import opened ActionKeys
  import opened ActionProtocol
  import opened ActionSafety

  // ---------- reading the phase back into the history ----------

  predicate IsClosing(w: Write<Stored>, action: string) {
    IsReceiptWrite(w, action, Applied) || IsReceiptWrite(w, action, Rejected)
  }

  predicate NamesWrite(h: Log, r: Receipt, rev: nat)
    requires 0 < rev <= |h|
  {
    r.stateRevision == rev && r.stateKey == h[rev - 1].key
  }

  ghost predicate StateWritesTold(h: Log, action: string) {
    var phase := PhaseOf(h, action);
    && (phase.Written? || phase.Settled? ==> 0 < phase.stateRev <= |h| && IsStateWrite(h[phase.stateRev - 1], action))
    && forall i :: 0 <= i < |h| && IsStateWrite(h[i], action) ==>
         && (phase.Written? || phase.Settled?) && phase.stateRev == i + 1
         && StateWriteAllowed(h[..i], h[i], action)
  }

  ghost predicate ReceiptsTold(h: Log, action: string) {
    var phase := PhaseOf(h, action);
    && (phase.Refused? ==> exists i :: 0 <= i < |h| && IsReceiptWrite(h[i], action, Rejected))
    && forall i :: 0 <= i < |h| && IsClosing(h[i], action) ==>
      && LastRevision(h, ReceiptKey(action)) == i + 1
      && (IsReceiptWrite(h[i], action, Rejected) ==> phase.Refused?)
      && (IsReceiptWrite(h[i], action, Applied) ==>
            phase.Settled? && 0 < phase.stateRev <= |h| && NamesWrite(h, h[i].value.body.receipt, phase.stateRev))
  }

  lemma StateWritesStep(h: Log, w: Write<Stored>, action: string)
    requires PhaseOf(h, action) != Broken && PhaseOf(h + [w], action) != Broken && StateWritesTold(h, action)
    ensures StateWritesTold(h + [w], action)
  {
    hide ReceiptKey, StateWriteAllowed, PhaseOf;
    var t := h + [w];
    PhaseAppend(h, w, action);
    assert t[..|h|] == h;
    forall i | 0 <= i < |h|
      ensures t[i] == h[i] && t[..i] == h[..i]
    {
    }
  }

  lemma {:induction false} StateWritesAreTold(h: Log, action: string)
    requires PhaseOf(h, action) != Broken
    ensures StateWritesTold(h, action)
  {
    hide ReceiptKey, StateWriteAllowed, LastRevision;
    if h == [] {
    } else {
      var h0, w := h[..|h| - 1], h[|h| - 1];
      assert h == h0 + [w];
      PhaseAppend(h0, w, action);
      StateWritesAreTold(h0, action);
      StateWritesStep(h0, w, action);
    }
  }

  lemma ReceiptsStep(h: Log, w: Write<Stored>, action: string)
    requires PhaseOf(h, action) != Broken && PhaseOf(h + [w], action) != Broken && ReceiptsTold(h, action)
    ensures ReceiptsTold(h + [w], action)
  {
    hide ReceiptKey, StateWriteAllowed, PhaseOf, LastRevision;
    var t := h + [w];
    PhaseAppend(h, w, action);
    LastRevisionAppend(h, w, ReceiptKey(action));
    assert forall i :: 0 <= i < |h| ==> t[i] == h[i];
    assert t[|h|] == w;
    if PhaseOf(t, action).Refused? && PhaseOf(h, action).Refused? {
      var i :| 0 <= i < |h| && IsReceiptWrite(h[i], action, Rejected);
      assert IsReceiptWrite(t[i], action, Rejected);
    }
  }

  lemma {:induction false} ReceiptsAreTold(h: Log, action: string)
    requires PhaseOf(h, action) != Broken
    ensures ReceiptsTold(h, action)
  {
    hide ReceiptKey, StateWriteAllowed, LastRevision;
    if h == [] {
    } else {
      var h0, w := h[..|h| - 1], h[|h| - 1];
      assert h == h0 + [w];
      PhaseAppend(h0, w, action);
      ReceiptsAreTold(h0, action);
      ReceiptsStep(h0, w, action);
    }
  }

  lemma ReachableLog(run: seq<Sys>, i: nat, action: string)
    requires IsRun(run) && i < |run| && IsActionKey(action)
    ensures LogInv(run[i].log)
    ensures StateWritesTold(run[i].log, action) && ReceiptsTold(run[i].log, action)
  {
    hide StateWritesTold, ReceiptsTold, PhaseOf, IsRun, ProcInv, Exclusive;
    RunKeepsInv(run, i);
    StateWritesAreTold(run[i].log, action);
    ReceiptsAreTold(run[i].log, action);
  }

  // ---------- promises about one reachable history ----------

  /** Whatever the interleaving, crashes and lost replies, an action writes state at most once. */
  lemma StateWrittenAtMostOnce(run: seq<Sys>, action: string, i: nat, j: nat)
    requires IsRun(run) && IsActionKey(action)
    requires var h := run[|run| - 1].log;
      i < |h| && j < |h| && IsStateWrite(h[i], action) && IsStateWrite(h[j], action)
    ensures i == j
  {
    hide ReceiptKey, PhaseOf, LogInv, Next, IsActionKey, StateWriteAllowed, LastRevision;
    ReachableLog(run, |run| - 1, action);
  }

  /** A rejected receipt means the action has not written state. */
  lemma DeniedNeverWrote(run: seq<Sys>, action: string, i: nat, j: nat)
    requires IsRun(run) && IsActionKey(action)
    requires var h := run[|run| - 1].log;
      i < |h| && j < |h| && IsReceiptWrite(h[i], action, Rejected)
    ensures !IsStateWrite(run[|run| - 1].log[j], action)
  {
    hide ReceiptKey, PhaseOf, LogInv, Next, IsActionKey, StateWriteAllowed, LastRevision;
    ReachableLog(run, |run| - 1, action);
  }

  /** An applied receipt names the key and revision of the action's own write. */
  lemma AppliedNamesOwnWrite(run: seq<Sys>, action: string, i: nat)
    requires IsRun(run) && IsActionKey(action)
    requires i < |run[|run| - 1].log| && IsReceiptWrite(run[|run| - 1].log[i], action, Applied)
    ensures var h := run[|run| - 1].log; var r := h[i].value.body.receipt;
      && 0 < r.stateRevision <= |h|
      && IsStateWrite(h[r.stateRevision - 1], action)
      && h[r.stateRevision - 1].key == r.stateKey
  {
    hide ReceiptKey, PhaseOf, LogInv, Next, IsActionKey, StateWriteAllowed, LastRevision;
    ReachableLog(run, |run| - 1, action);
  }

  /** A state write comes after the action was submitted, to the key and over the revision the
      action names. */
  lemma WriteReplacesBase(run: seq<Sys>, action: string, i: nat)
    requires IsRun(run) && IsActionKey(action)
    requires i < |run[|run| - 1].log| && IsStateWrite(run[|run| - 1].log[i], action)
    ensures var h := run[|run| - 1].log;
      exists act, rev: nat :: ActionIs(h, action, act, rev) && rev <= i
                         && h[i].key == act.stateKey && LastRevision(h[..i], h[i].key) == act.baseRevision
  {
    hide ReceiptKey, ValidAction, PhaseOf, IsActionKey, Next, ReceiptsTold;
    var h := run[|run| - 1].log;
    ReachableLog(run, |run| - 1, action);
    var act, rev: nat :| ActionIs(h[..i], action, act, rev)
                    && h[i].key == act.stateKey && LastRevision(h[..i], h[i].key) == act.baseRevision;
    ActionItemStays(h, i, action, rev);
    assert ActionIs(h, action, act, rev);
  }

  lemma ActionItemStays(h: Log, i: nat, action: string, rev: nat)
    requires LogInv(h) && i <= |h| && IsActionKey(action)
    requires 0 < rev == LastRevision(h[..i], action)
    ensures LastRevision(h, action) == rev
  {
    hide PhaseOf;
    var last := LastRevision(h, action);
    assert h[rev - 1] == h[..i][rev - 1];
    var earlier := h[..last - 1];
    assert LastRevision(earlier, h[last - 1].key) == 0;
    assert forall k :: 0 <= k < |earlier| ==> earlier[k].key != action && earlier[k] == h[k];
  }

  /** No lost update: of two actions that wrote the same state key, the later one was based on a
      later revision, so two actions with the same base never both apply. */
  lemma NoLostUpdate(run: seq<Sys>, a: string, b: string, i: nat, j: nat, actA: AppAction, actB: AppAction,
                     revA: nat, revB: nat)
    requires IsRun(run) && IsActionKey(a) && IsActionKey(b)
    requires var h := run[|run| - 1].log;
      && i < j < |h| && IsStateWrite(h[i], a) && IsStateWrite(h[j], b) && h[i].key == h[j].key
      && ActionIs(h, a, actA, revA) && ActionIs(h, b, actB, revB)
    ensures actA.stateKey == actB.stateKey && actA.baseRevision < actB.baseRevision
  {
    hide ReceiptKey, ValidAction, LastRevision, PhaseOf;
    WriteReplacesBase(run, a, i);
    WriteReplacesBase(run, b, j);
    SameRevisionWritesOnce(run[|run| - 1].log, i, j);
  }

  /** Mutual exclusion: of all processes ever started, at most one is between creating the
      "applying" receipt of an action and closing it. */
  lemma OneHolderPerAction(run: seq<Sys>, i: nat, p: nat, q: nat)
    requires IsRun(run) && i < |run| && p < |run[i].procs| && q < |run[i].procs|
    requires Holds(run[i].procs[p]) && Holds(run[i].procs[q])
    requires run[i].procs[p].req.actionKey == run[i].procs[q].req.actionKey
    ensures p == q
  {
    RunKeepsInv(run, i);
  }

  // ---------- promises along a run ----------

  lemma NextGrowsLog(s: Sys, t: Sys)
    requires Next(s, t)
    ensures s.log <= t.log
  {
    hide Step;
    if pid: nat, reply :| ProcStep(s, t, pid, reply) {
      StepGrowsLog(s.log, s.procs[pid], reply);
    }
  }

  lemma StepGrowsLog(h: Log, p: Proc, reply: Reply)
    ensures h <= Step(h, p, reply).0
  {
    hide ValidAction, ReceiptKey, ActionKey;
  }

  lemma {:induction false} RunGrowsLog(run: seq<Sys>, i: nat, j: nat)
    requires IsRun(run) && i <= j < |run|
    ensures run[i].log <= run[j].log
  {
    hide Next;
    if i >= j {
    } else {
      RunGrowsLog(run, i, j - 1);
      NextGrowsLog(run[j - 1], run[j]);
    }
  }

  /** A closing receipt is the last word: in every later state it is still the current receipt. */
  lemma ClosingReceiptIsFinal(run: seq<Sys>, i: nat, j: nat, action: string, rev: nat)
    requires IsRun(run) && i <= j < |run| && IsActionKey(action)
    requires 0 < rev <= |run[i].log| && IsClosing(run[i].log[rev - 1], action)
    ensures LastRevision(run[j].log, ReceiptKey(action)) == rev
    ensures run[j].log[rev - 1] == run[i].log[rev - 1]
  {
    RunGrowsLog(run, i, j);
    ReachableLog(run, j, action);
    assert run[j].log[rev - 1] == run[i].log[rev - 1];
  }

  /** What a reducer reports is true when it reports it and stays true. */
  lemma ReportedResultHolds(run: seq<Sys>, i: nat, pid: nat)
    requires IsRun(run) && i < |run| && pid < |run[i].procs|
    requires run[i].procs[pid].Done? && run[i].procs[pid].result.Success?
    ensures var p := run[i].procs[pid];
      DecisionOf(run[i].log, p.req.actionKey)
        == if p.req.Apply? then AppliedAt(p.result.stateRevision) else DeniedFinally
  {
    RunKeepsInv(run, i);
  }

  // ---------- refinement of a machine that decides each action once ----------

  datatype Decision = Undecided | AppliedAt(revision: nat) | DeniedFinally

  ghost function DecisionOf(h: Log, action: string): Decision {
    match PhaseOf(h, action)
    case Written(_, rev) => AppliedAt(rev)
    case Settled(rev) => AppliedAt(rev)
    case Refused => DeniedFinally
    case _ => Undecided
  }

  /** The abstract state: one decision per action. */
  ghost function Decisions(h: Log): imap<string, Decision> {
    imap a | IsActionKey(a) :: DecisionOf(h, a)
  }

  ghost predicate Decides(d: imap<string, Decision>, e: imap<string, Decision>, action: string, v: Decision) {
    action in d && d[action] == Undecided && v != Undecided && e == d[action := v]
  }

  /** The abstract step: nothing, or one undecided action gets its decision. */
  ghost predicate DecidesOnce(d: imap<string, Decision>, e: imap<string, Decision>) {
    d == e || exists a, v :: Decides(d, e, a, v)
  }

  /** A decision is visible in the history, and nothing else is decided. */
  lemma DecisionMeaning(run: seq<Sys>, i: nat, action: string)
    requires IsRun(run) && i < |run| && IsActionKey(action)
    ensures var h := run[i].log;
      && (forall rev: nat {:trigger AppliedAt(rev)} :: DecisionOf(h, action) == AppliedAt(rev) <==>
            0 < rev <= |h| && IsStateWrite(h[rev - 1], action))
      && (DecisionOf(h, action) == DeniedFinally <==>
            exists k :: 0 <= k < |h| && IsReceiptWrite(h[k], action, Rejected))
  {
    hide ReceiptKey, PhaseOf, IsActionKey, IsRun, LogInv, StateWriteAllowed, LastRevision;
    ReachableLog(run, i, action);
  }

  // ---------- what a reported denial can hide ----------

  /** What success of the request would have decided. */
  ghost predicate EffectDecided(h: Log, req: Request) {
    if req.Apply? then DecisionOf(h, req.actionKey).AppliedAt? else DecisionOf(h, req.actionKey).DeniedFinally?
  }

  /** The decision that stands after the step is the process's own: it was made in this step, or
      while the process held the receipt, when nobody else can decide. */
  ghost predicate OwnDecision(h: Log, p: Proc, t: Log)
    requires HasRequest(p)
  {
    DecisionOf(t, p.req.actionKey) != Undecided && (DecisionOf(h, p.req.actionKey) == Undecided || Holds(p))
  }

  /** The process has asked for its last write to be made, and only the reply went missing. */
  predicate OnlyReplyLost(h: Log, key: string, expected: nat, reply: Reply) {
    reply.Failing? && reply.link == ReplyLost && LastRevision(h, key) == expected
  }

  /** The three ways a denial hides that the command took effect: the state write landed unheard, the
      state was written before closing the receipt failed, or a rejecting receipt was created unheard. */
  predicate DenialHides(h: Log, p: Proc, reply: Reply) {
    || (p.WritingState? && OnlyReplyLost(h, p.act.stateKey, p.act.baseRevision, reply))
    || p.FinishingApplied?
    || (p.CreatingReceipt? && p.req.Reject? && OnlyReplyLost(h, ReceiptKey(p.req.actionKey), 0, reply))
  }

  predicate HasRequest(p: Proc) {
    !p.SubmitReading? && !p.SubmitCreating? && !p.SubmitDone? && !p.Crashed?
  }

  /** The receipt of the action is "applying" and its holder has gone: it stays so. */
  ghost predicate LeftOpen(h: Log, p: Proc, t: Log)
    requires HasRequest(p)
  {
    var phase := PhaseOf(t, p.req.actionKey);
    (phase.Pending? || phase.Written?) && (Holds(p) || PhaseOf(h, p.req.actionKey).Fresh?)
  }

  predicate DenialLeavesOpen(h: Log, p: Proc, reply: Reply) {
    || (p.CreatingReceipt? && p.req.Apply? && OnlyReplyLost(h, ReceiptKey(p.req.actionKey), 0, reply))
    || p.WritingState? || p.ReadingLatest?
    || ((p.FinishingApplied? || p.FinishingStale?) && reply.Failing? && reply.link == Dropped)
  }

  lemma WritingDenied(h: Log, p: Proc, reply: Reply)
    requires LogInv(h) && ProcInv(h, p) && FairReply(reply) && p.WritingState? && WriteState(h, p, reply).1.Done?
    ensures DenialTold(h, p, reply, WriteState(h, p, reply))
  {
    hide ReceiptKey, ValidAction, ActionKey, PhaseOf, LastRevision, LogInv, NewState, LawfulReducer;
    if LastRevision(h, p.act.stateKey) == p.act.baseRevision {
      StateWriteIsLawful(h, p);
    }
  }

  ghost predicate DenialTold(h: Log, p: Proc, reply: Reply, r: (Log, Proc))
    requires HasRequest(p)
  {
    && (OwnDecision(h, p, r.0) && EffectDecided(r.0, p.req) <==> DenialHides(h, p, reply))
    && (LeftOpen(h, p, r.0) <==> DenialLeavesOpen(h, p, reply))
  }

  lemma CreatingDenied(h: Log, p: Proc, reply: Reply)
    requires LogInv(h) && ProcInv(h, p) && FairReply(reply) && p.CreatingReceipt?
    requires CreateReceipt(h, p, reply).1.Done? && CreateReceipt(h, p, reply).1.result.Denied?
    ensures DenialTold(h, p, reply, CreateReceipt(h, p, reply))
  {
    hide ReceiptKey, PhaseOf, LastRevision, FirstReceipt, LawfulReducer, ProcInv, LogInv, ActionIs, Tracks, DenialTold;
    var a := p.req.actionKey;
    ActionKnown(h, p);
    PhaseTracksReceipt(h, a);
    if LastRevision(h, ReceiptKey(a)) == 0 {
      ReceiptCreationIsLawful(h, p);
    }
    var t := CreateReceipt(h, p, reply).0;
    assert t == h || OnlyReplyLost(h, ReceiptKey(a), 0, reply);
    hide CreateReceipt;
    CreationTold(h, p, reply, t, CreateReceipt(h, p, reply).1);
  }

  lemma CreationTold(h: Log, p: Proc, reply: Reply, t: Log, q: Proc)
    requires p.CreatingReceipt? && Tracks(PhaseOf(h, p.req.actionKey), LastRevision(h, ReceiptKey(p.req.actionKey)))
    requires var lost := OnlyReplyLost(h, ReceiptKey(p.req.actionKey), 0, reply);
      && (!lost ==> t == h)
      && (lost ==> PhaseOf(t, p.req.actionKey) == if p.req.Apply? then Pending(|h| + 1) else Refused)
    ensures DenialTold(h, p, reply, (t, q))
  {
    hide ReceiptKey, PhaseOf, LastRevision;
  }

  lemma ActionKnown(h: Log, p: Proc)
    requires LogInv(h) && ProcInv(h, p) && p.CreatingReceipt?
    ensures PhaseOf(h, p.req.actionKey) != Broken
  {
    hide PhaseOf, ActionsWrittenOnce, ValidItemKey, StatePrefix;
    ValidActionKeys(p.act, p.req.actionKey);
  }

  lemma ClosingDenied(h: Log, p: Proc, reply: Reply)
    requires LogInv(h) && ProcInv(h, p) && FairReply(reply)
    ensures p.FinishingApplied? && FinishApplied(h, p, reply).1.result.Denied? ==>
      DenialTold(h, p, reply, FinishApplied(h, p, reply))
    ensures p.FinishingStale? ==> DenialTold(h, p, reply, FinishStale(h, p, reply))
  {
    hide ReceiptKey, ValidAction, ActionKey, PhaseOf, LastRevision, LawfulReducer;
    if p.FinishingApplied? {
      ValidActionKeys(p.act, p.req.actionKey);
      PhaseTracksReceipt(h, p.req.actionKey);
      ClosingIsLawful(h, p.req.actionKey, AppliedReceipt(p), ResolvedItem);
    } else if p.FinishingStale? {
      ValidActionKeys(p.act, p.req.actionKey);
      PhaseTracksReceipt(h, p.req.actionKey);
      ClosingIsLawful(h, p.req.actionKey, StaleReceipt(p), DeniedItem);
    }
  }

  lemma ReadingDenied(h: Log, p: Proc, reply: Reply)
    requires ProcInv(h, p) && (p.ReadingReceipt? || p.ReadingAction? || p.ReadingState? || p.ReadingLatest?)
    ensures DenialTold(h, p, reply, (h, Step(h, p, reply).1))
  {
    hide ReceiptKey, ValidAction, ActionKey, PhaseOf, LastRevision, Step;
  }

  /** In every run, whenever a command ends with a denial: the command nevertheless took effect in
      exactly the three ways of `DenialHides`, and it leaves the receipt "applying" for good in
      exactly the ways of `DenialLeavesOpen`. */
  lemma DenialToldExactly(run: seq<Sys>, i: nat, pid: nat, reply: Reply)
    requires IsRun(run) && i + 1 < |run| && ProcStep(run[i], run[i + 1], pid, reply)
    requires HasRequest(run[i].procs[pid]) && !run[i].procs[pid].Done?
    requires run[i + 1].procs[pid].Done? && run[i + 1].procs[pid].result.Denied?
    ensures var h, p, t := run[i].log, run[i].procs[pid], run[i + 1].log;
      && (OwnDecision(h, p, t) && EffectDecided(t, p.req) <==> DenialHides(h, p, reply))
      && (LeftOpen(h, p, t) <==> DenialLeavesOpen(h, p, reply))
  {
    hide ReceiptKey, ValidAction, PhaseOf, LastRevision, LogInv, ProcInv, DenialHides, DenialLeavesOpen, Next,
         FairReply,
         OwnDecision, EffectDecided, LeftOpen, CreateReceipt, WriteState, FinishApplied, FinishStale,
         ReadReceipt, ReadAction, ReadState, ReadLatest;
    RunKeepsInv(run, i);
    var h, p := run[i].log, run[i].procs[pid];
    assert ProcInv(h, p);
    if p.CreatingReceipt? {
      CreatingDenied(h, p, reply);
    } else if p.WritingState? {
      WritingDenied(h, p, reply);
    } else if p.FinishingApplied? || p.FinishingStale? {
      ClosingDenied(h, p, reply);
    } else {
      ReadingDenied(h, p, reply);
    }
  }

  // ---------- an open receipt without a holder stays open ----------

  ghost predicate IsOpen(h: Log, action: string) {
    PhaseOf(h, action).Pending? || PhaseOf(h, action).Written?
  }

  ghost predicate NoHolder(procs: seq<Proc>, action: string) {
    forall i :: 0 <= i < |procs| && Holds(procs[i]) ==> procs[i].req.actionKey != action
  }

  lemma OpenKeepsByStep(h: Log, p: Proc, r: (Log, Proc), action: string)
    requires GoodStep(h, p, r) && LogInv(h) && IsActionKey(action) && IsOpen(h, action)
    requires Holds(p) ==> p.req.actionKey != action
    ensures PhaseOf(r.0, action) == PhaseOf(h, action)
    ensures Holds(r.1) ==> r.1.req.actionKey != action
  {
    hide ReceiptKey, PhaseOf, LastRevision, Lawful, ProcInv, ActionsWrittenOnce, IsActionKey;
    PhaseTracksReceipt(h, action);
    if r.0 != h {
      var w :| r.0 == h + [w] && Lawful(h, w) && WrittenBy(h, p, w);
      PhaseStays(h, w, action);
    }
  }

  lemma OpenKeepsByNext(s: Sys, t: Sys, action: string)
    requires Inv(s) && Next(s, t) && IsActionKey(action) && IsOpen(s.log, action) && NoHolder(s.procs, action)
    ensures PhaseOf(t.log, action) == PhaseOf(s.log, action) && NoHolder(t.procs, action)
  {
    hide ReceiptKey, PhaseOf, LastRevision, Step, LogInv, ProcInv, Lawful, GoodStep, IsActionKey, FairReply,
         ByReducerOf;
    if pid: nat, reply :| ProcStep(s, t, pid, reply) {
      var p := s.procs[pid];
      assert ProcInv(s.log, p);
      StepIsGood(s.log, p, reply);
      OpenKeepsByStep(s.log, p, Step(s.log, p, reply), action);
    } else if w :| OtherStep(s, t, w) {
      OtherIsForeign(s.log, w, action);
      PhaseStays(s.log, w, action);
    }
  }

  lemma OtherIsForeign(h: Log, w: Write<Stored>, action: string)
    requires OtherWrite(w)
    ensures Lawful(h, w) && !ByReducerOf(w, action)
  {
  }

  /** A receipt left "applying" with nobody holding it is never closed: no process will apply or reject
      that action again. */
  lemma {:induction false} OpenForever(run: seq<Sys>, i: nat, j: nat, action: string)
    requires IsRun(run) && i <= j < |run| && IsActionKey(action)
    requires IsOpen(run[i].log, action) && NoHolder(run[i].procs, action)
    ensures PhaseOf(run[j].log, action) == PhaseOf(run[i].log, action) && NoHolder(run[j].procs, action)
  {
    hide PhaseOf, IsActionKey, NoHolder, Next, Inv;
    if i == j {
    } else {
      OpenForever(run, i, j - 1, action);
      RunKeepsInv(run, j - 1);
      OpenKeepsByNext(run[j - 1], run[j], action);
    }
  }

  /** So a denial that leaves the receipt open leaves it open in every later state. */
  lemma DenialLeavesOpenForever(run: seq<Sys>, i: nat, j: nat, pid: nat, reply: Reply)
    requires IsRun(run) && i < j < |run| && ProcStep(run[i], run[i + 1], pid, reply)
    requires HasRequest(run[i].procs[pid]) && !run[i].procs[pid].Done? && IsActionKey(run[i].procs[pid].req.actionKey)
    requires run[i + 1].procs[pid].Done? && run[i + 1].procs[pid].result.Denied?
    requires DenialLeavesOpen(run[i].log, run[i].procs[pid], reply)
    ensures IsOpen(run[j].log, run[i].procs[pid].req.actionKey)
  {
    hide PhaseOf, IsActionKey, NoHolder, Next, Inv, ReceiptKey, Step, DenialHides, DenialLeavesOpen, FairReply;
    DenialToldExactly(run, i, pid, reply);
    RunKeepsInv(run, i);
    NobodyHolds(run[i], run[i + 1], pid, reply);
    OpenForever(run, i + 1, j, run[i].procs[pid].req.actionKey);
  }

  lemma NobodyHolds(s: Sys, t: Sys, pid: nat, reply: Reply)
    requires Inv(s) && ProcStep(s, t, pid, reply) && t.procs[pid].Done?
    requires HasRequest(s.procs[pid]) && LeftOpen(s.log, s.procs[pid], t.log)
    ensures NoHolder(t.procs, s.procs[pid].req.actionKey)
  {
    hide PhaseOf, ReceiptKey, Step, FairReply, LastRevision, LogInv, ProcInv;
    var a := s.procs[pid].req.actionKey;
    forall k | 0 <= k < |t.procs| && Holds(t.procs[k])
      ensures t.procs[k].req.actionKey != a
    {
      assert k != pid;
      if t.procs[k].req.actionKey == a {
        assert ProcInv(s.log, s.procs[k]);
        HolderIsNotFresh(s.log, s.procs[k]);
      }
    }
  }

  lemma HolderIsNotFresh(h: Log, p: Proc)
    requires ProcInv(h, p) && Holds(p)
    ensures !PhaseOf(h, p.req.actionKey).Fresh?
  {
    hide PhaseOf, ValidAction, ActionKey;
  }

  lemma WriteDecidesOnce(h: Log, w: Write<Stored>)
    requires LogInv(h) && Lawful(h, w)
    ensures DecidesOnce(Decisions(h), Decisions(h + [w]))
  {
    hide ReceiptKey, ValidAction, LastRevision, ActionKey, PhaseOf;
    LawfulKeepsLog(h, w);
    var t := h + [w];
    forall a | IsActionKey(a) && !ByReducerOf(w, a)
      ensures DecisionOf(t, a) == DecisionOf(h, a)
    {
      PhaseAppend(h, w, a);
      LawfulElsewhere(h, w, a);
    }
    if b :| IsActionKey(b) && ByReducerOf(w, b) {
      PhaseAppend(h, w, b);
      if DecisionOf(t, b) != DecisionOf(h, b) {
        assert Decides(Decisions(h), Decisions(t), b, DecisionOf(t, b));
      } else {
        assert Decisions(t) == Decisions(h);
      }
    } else {
      assert Decisions(t) == Decisions(h);
    }
  }

  lemma Stutter(h: Log)
    ensures DecidesOnce(Decisions(h), Decisions(h))
  {
  }

  lemma StepDecidesOnce(h: Log, t: Log, p: Proc, q: Proc)
    requires LogInv(h) && GoodStep(h, p, (t, q))
    ensures DecidesOnce(Decisions(h), Decisions(t))
  {
    hide Step, PhaseOf, DecidesOnce, Decisions, LastRevision, LogInv, ProcInv, Lawful;
    if t == h {
      Stutter(h);
    } else {
      var w :| t == h + [w] && Lawful(h, w);
      WriteDecidesOnce(h, w);
    }
  }

  /** Every step of every run is a step of the decide-once machine. */
  lemma RefinesDecideOnce(run: seq<Sys>, i: nat)
    requires IsRun(run) && i + 1 < |run|
    ensures DecidesOnce(Decisions(run[i].log), Decisions(run[i + 1].log))
  {
    hide Step, PhaseOf, DecidesOnce, LastRevision, OtherWrite, FairReply;
    RunKeepsInv(run, i);
    var s, t := run[i], run[i + 1];
    if pid: nat, reply :| ProcStep(s, t, pid, reply) {
      StepIsGood(s.log, s.procs[pid], reply);
      StepDecidesOnce(s.log, t.log, s.procs[pid], Step(s.log, s.procs[pid], reply).1);
    } else if w :| OtherStep(s, t, w) {
      WriteDecidesOnce(s.log, w);
    } else {
      Stutter(s.log);
    }
  }

  lemma DecidedStays(d: imap<string, Decision>, e: imap<string, Decision>, action: string)
    requires DecidesOnce(d, e) && action in d && d[action] != Undecided
    ensures action in e && e[action] == d[action]
  {
  }

  /** A made decision is kept for the rest of the run. */
  lemma {:induction false} DecisionIsKept(run: seq<Sys>, i: nat, j: nat, action: string)
    requires IsRun(run) && i <= j < |run| && IsActionKey(action)
    requires DecisionOf(run[i].log, action) != Undecided
    ensures DecisionOf(run[j].log, action) == DecisionOf(run[i].log, action)
  {
    hide DecisionOf, IsActionKey, Next;
    if i >= j {
    } else {
      DecisionIsKept(run, i, j - 1, action);
      RefinesDecideOnce(run, j - 1);
      DecidedStays(Decisions(run[j - 1].log), Decisions(run[j].log), action);
    }
  }
}
