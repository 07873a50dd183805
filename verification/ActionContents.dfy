/** What the items written by reducers hold: the state value an apply writes, and what receipts say. */
module ActionContents {
  import opened KeyValue
  import opened ActionKeys
  import opened ActionProtocol
  import opened ActionSafety

  // ---------- in terms of the bucket alone ----------

  /** The submitted action under `action`, if there is one. */
  function ActionAt(h: Log, action: string): (bool, AppAction) {
    var rev := LastRevision(h, action);
    if rev > 0 && h[rev - 1].value.Item? && h[rev - 1].value.body.ActionBody?
    then (true, h[rev - 1].value.body.act) else (false, AppAction("", "", "", "", 0, ""))
  }

  predicate Holding(h: Log, rev: nat, key: string, status: Status, body: Body, action: string) {
    0 < rev <= |h| && h[rev - 1] == Write(key, Item(key, status, body, ByReducer(action)))
  }

  /** Revision `rev` is a version of the item `key`. */
  predicate IsVersion(h: Log, rev: nat, key: string) {
    0 < rev <= |h| && h[rev - 1].key == key
  }

  /** What a success leaves in the bucket: the value applied under the action's state key, and a receipt
      that names the action's revision, the state's revision and the outcome. */
  ghost predicate Left(h: Log, req: Request, receiptRev: nat, stateRev: nat) {
    var a := req.actionKey;
    var (submitted, act) := ActionAt(h, a);
    var actionRev := LastRevision(h, a);
    && submitted
    && match req {
         case Apply(_, value) =>
           && Holding(h, stateRev, act.stateKey, ResolvedItem, PlainBody(value), a)
           && Holding(h, receiptRev, a + ".receipt", ResolvedItem,
                      ReceiptBody(Receipt(a, act.stateKey, actionRev, stateRev, Applied, NoReason)), a)
         case Reject(_, reason) =>
           && IsVersion(h, stateRev, act.stateKey) && stateRev == act.baseRevision
           && Holding(h, receiptRev, a + ".receipt", DeniedItem,
                      ReceiptBody(Receipt(a, act.stateKey, actionRev, stateRev, Rejected, reason)), a)
       }
  }

  /** What any write signed by a reducer holds, read off the bucket before it. */
  predicate Says(h: Log, w: Write<Stored>) {
    w.value.Item? && w.value.provenance.ByReducer? ==>
      var a := w.value.provenance.actionKey;
      var (submitted, act) := ActionAt(h, a);
      && submitted && w.value.key == w.key
      && if w.key == a + ".receipt" then ReceiptSays(h, w.value, a, act)
         else w.key == act.stateKey && w.value.status == ResolvedItem && w.value.body.PlainBody?
  }

  predicate ReceiptSays(h: Log, item: Stored, a: string, act: AppAction)
    requires item.Item?
  {
    && item.body.ReceiptBody?
    && var r := item.body.receipt;
    && r.actionKey == a && r.stateKey == act.stateKey && r.actionRevision == LastRevision(h, a)
    && match r.outcome {
         case Applying => item.status == PendingItem && r.stateRevision == 0 && r.reason == NoReason
         case Applied =>
           item.status == ResolvedItem && IsVersion(h, r.stateRevision, r.stateKey) && r.reason == NoReason
         case Rejected => item.status == DeniedItem && IsVersion(h, r.stateRevision, r.stateKey)
       }
  }

  ghost predicate AllSay(h: Log) {
    forall i: nat :: i < |h| ==> SaysAt(h, i)
  }

  predicate SaysAt(h: Log, i: nat)
    requires i < |h|
  {
    Says(h[..i], h[i])
  }

  // ---------- what processes carry ----------

  ghost predicate Carries(h: Log, p: Proc) {
    match p
    case CreatingReceipt(req, act, rev, stateRev) =>
      IsVersion(h, stateRev, act.stateKey) && stateRev == act.baseRevision
    case FinishingApplied(req, act, rev, receiptRev, stateRev) =>
      req.Apply? && Holding(h, stateRev, act.stateKey, ResolvedItem, PlainBody(req.value), req.actionKey)
    case FinishingStale(req, act, rev, receiptRev, latestRev) => IsVersion(h, latestRev, act.stateKey)
    case Done(req, Success(receiptRev, stateRev)) => Left(h, req, receiptRev, stateRev)
    case _ => true
  }

  ghost predicate CarriesAll(h: Log, procs: seq<Proc>) {
    forall i: nat :: i < |procs| ==> Carries(h, procs[i])
  }

  lemma ActionFound(h: Log, action: string, act: AppAction, rev: nat)
    requires ActionIs(h, action, act, rev)
    ensures ActionAt(h, action) == (true, act) && LastRevision(h, action) == rev
  {
    hide ValidAction, LastRevision, ActionKey;
  }

  lemma ActionFoundStays(h: Log, w: Write<Stored>, action: string)
    requires LogInv(h) && Lawful(h, w) && IsActionKey(action) && ActionAt(h, action).0
    ensures ActionAt(h + [w], action) == ActionAt(h, action)
    ensures LastRevision(h + [w], action) == LastRevision(h, action)
  {
    hide ReceiptKey, ValidAction, ActionKey, PhaseOf, LastRevision, Lawful, LogInv;
    LawfulElsewhere(h, w, action);
    LastRevisionAppend(h, w, action);
  }

  lemma CarriesStays(h: Log, w: Write<Stored>, p: Proc)
    requires LogInv(h) && Lawful(h, w) && ProcInv(h, p) && Carries(h, p)
    ensures Carries(h + [w], p)
  {
    hide LogInv, Lawful, ActionIs, PhaseOf, Initial, LastRevision, IsActionKey, ActionAt;
    if p.Done? && p.result.Success? {
      ActionFoundStays(h, w, p.req.actionKey);
    }
  }

  // ---------- each step ----------

  /** The write a step makes says what it should, and the process carries what it must. */
  ghost predicate Told(h: Log, t: (Log, Proc)) {
    (t.0 == h || (exists w :: t.0 == h + [w] && Says(h, w))) && Carries(t.0, t.1)
  }

  lemma CreateTold(h: Log, p: Proc, reply: Reply)
    requires LogInv(h) && ProcInv(h, p) && Carries(h, p) && FairReply(reply) && p.CreatingReceipt?
    ensures Told(h, CreateReceipt(h, p, reply))
  {
    hide LogInv, PhaseOf, ValidAction, ActionKey, LastRevision;
    ActionFound(h, p.req.actionKey, p.act, p.actionRev);
    var w := Write(ReceiptKey(p.req.actionKey), FirstReceipt(p));
    assert Says(h, w);
    var t := CreateReceipt(h, p, reply);
    if t.0 != h && t.1.Done? && t.1.result.Success? {
      CreateReceiptStep(h, p, reply);
      ReceiptCreationIsLawful(h, p);
      ActionFound(t.0, p.req.actionKey, p.act, p.actionRev);
    }
  }

  lemma WriteTold(h: Log, p: Proc, reply: Reply)
    requires LogInv(h) && ProcInv(h, p) && FairReply(reply) && p.WritingState?
    ensures Told(h, WriteState(h, p, reply))
  {
    hide LogInv, PhaseOf, LastRevision;
    ActionFound(h, p.req.actionKey, p.act, p.actionRev);
    var w := Write(p.act.stateKey, NewState(p));
    StateIsNoReceipt(p.act, p.req.actionKey);
    assert Says(h, w);
    hide ValidAction, ActionKey, ReceiptKey, ActionAt;
  }

  lemma StateIsNoReceipt(act: AppAction, action: string)
    requires ValidAction(act, action)
    ensures act.stateKey != action + ".receipt"
  {
    hide ActionKey;
    ValidActionKeys(act, action);
    KeysDisjoint(act.stateKey);
    assert IsReceiptKey(ReceiptKey(action));
  }

  lemma FinishTold(h: Log, p: Proc, reply: Reply)
    requires LogInv(h) && ProcInv(h, p) && Carries(h, p) && FairReply(reply) && p.FinishingApplied?
    ensures Told(h, FinishApplied(h, p, reply))
  {
    hide LogInv, PhaseOf, ValidAction, ActionKey, LastRevision;
    ActionFound(h, p.req.actionKey, p.act, p.actionRev);
    var w := Write(ReceiptKey(p.req.actionKey), ReceiptItem(p.req.actionKey, AppliedReceipt(p), ResolvedItem));
    assert Says(h, w);
    var t := FinishApplied(h, p, reply);
    if t.1.result.Success? {
      FinishAppliedStep(h, p, reply);
      ValidActionKeys(p.act, p.req.actionKey);
      ActionKept(h, p, w);
    }
  }

  lemma ActionKept(h: Log, p: Proc, w: Write<Stored>)
    requires LogInv(h) && ProcInv(h, p) && p.FinishingApplied?
    requires w.key == ReceiptKey(p.req.actionKey)
    ensures ActionAt(h + [w], p.req.actionKey) == ActionAt(h, p.req.actionKey)
    ensures LastRevision(h + [w], p.req.actionKey) == LastRevision(h, p.req.actionKey)
  {
    hide LogInv, PhaseOf, ActionKey, LastRevision;
    ValidActionKeys(p.act, p.req.actionKey);
    KeysDisjoint(p.req.actionKey);
    assert IsReceiptKey(ReceiptKey(p.req.actionKey));
    LastRevisionAppend(h, w, p.req.actionKey);
  }

  lemma StaleTold(h: Log, p: Proc, reply: Reply)
    requires LogInv(h) && ProcInv(h, p) && Carries(h, p) && FairReply(reply) && p.FinishingStale?
    ensures Told(h, FinishStale(h, p, reply))
  {
    hide LogInv, PhaseOf, ValidAction, ActionKey, LastRevision;
    ActionFound(h, p.req.actionKey, p.act, p.actionRev);
    var w := Write(ReceiptKey(p.req.actionKey), ReceiptItem(p.req.actionKey, StaleReceipt(p), DeniedItem));
    assert Says(h, w);
  }

  lemma ReadTold(h: Log, p: Proc, reply: Reply)
    ensures p.ReadingReceipt? ==> Told(h, (h, ReadReceipt(h, p, reply)))
    ensures p.ReadingAction? ==> Told(h, (h, ReadAction(h, p, reply)))
    ensures p.ReadingState? ==> Told(h, (h, ReadState(h, p, reply)))
    ensures p.ReadingLatest? ==> Told(h, (h, ReadLatest(h, p, reply)))
    ensures p.SubmitReading? ==> Told(h, (h, SubmitRead(h, p, reply)))
  {
    hide ReceiptKey, ValidAction, Says;
  }

  lemma SubmitTold(h: Log, p: Proc, reply: Reply)
    requires p.SubmitCreating?
    ensures Told(h, SubmitCreate(h, p, reply))
  {
    hide LastRevision, ActionKey, ActionAt;
    assert Says(h, Write(ActionItem(p.sub).key, ActionItem(p.sub)));
  }

  lemma StepTold(h: Log, p: Proc, reply: Reply)
    requires LogInv(h) && ProcInv(h, p) && Carries(h, p) && FairReply(reply)
    ensures Told(h, Step(h, p, reply))
  {
    hide LogInv, ProcInv, FairReply, Says, ReadReceipt, ReadAction, ReadState, ReadLatest, SubmitRead,
         CreateReceipt, WriteState, FinishApplied, FinishStale, SubmitCreate;
    ReadTold(h, p, reply);
    if p.CreatingReceipt? {
      CreateTold(h, p, reply);
    } else if p.WritingState? {
      WriteTold(h, p, reply);
    } else if p.FinishingApplied? {
      FinishTold(h, p, reply);
    } else if p.FinishingStale? {
      StaleTold(h, p, reply);
    } else if p.SubmitCreating? {
      SubmitTold(h, p, reply);
    }
  }

  // ---------- over whole runs ----------

  lemma AllSayAppend(h: Log, w: Write<Stored>)
    requires AllSay(h) && Says(h, w)
    ensures AllSay(h + [w])
  {
    hide Says;
    var t := h + [w];
    forall i: nat | i < |t|
      ensures SaysAt(t, i)
    {
      if i < |h| {
        assert SaysAt(h, i) && t[..i] == h[..i];
      } else {
        assert t[..i] == h;
      }
    }
  }

  lemma StepKeepsContents(s: Sys, t: Sys, pid: nat, reply: Reply)
    requires Inv(s) && ProcStep(s, t, pid, reply) && AllSay(s.log) && CarriesAll(s.log, s.procs)
    ensures AllSay(t.log) && CarriesAll(t.log, t.procs)
  {
    hide Step, FairReply, LogInv, Says, Exclusive, AllSay;
    var p := s.procs[pid];
    StepTold(s.log, p, reply);
    StepIsGood(s.log, p, reply);
    hide Carries, ProcInv;
    if t.log != s.log {
      AllSayAppend(s.log, t.log[|s.log|]);
    }
    forall i: nat | i < |t.procs| && i != pid
      ensures Carries(t.log, t.procs[i])
    {
      assert Carries(s.log, s.procs[i]) && ProcInv(s.log, s.procs[i]);
      if t.log != s.log {
        CarriesStays(s.log, t.log[|s.log|], s.procs[i]);
      }
    }
  }

  lemma OtherKeepsContents(s: Sys, t: Sys, w: Write<Stored>)
    requires Inv(s) && OtherStep(s, t, w) && AllSay(s.log) && CarriesAll(s.log, s.procs)
    ensures AllSay(t.log) && CarriesAll(t.log, t.procs)
  {
    hide LogInv, Exclusive, AllSay, Carries, ProcInv, ActionAt;
    AllSayAppend(s.log, w);
    forall i: nat | i < |t.procs|
      ensures Carries(t.log, t.procs[i])
    {
      assert Carries(s.log, s.procs[i]) && ProcInv(s.log, s.procs[i]);
      CarriesStays(s.log, w, s.procs[i]);
    }
  }

  lemma NextKeepsContents(s: Sys, t: Sys)
    requires Inv(s) && Next(s, t) && AllSay(s.log) && CarriesAll(s.log, s.procs)
    ensures AllSay(t.log) && CarriesAll(t.log, t.procs)
  {
    hide Inv, AllSay, ProcStep, OtherStep, Left, Holding, IsVersion;
    if pid: nat, reply :| ProcStep(s, t, pid, reply) {
      StepKeepsContents(s, t, pid, reply);
    } else if w :| OtherStep(s, t, w) {
      OtherKeepsContents(s, t, w);
    }
  }

  lemma {:induction false} RunKeepsContents(run: seq<Sys>, i: nat)
    requires IsRun(run) && i < |run|
    ensures AllSay(run[i].log) && CarriesAll(run[i].log, run[i].procs)
  {
    hide Next, Inv, Carries, Says;
    if i == 0 {
    } else {
      RunKeepsContents(run, i - 1);
      RunKeepsInv(run, i - 1);
      NextKeepsContents(run[i - 1], run[i]);
    }
  }

  /** In every run, a reducer that reports success has left in the bucket exactly what its command asks:
      `apply` the given value as the resolved state item and an applied receipt that names both
      revisions, `reject` a rejected receipt with the given reason and the base revision. */
  lemma SuccessLeaves(run: seq<Sys>, i: nat, pid: nat)
    requires IsRun(run) && i < |run| && pid < |run[i].procs|
    requires run[i].procs[pid].Done? && run[i].procs[pid].result.Success?
    ensures var p := run[i].procs[pid];
      Left(run[i].log, p.req, p.result.receiptRevision, p.result.stateRevision)
  {
    hide IsRun, AllSay, Left;
    RunKeepsContents(run, i);
    assert Carries(run[i].log, run[i].procs[pid]);
  }

  /** In every run, a reducer between its state write and its receipt has written the value it was given. */
  lemma WritesItsValue(run: seq<Sys>, i: nat, pid: nat)
    requires IsRun(run) && i < |run| && pid < |run[i].procs| && run[i].procs[pid].FinishingApplied?
    ensures var p := run[i].procs[pid];
      && p.req.Apply?
      && Holding(run[i].log, p.stateRev, p.act.stateKey, ResolvedItem, PlainBody(p.req.value), p.req.actionKey)
  {
    hide IsRun, AllSay, Holding;
    RunKeepsContents(run, i);
    assert Carries(run[i].log, run[i].procs[pid]);
  }

  /** In every run, whatever was crashed or lost, every write signed by a reducer is a resolved item
      under the state key of its action, or a receipt under the action's receipt key that names the
      action, its revision and its state key, has the status of its outcome, and once closed a real
      version of the state. */
  lemma ReducersSayTheTruth(run: seq<Sys>, i: nat, k: nat)
    requires IsRun(run) && i < |run| && k < |run[i].log|
    ensures Says(run[i].log[..k], run[i].log[k])
  {
    hide IsRun, CarriesAll, Says;
    RunKeepsContents(run, i);
    assert SaysAt(run[i].log, k);
  }
}
