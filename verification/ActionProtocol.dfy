/** The action apply/reject protocol as a state machine: any number of submitters and reducers, each
    key-value call one atomic step, crashes anywhere, and calls whose effect and reply can be lost. */
module ActionProtocol {
  import opened KeyValue
  import opened ActionKeys
  import opened Text

  datatype AppAction = AppAction(
    appID: string, participantID: string, actionID: string,
    stateKey: string, baseRevision: nat, payload: string)

  datatype Outcome = Applying | Applied | Rejected

  datatype Receipt = Receipt(
    actionKey: string, stateKey: string, actionRevision: nat, stateRevision: nat,
    outcome: Outcome, reason: Reason)

  datatype Reason =
    | NoReason
    | DuplicateAction
    | ItemNotFound
    | MalformedItem
    | MalformedAction
    | StaleRevision
    | OtherReason(text: string)

  datatype Status = PendingItem | ResolvedItem | DeniedItem | OtherStatus(text: string)

  /** The value of an item, by the kind it decodes to. */
  datatype Body = ActionBody(act: AppAction) | ReceiptBody(receipt: Receipt) | PlainBody(text: string)

  /** The writer label and, for reducers, the action named in the item's source. */
  datatype Provenance = ByReducer(actionKey: string) | BySubmit | ByOther

  /** `Garbage` is anything that does not decode to an item record. */
  datatype Stored =
    | Garbage
    | Item(key: string, status: Status, body: Body, provenance: Provenance)

  type Log = seq<Write<Stored>>

  // ---------- decoding and validation ----------

  datatype Read = View(item: Stored, revision: nat) | NoView(reason: Reason)

  /** What one Get reports to the caller; a failed call carries whatever reason its error maps to. */
  datatype Reply = Clean | Failing(link: Link, reason: Reason)

  function ReadItem(h: Log, key: string, reply: Reply): (r: Read) {
    if reply.Failing? then NoView(reply.reason)
    else match Lookup(h, key)
      case Missing => NoView(ItemNotFound)
      case Found(e) =>
        if e.value.Item? && e.value.key == key then View(e.value, e.revision)
        else NoView(MalformedItem)
  }

  predicate ValidItemKey(key: string) {
    && key != "" && key[0] != '/' && key[|key| - 1] != '/'
    && (forall i :: 0 <= i < |key| - 1 ==> !(key[i] == key[i + 1] && key[i] in "/."))
    && forall c :: c in key ==>
         'a' <= c <= 'z' || 'A' <= c <= 'Z' || '0' <= c <= '9' || c in "._-/"
  }

  /** The body of a submit message; `json` says whether its payload is present and valid JSON. */
  datatype Submission = Submission(actionID: string, stateKey: string, baseRevision: nat, payload: string, json: bool)

  predicate ValidSubmission(app: string, sub: Submission) {
    ValidToken(sub.actionID) && ValidItemKey(sub.stateKey) && StatePrefix(app) <= sub.stateKey && sub.baseRevision != 0
    && sub.json
  }

  function SubmittedAction(app: string, participant: string, sub: Submission): AppAction {
    AppAction(app, participant, sub.actionID, sub.stateKey, sub.baseRevision, sub.payload)
  }

  predicate ValidAction(act: AppAction, key: string) {
    && ValidToken(act.appID) && ValidToken(act.participantID) && ValidToken(act.actionID)
    && ValidItemKey(act.stateKey)
    && StatePrefix(act.appID) <= act.stateKey
    && act.baseRevision != 0
    && ActionKey(act.appID, act.participantID, act.actionID) == key
  }

  // ---------- what reducers and submitters write ----------

  function ReceiptItem(action: string, r: Receipt, status: Status): Stored {
    Item(ReceiptKey(action), status, ReceiptBody(r), ByReducer(action))
  }

  function StateItem(act: AppAction, action: string, value: string): Stored {
    Item(act.stateKey, ResolvedItem, PlainBody(value), ByReducer(action))
  }

  function ActionItem(act: AppAction): Stored {
    Item(ActionKey(act.appID, act.participantID, act.actionID), PendingItem, ActionBody(act), BySubmit)
  }

  // ---------- processes ----------

  datatype Request = Apply(actionKey: string, value: string) | Reject(actionKey: string, reason: Reason)

  datatype Result = Success(receiptRevision: nat, stateRevision: nat) | Denied(reason: Reason)

  datatype Proc =
    | ReadingReceipt(req: Request)
    | ReadingAction(req: Request)
    | ReadingState(req: Request, act: AppAction, actionRev: nat)
    | CreatingReceipt(req: Request, act: AppAction, actionRev: nat, stateRev: nat)
    | WritingState(req: Request, act: AppAction, actionRev: nat, receiptRev: nat)
    | FinishingApplied(req: Request, act: AppAction, actionRev: nat, receiptRev: nat, stateRev: nat)
    | ReadingLatest(req: Request, act: AppAction, actionRev: nat, receiptRev: nat)
    | FinishingStale(req: Request, act: AppAction, actionRev: nat, receiptRev: nat, latestRev: nat)
    | Done(req: Request, result: Result)
    | SubmitReading(sub: AppAction)
    | SubmitCreating(sub: AppAction)
    | SubmitDone(accepted: bool)
    | Crashed

  /** An error of a call that took effect is never the one a lost comparison gives. */
  predicate FairReply(reply: Reply) {
    reply.Failing? && reply.link == ReplyLost ==> reply.reason != StaleRevision
  }

  function LinkOf(reply: Reply): Link {
    if reply.Clean? then Delivered else reply.link
  }

  function WriteReason(ack: Ack, reply: Reply, conflict: Reason): Reason {
    if ack.Unknown? && reply.Failing? then reply.reason else conflict
  }

  function ApplyingReceipt(p: Proc): Receipt
    requires p.CreatingReceipt?
  {
    Receipt(p.req.actionKey, p.act.stateKey, p.actionRev, 0, Applying, NoReason)
  }

  function RejectedReceipt(p: Proc): Receipt
    requires p.CreatingReceipt? && p.req.Reject?
  {
    Receipt(p.req.actionKey, p.act.stateKey, p.actionRev, p.stateRev, Rejected, p.req.reason)
  }

  function AppliedReceipt(p: Proc): Receipt
    requires p.FinishingApplied?
  {
    Receipt(p.req.actionKey, p.act.stateKey, p.actionRev, p.stateRev, Applied, NoReason)
  }

  function StaleReceipt(p: Proc): Receipt
    requires p.FinishingStale?
  {
    Receipt(p.req.actionKey, p.act.stateKey, p.actionRev, p.latestRev, Rejected, StaleRevision)
  }

  // One key-value call of a process and the code up to its next call.

  function ReadReceipt(h: Log, p: Proc, reply: Reply): Proc
    requires p.ReadingReceipt?
  {
    match ReadItem(h, ReceiptKey(p.req.actionKey), reply)
    case View(_, _) => Done(p.req, Denied(DuplicateAction))
    case NoView(reason) =>
      if reason != ItemNotFound then Done(p.req, Denied(reason)) else ReadingAction(p.req)
  }

  function ReadAction(h: Log, p: Proc, reply: Reply): Proc
    requires p.ReadingAction?
  {
    match ReadItem(h, p.req.actionKey, reply)
    case NoView(reason) => Done(p.req, Denied(reason))
    case View(item, rev) =>
      if item.status != PendingItem then Done(p.req, Denied(DuplicateAction))
      else if !item.body.ActionBody? || !ValidAction(item.body.act, p.req.actionKey)
      then Done(p.req, Denied(MalformedAction))
      else ReadingState(p.req, item.body.act, rev)
  }

  function ReadState(h: Log, p: Proc, reply: Reply): Proc
    requires p.ReadingState?
  {
    match ReadItem(h, p.act.stateKey, reply)
    case NoView(reason) => Done(p.req, Denied(reason))
    case View(_, rev) =>
      if rev != p.act.baseRevision then Done(p.req, Denied(StaleRevision))
      else CreatingReceipt(p.req, p.act, p.actionRev, rev)
  }

  function FirstReceipt(p: Proc): Stored
    requires p.CreatingReceipt?
  {
    if p.req.Apply? then ReceiptItem(p.req.actionKey, ApplyingReceipt(p), PendingItem)
    else ReceiptItem(p.req.actionKey, RejectedReceipt(p), DeniedItem)
  }

  function CreateReceipt(h: Log, p: Proc, reply: Reply): (Log, Proc)
    requires p.CreatingReceipt?
  {
    var (h', ack) := CompareAndSet(h, ReceiptKey(p.req.actionKey), FirstReceipt(p), 0, LinkOf(reply));
    (h', if !ack.Wrote? then Done(p.req, Denied(WriteReason(ack, reply, DuplicateAction)))
         else if p.req.Apply? then WritingState(p.req, p.act, p.actionRev, ack.revision)
         else Done(p.req, Success(ack.revision, p.stateRev)))
  }

  function NewState(p: Proc): Stored
    requires p.WritingState?
  {
    StateItem(p.act, p.req.actionKey, if p.req.Apply? then p.req.value else "")
  }

  function WriteState(h: Log, p: Proc, reply: Reply): (Log, Proc)
    requires p.WritingState?
  {
    var (h', ack) := CompareAndSet(h, p.act.stateKey, NewState(p), p.act.baseRevision, LinkOf(reply));
    var reason := WriteReason(ack, reply, StaleRevision);
    (h', if ack.Wrote? then FinishingApplied(p.req, p.act, p.actionRev, p.receiptRev, ack.revision)
         else if reason == StaleRevision then ReadingLatest(p.req, p.act, p.actionRev, p.receiptRev)
         else Done(p.req, Denied(reason)))
  }

  function FinishApplied(h: Log, p: Proc, reply: Reply): (Log, Proc)
    requires p.FinishingApplied?
  {
    var item := ReceiptItem(p.req.actionKey, AppliedReceipt(p), ResolvedItem);
    var (h', ack) := CompareAndSet(h, ReceiptKey(p.req.actionKey), item, p.receiptRev, LinkOf(reply));
    (h', if ack.Wrote? then Done(p.req, Success(ack.revision, p.stateRev))
         else Done(p.req, Denied(WriteReason(ack, reply, StaleRevision))))
  }

  function ReadLatest(h: Log, p: Proc, reply: Reply): Proc
    requires p.ReadingLatest?
  {
    match ReadItem(h, p.act.stateKey, reply)
    case NoView(_) => Done(p.req, Denied(StaleRevision))
    case View(_, rev) => FinishingStale(p.req, p.act, p.actionRev, p.receiptRev, rev)
  }

  function FinishStale(h: Log, p: Proc, reply: Reply): (Log, Proc)
    requires p.FinishingStale?
  {
    var item := ReceiptItem(p.req.actionKey, StaleReceipt(p), DeniedItem);
    (CompareAndSet(h, ReceiptKey(p.req.actionKey), item, p.receiptRev, LinkOf(reply)).0,
     Done(p.req, Denied(StaleRevision)))
  }

  function SubmitRead(h: Log, p: Proc, reply: Reply): Proc
    requires p.SubmitReading?
  {
    match if reply.Failing? then Missing else Lookup(h, p.sub.stateKey)
    case Missing => SubmitDone(false)
    case Found(e) => if e.revision != p.sub.baseRevision then SubmitDone(false) else SubmitCreating(p.sub)
  }

  function SubmitCreate(h: Log, p: Proc, reply: Reply): (Log, Proc)
    requires p.SubmitCreating?
  {
    var item := ActionItem(p.sub);
    var (h', ack) := CompareAndSet(h, item.key, item, 0, LinkOf(reply));
    (h', SubmitDone(ack.Wrote?))
  }

  function Step(h: Log, p: Proc, reply: Reply): (Log, Proc) {
    if p.ReadingReceipt? then (h, ReadReceipt(h, p, reply))
    else if p.ReadingAction? then (h, ReadAction(h, p, reply))
    else if p.ReadingState? then (h, ReadState(h, p, reply))
    else if p.CreatingReceipt? then CreateReceipt(h, p, reply)
    else if p.WritingState? then WriteState(h, p, reply)
    else if p.FinishingApplied? then FinishApplied(h, p, reply)
    else if p.ReadingLatest? then (h, ReadLatest(h, p, reply))
    else if p.FinishingStale? then FinishStale(h, p, reply)
    else if p.SubmitReading? then (h, SubmitRead(h, p, reply))
    else if p.SubmitCreating? then SubmitCreate(h, p, reply)
    else (h, p)
  }

  // ---------- the system ----------

  datatype Sys = Sys(log: Log, procs: seq<Proc>)

  predicate Initial(p: Proc) {
    match p
    case ReadingReceipt(_) => true
    case SubmitReading(sub) =>
      ValidAction(sub, ActionKey(sub.appID, sub.participantID, sub.actionID))
    case _ => false
  }

  /** Everybody else writes what they like, except action and receipt items, and never signs as a
      reducer. */
  ghost predicate OtherWrite(w: Write<Stored>) {
    && !IsActionKey(w.key) && !IsReceiptKey(w.key)
    && (w.value.Item? ==> !w.value.provenance.ByReducer?)
  }

  ghost predicate ProcStep(s: Sys, t: Sys, pid: nat, reply: Reply) {
    && pid < |s.procs| && FairReply(reply)
    && t == Sys(Step(s.log, s.procs[pid], reply).0, s.procs[pid := Step(s.log, s.procs[pid], reply).1])
  }

  ghost predicate CrashStep(s: Sys, t: Sys, pid: nat) {
    pid < |s.procs| && t == s.(procs := s.procs[pid := Crashed])
  }

  ghost predicate SpawnStep(s: Sys, t: Sys, p: Proc) {
    Initial(p) && t == s.(procs := s.procs + [p])
  }

  ghost predicate OtherStep(s: Sys, t: Sys, w: Write<Stored>) {
    OtherWrite(w) && t == s.(log := s.log + [w])
  }

  ghost predicate Next(s: Sys, t: Sys) {
    || (exists pid, reply :: ProcStep(s, t, pid, reply))
    || (exists pid :: CrashStep(s, t, pid))
    || (exists p :: SpawnStep(s, t, p))
    || (exists w :: OtherStep(s, t, w))
  }

  ghost predicate IsRun(run: seq<Sys>) {
    && |run| > 0 && run[0] == Sys([], [])
    && forall i :: 0 <= i < |run| - 1 ==> Next(run[i], run[i + 1])
  }

  // ---------- what the history says about one action ----------

  predicate ByReducerOf(w: Write<Stored>, action: string) {
    w.value.Item? && w.value.provenance == ByReducer(action)
  }

  /** A write an action made to anything but its own receipt. */
  predicate IsStateWrite(w: Write<Stored>, action: string) {
    ByReducerOf(w, action) && w.key != ReceiptKey(action)
  }

  predicate IsReceiptWrite(w: Write<Stored>, action: string, outcome: Outcome) {
    && w.key == ReceiptKey(action) && w.value.Item?
    && w.value.body.ReceiptBody? && w.value.body.receipt.outcome == outcome
  }

  /** The action item as it stands in the history. */
  predicate ActionIs(h: Log, action: string, act: AppAction, rev: nat) {
    && rev > 0 && LastRevision(h, action) == rev
    && h[rev - 1].value == ActionItem(act)
    && ValidAction(act, action)
  }

  ghost predicate StateWriteAllowed(h: Log, w: Write<Stored>, action: string) {
    exists act, rev :: ActionIs(h, action, act, rev)
                       && w.key == act.stateKey && LastRevision(h, w.key) == act.baseRevision
  }

  datatype Phase =
    | Fresh
    | Pending(receiptRev: nat)
    | Written(receiptRev: nat, stateRev: nat)
    | Settled(stateRev: nat)
    | Refused
    | Broken

  /** The only shape an action's own writes may take: nothing; an "applying" receipt; then at most
      one state write; then one closing receipt. `Broken` marks any other sequence. */
  ghost function Advance(h: Log, phase: Phase, w: Write<Stored>, action: string): Phase {
    if !ByReducerOf(w, action) then (if w.key == ReceiptKey(action) then Broken else phase)
    else if IsStateWrite(w, action) then
      (if phase.Pending? && StateWriteAllowed(h, w, action) then Written(phase.receiptRev, |h| + 1) else Broken)
    else if !w.value.body.ReceiptBody? || w.value.body.receipt.actionKey != action then Broken
    else
      var r := w.value.body.receipt;
      match (phase, r.outcome)
      case (Fresh, Applying) => Pending(|h| + 1)
      case (Fresh, Rejected) => Refused
      case (Pending(_), Rejected) => Refused
      case (Written(_, stateRev), Applied) =>
        if r.stateRevision == stateRev && 0 < stateRev <= |h| && r.stateKey == h[stateRev - 1].key
        then Settled(stateRev) else Broken
      case _ => Broken
  }

  ghost function PhaseOf(h: Log, action: string): Phase {
    if h == [] then Fresh
    else Advance(h[..|h| - 1], PhaseOf(h[..|h| - 1], action), h[|h| - 1], action)
  }

  lemma PhaseAppend(h: Log, w: Write<Stored>, action: string)
    ensures PhaseOf(h + [w], action) == Advance(h, PhaseOf(h, action), w, action)
  {
    assert (h + [w])[..|h|] == h;
  }
}
