/** What submit, apply and reject do when nothing interferes: the exact conditions of success, the exact
    reason otherwise, and the exact writes. */
module ActionAlone {
  import opened KeyValue
  import opened Text
  import opened ActionKeys
  import opened ActionProtocol
  import opened ActionSafety

  /** `n` steps of one process, with every call undisturbed. */
  function Alone(h: Log, p: Proc, n: nat): (Log, Proc)
    decreases n
  {
    if n == 0 then (h, p)
    else
      var (t, q) := Step(h, p, Clean);
      Alone(t, q, n - 1)
  }

  // ---------- what the bucket holds ----------

  /** The current version of a key, if it was ever written. */
  function Now(h: Log, key: string): (r: (nat, Stored))
    ensures r.0 == LastRevision(h, key)
  {
    var rev := LastRevision(h, key);
    (rev, if rev == 0 then Garbage else h[rev - 1].value)
  }

  /** An item that names its own key. */
  predicate Readable(item: Stored, key: string) {
    item.Item? && item.key == key
  }

  /** Why an action cannot be decided now, in the order the reducer finds out. */
  function Obstacle(h: Log, action: string): Reason {
    var (receiptRev, receipt) := Now(h, action + ".receipt");
    var (actionRev, item) := Now(h, action);
    if receiptRev > 0 then (if Readable(receipt, action + ".receipt") then DuplicateAction else MalformedItem)
    else if actionRev == 0 then ItemNotFound
    else if !Readable(item, action) then MalformedItem
    else if item.status != PendingItem then DuplicateAction
    else if !item.body.ActionBody? || !WellFormedAction(item.body.act, action) then MalformedAction
    else
      var (stateRev, state) := Now(h, item.body.act.stateKey);
      if stateRev == 0 then ItemNotFound
      else if !Readable(state, item.body.act.stateKey) then MalformedItem
      else if stateRev != item.body.act.baseRevision then StaleRevision
      else NoReason
  }

  /** An action of valid tokens, on a state key of its own application, based on a revision, stored under
      the key its parts spell. */
  predicate WellFormedAction(act: AppAction, key: string) {
    && TokenText(act.appID) && TokenText(act.participantID) && TokenText(act.actionID)
    && WellFormedKey(act.stateKey) && "apps." + act.appID + ".state." <= act.stateKey && act.baseRevision > 0
    && key == "apps." + act.appID + ".participants." + act.participantID + ".actions." + act.actionID
  }

  /** One or more of a-z, 0-9 and the dash. */
  predicate TokenText(s: string) {
    |s| > 0 && forall i :: 0 <= i < |s| ==>
      97 <= s[i] as int <= 122 || 48 <= s[i] as int <= 57 || s[i] as int == 45
  }

  /** a-z, A-Z, 0-9, and the dot, the underscore, the dash and the slash. */
  predicate KeyChar(c: char) {
    var n := c as int;
    97 <= n <= 122 || 65 <= n <= 90 || 48 <= n <= 57 || n == 46 || n == 95 || n == 45 || n == 47
  }

  /** Letters, digits and `._-/`; no slash at either end, no two slashes and no two dots together. */
  predicate WellFormedKey(key: string) {
    && key != "" && (forall i :: 0 <= i < |key| ==> KeyChar(key[i]))
    && !("/" <= key) && key[|key| - 1] != '/'
    && forall i :: 0 <= i < |key| - 1 ==> !(key[i] == key[i + 1] == '/') && !(key[i] == key[i + 1] == '.')
  }

  lemma ActionsAgree(act: AppAction, key: string)
    ensures ValidAction(act, key) <==> WellFormedAction(act, key)
  {
    assert forall c: char :: KeyChar(c) <==>
      ('a' <= c <= 'z' || 'A' <= c <= 'Z' || '0' <= c <= '9' || c in "._-/");
    KeysAgree(act.stateKey);
    TokenExactly(act.appID);
    TokenExactly(act.participantID);
    TokenExactly(act.actionID);
    hide ValidToken, ValidItemKey, WellFormedKey;
  }

  lemma KeysAgree(key: string)
    ensures ValidItemKey(key) <==> WellFormedKey(key)
  {
    if key != "" {
      assert "/" <= key <==> key[0] == '/';
      assert (forall c :: c in key ==> KeyChar(c)) <==> (forall i :: 0 <= i < |key| ==> KeyChar(key[i]));
      assert forall i :: 0 <= i < |key| - 1 && key[i] == key[i + 1] ==>
        (key[i] in "/." <==> key[i] == '/' || key[i] == '.');
    }
  }

  // ---------- deciding alone ----------

  lemma ReadsAlone(h: Log, key: string)
    ensures var (rev, item) := Now(h, key);
      ReadItem(h, key, Clean) ==
        if rev == 0 then NoView(ItemNotFound)
        else if Readable(item, key) then View(item, rev)
        else NoView(MalformedItem)
  {
    hide LastRevision;
  }

  /** The three checks of a reducer left alone come to `Obstacle`. */
  lemma ChecksAlone(h: Log, req: Request)
    ensures var why := Obstacle(h, req.actionKey);
      var (t, p) := Alone(h, ReadingReceipt(req), 3);
      && t == h
      && if why != NoReason then p == Done(req, Denied(why))
         else
           var act := Now(h, req.actionKey).1.body.act;
           p == CreatingReceipt(req, act, LastRevision(h, req.actionKey), act.baseRevision)
  {
    hide ReadItem, LastRevision, ValidAction, WellFormedAction, Now;
    var a := req.actionKey;
    ReadsAlone(h, a + ".receipt");
    ReadsAlone(h, a);
    ThreeSteps(h, ReadingReceipt(req));
    var item := Now(h, a).1;
    if item.Item? && item.body.ActionBody? {
      ActionsAgree(item.body.act, a);
      ReadsAlone(h, item.body.act.stateKey);
    }
  }

  lemma ThreeSteps(h: Log, p: Proc)
    ensures var (h1, p1) := Step(h, p, Clean);
      var (h2, p2) := Step(h1, p1, Clean);
      Alone(h, p, 3) == Step(h2, p2, Clean)
  {
    hide Step;
    var (h1, p1) := Step(h, p, Clean);
    var (h2, p2) := Step(h1, p1, Clean);
    var (h3, p3) := Step(h2, p2, Clean);
    assert Alone(h3, p3, 0) == (h3, p3);
    assert Alone(h2, p2, 1) == (h3, p3);
    assert Alone(h1, p1, 2) == (h3, p3);
  }

  lemma {:induction false} AloneSplits(h: Log, p: Proc, m: nat, n: nat)
    ensures var (t, q) := Alone(h, p, m);
      Alone(h, p, m + n) == Alone(t, q, n)
    decreases m
  {
    hide Step;
    if m == 0 {
    } else {
      var (t, q) := Step(h, p, Clean);
      AloneSplits(t, q, m - 1, n);
    }
  }

  lemma EndedStays(h: Log, req: Request, result: Result, n: nat)
    ensures Alone(h, Done(req, result), n) == (h, Done(req, result))
  {
    if n == 0 {
    } else {
      EndedStays(h, req, result, n - 1);
    }
  }

  /** A receipt as it is stored, signed by the reducer of its action. */
  function ReceiptWrite(r: Receipt, status: Status): (w: Write<Stored>)
    ensures w.key == r.actionKey + ".receipt"
  {
    var key := r.actionKey + ".receipt";
    Write(key, Item(key, status, ReceiptBody(r), ByReducer(r.actionKey)))
  }

  function StateWrite(key: string, value: string, action: string): (w: Write<Stored>)
    ensures w.key == key
  {
    Write(key, Item(key, ResolvedItem, PlainBody(value), ByReducer(action)))
  }

  function AppliedWrites(h: Log, action: string, value: string): (all: Log)
    requires Now(h, action).1.Item? && Now(h, action).1.body.ActionBody?
    ensures |all| == 3
  {
    var (rev, item) := Now(h, action);
    var key := item.body.act.stateKey;
    [ReceiptWrite(Receipt(action, key, rev, 0, Applying, NoReason), PendingItem),
     StateWrite(key, value, action),
     ReceiptWrite(Receipt(action, key, rev, |h| + 2, Applied, NoReason), ResolvedItem)]
  }

  /** `apply` on its own: denied for the first obstacle, without a write; else it writes the applying
      receipt, the value, and the applied receipt, and reports their revisions. */
  lemma AppliesExactly(h: Log, action: string, value: string)
    ensures var why := Obstacle(h, action);
      var (t, p) := Alone(h, ReadingReceipt(Apply(action, value)), 6);
      if why != NoReason then t == h && p == Done(Apply(action, value), Denied(why))
      else
        && Now(h, action).1.Item? && Now(h, action).1.body.ActionBody?
        && t == h + AppliedWrites(h, action, value)
        && p == Done(Apply(action, value), Success(|h| + 3, |h| + 2))
  {
    hide Alone, Obstacle, Step, WellFormedAction, ValidAction, ReceiptWrite, StateWrite;
    var req := Apply(action, value);
    ChecksAlone(h, req);
    AloneSplits(h, ReadingReceipt(req), 3, 3);
    var why := Obstacle(h, action);
    if why != NoReason {
      EndedStays(h, req, Denied(why), 3);
    } else {
      ObstacleFree(h, action);
      var act := Now(h, action).1.body.act;
      ActionsAgree(act, action);
      StateNotReceipt(act, action);
      WritesAlone(h, req, act, LastRevision(h, action));
      OneByOne(h, AppliedWrites(h, action, value));
    }
  }

  lemma OneByOne(h: Log, all: Log)
    requires |all| == 3
    ensures h + [all[0]] + [all[1]] + [all[2]] == h + all
  {
  }

  lemma ObstacleFree(h: Log, action: string)
    requires Obstacle(h, action) == NoReason
    ensures var (rev, item) := Now(h, action);
      && LastRevision(h, action + ".receipt") == 0 && rev > 0 && item.Item? && item.body.ActionBody?
      && WellFormedAction(item.body.act, action)
      && LastRevision(h, item.body.act.stateKey) == item.body.act.baseRevision
  {
    hide LastRevision, WellFormedAction;
  }

  lemma WritesAlone(h: Log, req: Request, act: AppAction, rev: nat)
    requires req.Apply? && act.stateKey != req.actionKey + ".receipt"
    requires LastRevision(h, req.actionKey + ".receipt") == 0 && LastRevision(h, act.stateKey) == act.baseRevision
    ensures var a, key := req.actionKey, act.stateKey;
      Alone(h, CreatingReceipt(req, act, rev, act.baseRevision), 3)
      == (h + [ReceiptWrite(Receipt(a, key, rev, 0, Applying, NoReason), PendingItem)]
          + [StateWrite(key, req.value, a)]
          + [ReceiptWrite(Receipt(a, key, rev, |h| + 2, Applied, NoReason), ResolvedItem)],
          Done(req, Success(|h| + 3, |h| + 2)))
  {
    hide LastRevision, Step, ReceiptWrite, StateWrite, Alone;
    var a, key := req.actionKey, act.stateKey;
    var w := ReceiptWrite(Receipt(a, key, rev, 0, Applying, NoReason), PendingItem);
    var h1 := h + [w];
    FirstWrite(h, req, act, rev);
    AloneStep(h, CreatingReceipt(req, act, rev, act.baseRevision), 3);
    LastRevisionAppend(h, w, a + ".receipt");
    LastRevisionAppend(h, w, key);
    LaterWrites(h1, req, act, rev, |h| + 1);
  }

  lemma LaterWrites(h: Log, req: Request, act: AppAction, rev: nat, receiptRev: nat)
    requires req.Apply? && act.stateKey != req.actionKey + ".receipt"
    requires LastRevision(h, req.actionKey + ".receipt") == receiptRev
    requires LastRevision(h, act.stateKey) == act.baseRevision
    ensures var a, key := req.actionKey, act.stateKey;
      Alone(h, WritingState(req, act, rev, receiptRev), 2)
      == (h + [StateWrite(key, req.value, a)]
          + [ReceiptWrite(Receipt(a, key, rev, |h| + 1, Applied, NoReason), ResolvedItem)],
          Done(req, Success(|h| + 2, |h| + 1)))
  {
    hide LastRevision, Step, ReceiptWrite, StateWrite, Alone;
    var v := StateWrite(act.stateKey, req.value, req.actionKey);
    SecondWrite(h, req, act, rev, receiptRev);
    AloneStep(h, WritingState(req, act, rev, receiptRev), 2);
    LastRevisionAppend(h, v, req.actionKey + ".receipt");
    ThirdWrite(h + [v], req, act, rev, receiptRev, |h| + 1);
    OneStep(h + [v], FinishingApplied(req, act, rev, receiptRev, |h| + 1));
  }

  lemma AloneStep(h: Log, p: Proc, n: nat)
    requires n > 0
    ensures Alone(h, p, n) == Alone(Step(h, p, Clean).0, Step(h, p, Clean).1, n - 1)
  {
    hide Step;
  }

  lemma FirstWrite(h: Log, req: Request, act: AppAction, rev: nat)
    requires req.Apply? && LastRevision(h, req.actionKey + ".receipt") == 0
    ensures Step(h, CreatingReceipt(req, act, rev, act.baseRevision), Clean)
      == (h + [ReceiptWrite(Receipt(req.actionKey, act.stateKey, rev, 0, Applying, NoReason), PendingItem)],
          WritingState(req, act, rev, |h| + 1))
  {
    hide LastRevision;
  }

  lemma SecondWrite(h: Log, req: Request, act: AppAction, rev: nat, receiptRev: nat)
    requires req.Apply? && LastRevision(h, act.stateKey) == act.baseRevision
    ensures Step(h, WritingState(req, act, rev, receiptRev), Clean)
            == (h + [StateWrite(act.stateKey, req.value, req.actionKey)],
                FinishingApplied(req, act, rev, receiptRev, |h| + 1))
  {
    hide LastRevision;
  }

  lemma ThirdWrite(h: Log, req: Request, act: AppAction, rev: nat, receiptRev: nat, stateRev: nat)
    requires LastRevision(h, req.actionKey + ".receipt") == receiptRev
    ensures Step(h, FinishingApplied(req, act, rev, receiptRev, stateRev), Clean)
      == (h + [ReceiptWrite(Receipt(req.actionKey, act.stateKey, rev, stateRev, Applied, NoReason), ResolvedItem)],
          Done(req, Success(|h| + 1, stateRev)))
  {
    hide LastRevision;
  }

  lemma StateNotReceipt(act: AppAction, action: string)
    requires ValidAction(act, action)
    ensures act.stateKey != action + ".receipt"
  {
    hide ActionKey;
    ValidActionKeys(act, action);
    KeysDisjoint(act.stateKey);
    assert IsReceiptKey(ReceiptKey(action));
  }

  /** `reject` on its own: the same obstacles; else one rejected receipt. */
  lemma RejectsExactly(h: Log, action: string, reason: Reason)
    ensures var why := Obstacle(h, action);
      var (t, p) := Alone(h, ReadingReceipt(Reject(action, reason)), 4);
      if why != NoReason then t == h && p == Done(Reject(action, reason), Denied(why))
      else
        var (rev, item) := Now(h, action);
        && item.Item? && item.body.ActionBody?
        && var key, base := item.body.act.stateKey, item.body.act.baseRevision;
        && t == h + [ReceiptWrite(Receipt(action, key, rev, base, Rejected, reason), DeniedItem)]
        && p == Done(Reject(action, reason), Success(|h| + 1, base))
  {
    hide Alone, Obstacle, Step;
    var req := Reject(action, reason);
    ChecksAlone(h, req);
    AloneSplits(h, ReadingReceipt(req), 3, 1);
    var why := Obstacle(h, action);
    if why != NoReason {
      EndedStays(h, req, Denied(why), 1);
    } else {
      ObstacleFree(h, action);
      var act := Now(h, action).1.body.act;
      OneStep(h, CreatingReceipt(req, act, LastRevision(h, action), act.baseRevision));
      RejectWrite(h, req, act, LastRevision(h, action));
    }
  }

  lemma OneStep(h: Log, p: Proc)
    ensures Alone(h, p, 1) == Step(h, p, Clean)
  {
    hide Step;
    var (t, q) := Step(h, p, Clean);
    assert Alone(t, q, 0) == (t, q);
  }

  lemma RejectWrite(h: Log, req: Request, act: AppAction, rev: nat)
    requires req.Reject? && LastRevision(h, req.actionKey + ".receipt") == 0
    ensures Step(h, CreatingReceipt(req, act, rev, act.baseRevision), Clean)
      == (h + [ReceiptWrite(Receipt(req.actionKey, act.stateKey, rev, act.baseRevision, Rejected, req.reason),
                            DeniedItem)],
          Done(req, Success(|h| + 1, act.baseRevision)))
  {
    hide LastRevision;
  }

  // ---------- a lost race ----------

  /** `apply` overtaken between its receipt and its write: the state stays as the other left it, and the
      receipt is closed as rejected for a stale revision, naming the version that won. */
  lemma OvertakenIsRejected(h: Log, p: Proc)
    requires p.WritingState? && LastRevision(h, p.act.stateKey) > p.act.baseRevision
    requires Readable(Now(h, p.act.stateKey).1, p.act.stateKey)
    requires LastRevision(h, p.req.actionKey + ".receipt") == p.receiptRev
    ensures Alone(h, p, 3)
      == (h + [ReceiptWrite(Receipt(p.req.actionKey, p.act.stateKey, p.actionRev, LastRevision(h, p.act.stateKey),
                                    Rejected, StaleRevision), DeniedItem)],
          Done(p.req, Denied(StaleRevision)))
  {
    hide Alone, LastRevision;
    ThreeSteps(h, p);
    ReadsAlone(h, p.act.stateKey);
    hide ReadItem, Now;
  }

  // ---------- submitting alone ----------

  /** A submission alone is accepted exactly if its base is the state's current revision and its action
      was not submitted before; it writes the pending action and nothing else. */
  lemma SubmitsExactly(h: Log, act: AppAction)
    requires act.baseRevision > 0
    ensures var key := "apps." + act.appID + ".participants." + act.participantID + ".actions." + act.actionID;
      var accepted := LastRevision(h, act.stateKey) == act.baseRevision && LastRevision(h, key) == 0;
      Alone(h, SubmitReading(act), 2)
      == (if accepted then h + [Write(key, Item(key, PendingItem, ActionBody(act), BySubmit))] else h,
          SubmitDone(accepted))
  {
    hide LastRevision;
    var (t, q) := Step(h, SubmitReading(act), Clean);
    var (u, r) := Step(t, q, Clean);
    assert Alone(u, r, 0) == (u, r);
    assert Alone(t, q, 1) == (u, r);
  }

  /** The daemon starts a submission exactly for two valid tokens in the subject, a valid action id, a
      well-formed state key of the application, a base revision and a JSON payload. */
  lemma SubmissionExactly(app: string, sub: Submission)
    ensures ValidSubmission(app, sub) <==>
      && TokenText(sub.actionID) && WellFormedKey(sub.stateKey) && "apps." + app + ".state." <= sub.stateKey
      && sub.baseRevision > 0 && sub.json
  {
    KeysAgree(sub.stateKey);
    TokenExactly(sub.actionID);
    hide WellFormedKey, ValidItemKey, ValidToken;
  }
}
