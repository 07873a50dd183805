/** Any number of routers and script loops on one ledger and one claim bucket: each message is
    accepted at most once and run at most once, in every interleaving of their single steps. */
module AtMostOnce {
  import opened Records
  import opened Numbers
  import opened Encoding
  import opened KeyValue
  import opened Ledger
  import opened KVLedger
  import opened Schedule
  import opened SourceRouter

  // ---------- the machine ----------

  /** A router handling one delivery; each phase ends with one call to the ledger bucket. */
  datatype Phase =
    | Arrived(auth: Auth, act: Activation)
    | Fresh(act: Activation)
    | Advancing(act: Activation, rec: LedgerRecord)
    | Recorded(act: Activation, rec: LedgerRecord)
    | Answered(act: Activation, result: Result<LedgerRecord>, taken: bool)

  datatype Stage = Claiming | Ran | Skipped

  /** A script loop handling the answer of router `origin` with the script revision it loaded. */
  datatype Loop = Loop(origin: nat, act: Activation, revision: nat, stage: Stage)

  datatype Claim = Claim(activationID: string, scriptKey: string, revision: nat)

  datatype Sys = Sys(
    ledger: History, claims: seq<Write<Claim>>, routers: map<nat, Phase>, loops: map<nat, Loop>)

  const START := Sys([], [], map[], map[])

  /** What happens next: a message reaches some router, a router takes its next step, an accepted
      answer is taken by a script loop, or a loop claims its run. */
  datatype Event =
    | Deliver(p: nat, auth: Auth, act: Activation)
    | Route(p: nat, link: Link)
    | Hand(l: nat, p: nat, revision: nat)
    | ClaimRun(l: nat, link: Link)

  function RunKey(act: Activation, revision: nat): string {
    "r." + KeyEnc(act.activationID) + "_" + Itoa(revision)
  }

  function Answer(act: Activation, result: Result<LedgerRecord>): Phase {
    Answered(act, result, false)
  }

  function Arrive(h: History, auth: Auth, act: Activation): Phase {
    match Admit(auth, act)
    case Some(kind) => Answer(act, Err(kind))
    case None =>
      match Precheck(act, LeaseOf(act))
      case Some(kind) => Answer(act, Err(kind))
      case None =>
        match ValueAt(h, AcceptedKey(act.dedupeKey))
        case Some(rec) => Answer(act, Ok(rec.(status := Duplicate)))
        case None => Fresh(act)
  }

  function Examine(h: History, act: Activation, link: Link): (History, Phase) {
    match SourcePosition(act.source)
    case Err(kind) => (h, Answer(act, Err(kind)))
    case Ok((pos, cursor)) =>
      var rec := MakeRecord(act, pos, cursor);
      if HopsExhausted(act.chain) then
        (if link == Dropped then h else h + [Write(SuppressedKey(rec.replayCursor), rec.(status := Suppressed))],
         Answer(act, Err(if link == Delivered then LoopSuppressed else WriteConflict)))
      else
        var prev := ValueAt(h, SourceKey(rec.sourceID));
        (h, if prev.Some? && Stale(prev.value, rec) then Answer(act, Err(StaleCursor)) else Advancing(act, rec))
  }

  /** One step of a router, with at most one write. */
  function RouterStep(h: History, phase: Phase, link: Link): (History, Phase) {
    match phase
    case Arrived(auth, act) => (h, Arrive(h, auth, act))
    case Fresh(act) => Examine(h, act, link)
    case Advancing(act, rec) =>
      var (t, ack) := CompareAndSet(h, AcceptedKey(rec.dedupeKey), rec, 0, link);
      (t, if ack.Wrote? then Recorded(act, rec) else Answer(act, Err(WriteConflict)))
    case Recorded(act, rec) =>
      (if link == Dropped then h else h + [Write(SourceKey(rec.sourceID), rec)],
       Answer(act, if link == Delivered then Ok(rec) else Err(WriteConflict)))
    case Answered(_, _, _) => (h, phase)
  }

  predicate Acceptance(phase: Phase) {
    phase.Answered? && phase.result.Ok? && phase.result.value.status == Accepted
  }

  function Do(s: Sys, e: Event): Sys {
    match e
    case Deliver(p, auth, act) =>
      if p in s.routers then s else s.(routers := s.routers[p := Arrived(auth, act)])
    case Route(p, link) =>
      if p !in s.routers then s
      else
        var (h, phase) := RouterStep(s.ledger, s.routers[p], link);
        s.(ledger := h, routers := s.routers[p := phase])
    case Hand(l, p, revision) =>
      if l in s.loops || p !in s.routers || !Acceptance(s.routers[p]) || s.routers[p].taken then s
      else
        s.(routers := s.routers[p := s.routers[p].(taken := true)],
           loops := s.loops[l := Loop(p, s.routers[p].act, revision, Claiming)])
    case ClaimRun(l, link) =>
      if l !in s.loops || s.loops[l].stage != Claiming then s
      else
        var loop := s.loops[l];
        var claim := Claim(loop.act.activationID, loop.act.scriptKey, loop.revision);
        var (h, ack) := CompareAndSet(s.claims, RunKey(loop.act, loop.revision), claim, 0, link);
        s.(claims := h, loops := s.loops[l := loop.(stage := if ack.Wrote? then Ran else Skipped)])
  }

  function Exec(s: Sys, events: seq<Event>): Sys {
    if events == [] then s else Do(Exec(s, events[..|events| - 1]), events[|events| - 1])
  }

  // ---------- what every step keeps ----------

  /** The router whose create succeeded for this activation. */
  predicate Creator(phase: Phase) {
    phase.Recorded? || Acceptance(phase)
  }

  predicate PhaseOk(h: History, phase: Phase) {
    && (phase.Advancing? || phase.Recorded? ==>
          phase.rec.dedupeKey == phase.act.dedupeKey && phase.rec.status == Accepted)
    && (Creator(phase) ==> LastRevision(h, AcceptedKey(phase.act.dedupeKey)) > 0)
  }

  ghost predicate RoutersOk(h: History, routers: map<nat, Phase>) {
    && (forall p :: p in routers ==> PhaseOk(h, routers[p]))
    && (forall p, q :: p in routers && q in routers && p != q && Creator(routers[p]) && Creator(routers[q]) ==>
          routers[p].act.dedupeKey != routers[q].act.dedupeKey)
  }

  predicate Taken(routers: map<nat, Phase>, loop: Loop) {
    && loop.origin in routers
    && Acceptance(routers[loop.origin]) && routers[loop.origin].taken && routers[loop.origin].act == loop.act
  }

  ghost predicate LoopsOk(claims: seq<Write<Claim>>, routers: map<nat, Phase>, loops: map<nat, Loop>) {
    && (forall l :: l in loops ==> Taken(routers, loops[l]))
    && (forall l, m :: l in loops && m in loops && l != m ==> loops[l].origin != loops[m].origin)
    && (forall l :: l in loops && loops[l].stage == Ran ==> LastRevision(claims, KeyOf(loops[l])) > 0)
    && (forall l, m :: l in loops && m in loops && l != m && loops[l].stage == Ran && loops[m].stage == Ran ==>
          KeyOf(loops[l]) != KeyOf(loops[m]))
  }

  function KeyOf(loop: Loop): string {
    RunKey(loop.act, loop.revision)
  }

  ghost predicate Inv(s: Sys) {
    KeysOk(s.ledger) && RoutersOk(s.ledger, s.routers) && LoopsOk(s.claims, s.routers, s.loops)
  }

  lemma StillWritten<V>(h: seq<Write<V>>, w: Write<V>, key: string)
    requires LastRevision(h, key) > 0
    ensures LastRevision(h + [w], key) > 0
  {
    LastRevisionAppend(h, w, key);
  }

  /** A router's step appends at most one write, keeps the key discipline of the bucket, and can
      only become a creator when nothing was recorded under its key. */
  ghost predicate StepOk(h: History, phase: Phase, t: History, next: Phase) {
    && (t == h || (|t| == |h| + 1 && t == h + [t[|h|]]))
    && KeysOk(t) && PhaseOk(t, next) && next.act == phase.act
    && (Creator(next) && !Creator(phase) ==> LastRevision(h, AcceptedKey(phase.act.dedupeKey)) == 0)
  }

  lemma ArriveOk(h: History, auth: Auth, act: Activation)
    requires KeysOk(h)
    ensures StepOk(h, Arrived(auth, act), h, Arrive(h, auth, act))
  {
    hide KeysOk, AcceptedKey, LastRevision, Admit, Precheck, ValueAt;
  }

  lemma SuppressedOk(h: History, rec: LedgerRecord)
    requires KeysOk(h)
    ensures KeysOk(h + [Write(SuppressedKey(rec.replayCursor), rec.(status := Suppressed))])
  {
    hide KeysOk, AcceptedKey, SuppressedKey, LastRevision, ACCEPTED_PREFIX;
    KeyFamilies(rec.replayCursor);
    KeysOkAppend(h, Write(SuppressedKey(rec.replayCursor), rec.(status := Suppressed)));
  }

  lemma ExamineOk(h: History, act: Activation, link: Link)
    requires KeysOk(h)
    ensures var (t, next) := Examine(h, act, link);
      StepOk(h, Fresh(act), t, next)
  {
    hide KeysOk, AcceptedKey, SuppressedKey, SourceKey, LastRevision, SourcePosition, Stale, ValueAt, HopsExhausted,
         ReplayCursor;
    if SourcePosition(act.source).Ok? {
      var (pos, cursor) := SourcePosition(act.source).value;
      SuppressedOk(h, MakeRecord(act, pos, cursor));
    }
  }

  lemma AdvanceOk(h: History, act: Activation, rec: LedgerRecord, link: Link)
    requires KeysOk(h) && PhaseOk(h, Advancing(act, rec))
    ensures var (t, next) := RouterStep(h, Advancing(act, rec), link);
      StepOk(h, Advancing(act, rec), t, next)
  {
    hide KeysOk, AcceptedKey, LastRevision, ACCEPTED_PREFIX;
    var w := Write(AcceptedKey(rec.dedupeKey), rec);
    var t := RouterStep(h, Advancing(act, rec), link).0;
    if t != h {
      LastRevisionAppend(h, w, w.key);
      KeysOkAppend(h, w);
    }
  }

  lemma RecordOk(h: History, act: Activation, rec: LedgerRecord, link: Link)
    requires KeysOk(h) && PhaseOk(h, Recorded(act, rec))
    ensures var (t, next) := RouterStep(h, Recorded(act, rec), link);
      StepOk(h, Recorded(act, rec), t, next)
  {
    hide KeysOk, AcceptedKey, SourceKey, LastRevision, ACCEPTED_PREFIX;
    if link != Dropped {
      var w := Write(SourceKey(rec.sourceID), rec);
      KeyFamilies(rec.sourceID);
      StillWritten(h, w, AcceptedKey(act.dedupeKey));
      KeysOkAppend(h, w);
    }
  }

  lemma RouterStepOk(h: History, phase: Phase, link: Link)
    requires KeysOk(h) && PhaseOk(h, phase)
    ensures var (t, next) := RouterStep(h, phase, link);
      StepOk(h, phase, t, next) && (phase.Answered? ==> next == phase)
  {
    hide KeysOk, PhaseOk, Arrive, Examine, LastRevision, CompareAndSet, AcceptedKey, SourceKey, StepOk;
    match phase
    case Arrived(auth, act) => ArriveOk(h, auth, act);
    case Fresh(act) => ExamineOk(h, act, link);
    case Advancing(act, rec) => AdvanceOk(h, act, rec, link);
    case Recorded(act, rec) => RecordOk(h, act, rec, link);
    case Answered(_, _, _) => Unmoved(h, phase);
  }

  lemma Unmoved(h: History, phase: Phase)
    requires KeysOk(h) && PhaseOk(h, phase)
    ensures StepOk(h, phase, h, phase)
  {
  }

  lemma RoutersKept(h: History, t: History, routers: map<nat, Phase>, p: nat, next: Phase)
    requires RoutersOk(h, routers) && p in routers && StepOk(h, routers[p], t, next)
    ensures RoutersOk(t, routers[p := next])
  {
    hide AcceptedKey, LastRevision, KeysOk;
    forall q | q in routers && q != p
      ensures PhaseOk(t, routers[q])
    {
      assert PhaseOk(h, routers[q]);
      if t != h && Creator(routers[q]) {
        StillWritten(h, t[|h|], AcceptedKey(routers[q].act.dedupeKey));
      }
    }
  }

  lemma RouteKeepsInv(s: Sys, p: nat, link: Link)
    requires Inv(s) && p in s.routers
    ensures Inv(Do(s, Route(p, link)))
  {
    hide KeysOk, RouterStep, PhaseOk, LastRevision, LoopsOk;
    var (h, next) := RouterStep(s.ledger, s.routers[p], link);
    assert PhaseOk(s.ledger, s.routers[p]);
    RouterStepOk(s.ledger, s.routers[p], link);
    RoutersKept(s.ledger, h, s.routers, p, next);
    LoopsUnmoved(s.claims, s.routers, s.loops, p, next);
    hide RoutersOk;
  }

  lemma LoopsUnmoved(claims: seq<Write<Claim>>, routers: map<nat, Phase>, loops: map<nat, Loop>, p: nat, next: Phase)
    requires LoopsOk(claims, routers, loops) && p in routers && (routers[p].Answered? ==> next == routers[p])
    ensures LoopsOk(claims, routers[p := next], loops)
  {
    hide LastRevision, KeyOf;
    forall l | l in loops
      ensures Taken(routers[p := next], loops[l])
    {
    }
  }

  lemma LoopsJoined(claims: seq<Write<Claim>>, routers: map<nat, Phase>, loops: map<nat, Loop>, l: nat, p: nat,
                    revision: nat)
    requires LoopsOk(claims, routers, loops)
    requires l !in loops && p in routers && Acceptance(routers[p]) && !routers[p].taken
    ensures LoopsOk(claims, routers[p := routers[p].(taken := true)],
                    loops[l := Loop(p, routers[p].act, revision, Claiming)])
  {
    hide LastRevision, KeyOf;
    forall m | m in loops
      ensures loops[m].origin != p && Taken(routers[p := routers[p].(taken := true)], loops[m])
    {
      assert Taken(routers, loops[m]);
    }
  }

  lemma HandKeepsInv(s: Sys, l: nat, p: nat, revision: nat)
    requires Inv(s) && l !in s.loops && p in s.routers && Acceptance(s.routers[p]) && !s.routers[p].taken
    ensures Inv(Do(s, Hand(l, p, revision)))
  {
    hide KeysOk, LastRevision, LoopsOk;
    var next := s.routers[p].(taken := true);
    assert PhaseOk(s.ledger, s.routers[p]);
    RoutersKept(s.ledger, s.ledger, s.routers, p, next);
    LoopsJoined(s.claims, s.routers, s.loops, l, p, revision);
    hide RoutersOk;
  }

  lemma LoopsClaimed(claims: seq<Write<Claim>>, t: seq<Write<Claim>>, routers: map<nat, Phase>, loops: map<nat, Loop>,
                     l: nat, stage: Stage)
    requires LoopsOk(claims, routers, loops) && l in loops
    requires forall k :: LastRevision(claims, k) > 0 ==> LastRevision(t, k) > 0
    requires stage == Ran ==> LastRevision(claims, KeyOf(loops[l])) == 0 && LastRevision(t, KeyOf(loops[l])) > 0
    ensures LoopsOk(t, routers, loops[l := loops[l].(stage := stage)])
  {
    hide LastRevision, RunKey;
    var after := loops[l := loops[l].(stage := stage)];
    forall m | m in after
      ensures KeyOf(after[m]) == KeyOf(loops[m]) && Taken(routers, after[m])
    {
      assert Taken(routers, loops[m]);
    }
  }

  lemma ClaimKeepsInv(s: Sys, l: nat, link: Link)
    requires Inv(s) && l in s.loops && s.loops[l].stage == Claiming
    ensures Inv(Do(s, ClaimRun(l, link)))
  {
    hide KeysOk, LastRevision, RunKey, RoutersOk, LoopsOk;
    var loop := s.loops[l];
    var t := Do(s, ClaimRun(l, link));
    forall k
      ensures LastRevision(s.claims, k) > 0 ==> LastRevision(t.claims, k) > 0
    {
      if t.claims != s.claims {
        LastRevisionAppend(s.claims, t.claims[|s.claims|], k);
      }
    }
    if t.claims != s.claims {
      LastRevisionAppend(s.claims, t.claims[|s.claims|], KeyOf(loop));
    }
    LoopsClaimed(s.claims, t.claims, s.routers, s.loops, l, t.loops[l].stage);
  }

  lemma DoKeepsInv(s: Sys, e: Event)
    requires Inv(s)
    ensures Inv(Do(s, e))
  {
    hide KeysOk, LastRevision, RunKey, RouterStep, CompareAndSet, LoopsOk, RoutersOk;
    match e
    case Deliver(p, auth, act) =>
      if p !in s.routers {
        DeliverKeepsInv(s, p, auth, act);
      }
    case Route(p, link) =>
      if p in s.routers {
        RouteKeepsInv(s, p, link);
      }
    case Hand(l, p, revision) =>
      if l !in s.loops && p in s.routers && Acceptance(s.routers[p]) && !s.routers[p].taken {
        HandKeepsInv(s, l, p, revision);
      }
    case ClaimRun(l, link) =>
      if l in s.loops && s.loops[l].stage == Claiming {
        ClaimKeepsInv(s, l, link);
      }
  }

  lemma DeliverKeepsInv(s: Sys, p: nat, auth: Auth, act: Activation)
    requires Inv(s) && p !in s.routers
    ensures Inv(Do(s, Deliver(p, auth, act)))
  {
    hide KeysOk, LastRevision, LoopsOk;
    LoopsBefore(s.claims, s.routers, s.loops, p, Arrived(auth, act));
  }

  lemma LoopsBefore(claims: seq<Write<Claim>>, routers: map<nat, Phase>, loops: map<nat, Loop>, p: nat, next: Phase)
    requires LoopsOk(claims, routers, loops) && p !in routers
    ensures LoopsOk(claims, routers[p := next], loops)
  {
    hide LastRevision, KeyOf;
    forall l | l in loops
      ensures Taken(routers[p := next], loops[l])
    {
      assert Taken(routers, loops[l]);
    }
  }

  lemma {:induction false} ExecKeepsInv(events: seq<Event>)
    ensures Inv(Exec(START, events))
  {
    hide Do;
    if events == [] {
    } else {
      hide Inv;
      ExecKeepsInv(events[..|events| - 1]);
      DoKeepsInv(Exec(START, events[..|events| - 1]), events[|events| - 1]);
    }
  }

  // ---------- at most once ----------

  /** In every reachable state at most one accepted record exists per dedupe key. */
  lemma AcceptedAtMostOnce(events: seq<Event>)
    ensures DistinctDedupe(Recs(AcceptedRevs(Exec(START, events).ledger)))
  {
    hide Exec, AcceptedRevs, KeysOk, DistinctDedupe;
    ExecKeepsInv(events);
    OneRecordPerKey(Exec(START, events).ledger);
  }

  lemma OneRecordPerKey(h: History)
    requires KeysOk(h)
    ensures DistinctDedupe(Recs(AcceptedRevs(h)))
  {
    hide AcceptedRevs, AcceptedKey, ACCEPTED_PREFIX;
    AcceptedRevsMeaning(h);
    var items := AcceptedRevs(h);
    forall i, j | 0 <= i < j < |items|
      ensures items[i].rec.dedupeKey != items[j].rec.dedupeKey
    {
      assert IsAcceptedAt(h, items[i]) && IsAcceptedAt(h, items[j]);
      var earlier := h[..items[j].rev - 1];
      assert earlier[items[i].rev - 1] == h[items[i].rev - 1];
    }
  }

  /** A script runs at most once per accepted identity, whatever revision is loaded, and never
      without a record in the ledger. */
  lemma OneRunPerIdentity(events: seq<Event>, l: nat, m: nat)
    requires var s := Exec(START, events);
      l in s.loops && m in s.loops && s.loops[l].stage == Ran && s.loops[m].stage == Ran
    ensures var s := Exec(START, events);
      && LastRevision(s.ledger, AcceptedKey(s.loops[l].act.dedupeKey)) > 0
      && (s.loops[l].act.dedupeKey == s.loops[m].act.dedupeKey ==> l == m)
  {
    hide Exec, LastRevision, AcceptedKey, RunKey, KeysOk;
    ExecKeepsInv(events);
    var s := Exec(START, events);
    assert PhaseOk(s.ledger, s.routers[s.loops[l].origin]);
  }

  /** Even activations that reached the ledger under different dedupe keys run at most once per
      activation id and script revision. */
  lemma OneRunPerRevision(events: seq<Event>, l: nat, m: nat)
    requires var s := Exec(START, events);
      && l in s.loops && m in s.loops && s.loops[l].stage == Ran && s.loops[m].stage == Ran
      && s.loops[l].act.activationID == s.loops[m].act.activationID && s.loops[l].revision == s.loops[m].revision
    ensures l == m
  {
    hide Exec, LastRevision, KeysOk, RoutersOk;
    ExecKeepsInv(events);
  }

  /** Any redelivery of one message on one template that keeps its identity, to any routers, leads to
      at most one run: always, unless the message is pulled from a stream, and then if it comes with
      the same consumer and consumer sequence again. */
  lemma OneRunPerMessage(events: seq<Event>, tpl: Activation, a: Message, b: Message, l: nat, m: nat)
    requires Redelivered(a, b)
    requires !a.Pulled? || a.meta.None?
      || (a.meta.value.consumer == b.meta.value.consumer
          && a.meta.value.consumerSequence == b.meta.value.consumerSequence)
    requires var s := Exec(START, events);
      && l in s.loops && m in s.loops && s.loops[l].stage == Ran && s.loops[m].stage == Ran
      && s.loops[l].act == Norm(tpl, a) && s.loops[m].act == Norm(tpl, b)
    ensures l == m
  {
    hide Exec, Norm, LastRevision;
    if a.Pulled? && a.meta.Some? {
      SameDelivery(tpl, a, b);
    } else {
      RedeliveryKeepsIdentity(tpl, a, b);
    }
    OneRunPerIdentity(events, l, m);
  }

  lemma SameDelivery(tpl: Activation, a: Message, b: Message)
    requires Redelivered(a, b) && a.Pulled? && a.meta.Some?
    requires a.meta.value.consumer == b.meta.value.consumer
    requires a.meta.value.consumerSequence == b.meta.value.consumerSequence
    ensures SameIdentity(Norm(tpl, a), Norm(tpl, b))
  {
    hide Digits, Clean, JoinAll;
  }

  /** Claims of different runs never block each other. */
  lemma RunKeyInjective(a: Activation, x: nat, b: Activation, y: nat)
    requires RunKey(a, x) == RunKey(b, y)
    ensures a.activationID == b.activationID && x == y
  {
    hide KeyEnc, Itoa;
    var s, t := KeyEnc(a.activationID), KeyEnc(b.activationID);
    assert s + "_" + Itoa(x) == RunKey(a, x)[2..] && t + "_" + Itoa(y) == RunKey(b, y)[2..];
    CutAtLastBar(s, Itoa(x), t, Itoa(y));
    KeyEncInjective(a.activationID, b.activationID);
    ItoaValue(x);
    ItoaValue(y);
  }

  lemma LastBar(a: string, x: string, b: string, y: string)
    requires AllDigits(x) && a + "_" + x == b + "_" + y
    ensures |b| <= |a|
  {
    assert (b + "_" + y)[|b|] == '_';
    assert forall i :: |a| < i < |a + "_" + x| ==> (a + "_" + x)[i] == x[i - |a| - 1] && IsDigit(x[i - |a| - 1]);
  }

  lemma CutAtLastBar(a: string, x: string, b: string, y: string)
    requires AllDigits(x) && AllDigits(y) && a + "_" + x == b + "_" + y
    ensures a == b && x == y
  {
    LastBar(a, x, b, y);
    LastBar(b, y, a, x);
    var s := a + "_" + x;
    assert a == s[..|a|] && x == s[|a| + 1..];
    assert b == s[..|b|] && y == s[|b| + 1..];
  }

  // ---------- a router left alone is the ledger ----------

  /** All steps of one router with nobody in between. */
  function Solo(h: History, auth: Auth, act: Activation, first: Link, second: Link): (History, Phase) {
    match Arrive(h, auth, act)
    case Fresh(_) => SoloFresh(h, act, first, second)
    case phase => (h, phase)
  }

  /** The last two steps are the ledger's two-write save. */
  lemma SoloSave(h: History, s: State, act: Activation, rec: LedgerRecord, first: Link, second: Link)
    requires Represents(h, s) && rec.dedupeKey == act.dedupeKey
    requires FindDedupe(s.accepted, act.dedupeKey).None? && LastRevision(h, AcceptedKey(act.dedupeKey)) == 0
    ensures var (h1, p1) := RouterStep(h, Advancing(act, rec), first);
      var (after, ok) := Save(s, rec, first, second);
      RouterStep(h1, p1, second).1 == Answer(act, if ok then Ok(rec) else Err(WriteConflict))
      && Represents(RouterStep(h1, p1, second).0, after)
  {
    hide Represents, FindDedupe, AcceptedKey, SourceKey, LastRevision;
    RepresentsAccepted(h, s, rec);
    RepresentsIndexed(h + [Write(AcceptedKey(rec.dedupeKey), rec)], s.(accepted := s.accepted + [rec]), rec);
  }

  /** From the dedupe read on. */
  function SoloFresh(h: History, act: Activation, first: Link, second: Link): (History, Phase) {
    var (h2, p2) := RouterStep(h, Fresh(act), first);
    var (h3, p3) := RouterStep(h2, p2, first);
    RouterStep(h3, p3, second)
  }

  lemma SoloSuppressed(h: History, s: State, act: Activation, first: Link, second: Link)
    requires Represents(h, s) && SourcePosition(act.source).Ok? && HopsExhausted(act.chain)
    ensures SoloFresh(h, act, first, second).1
            == Answer(act, Err(if first == Delivered then LoopSuppressed else WriteConflict))
    ensures Represents(SoloFresh(h, act, first, second).0, s)
  {
    hide Represents, SourcePosition, SuppressedKey, HopsExhausted;
    var (pos, cursor) := SourcePosition(act.source).value;
    RepresentsSuppressed(h, s, MakeRecord(act, pos, cursor).(status := Suppressed));
  }

  lemma SoloFreshIsAccept(h: History, s: State, act: Activation, first: Link, second: Link)
    requires Represents(h, s) && Precheck(act, LeaseOf(act)).None? && FindDedupe(s.accepted, act.dedupeKey).None?
    ensures var (t, phase) := SoloFresh(h, act, first, second);
      var (after, r) := Accept(s, act, LeaseOf(act), first, second);
      phase == Answer(act, r) && Represents(t, after)
  {
    hide Represents, FindDedupe, ValueAt, Precheck, SourcePosition, Stale, AcceptedKey, SourceKey, LastRevision,
         HopsExhausted, Save, ReplayCursor, Latest;
    SoloReads(h, s, act);
    if SourcePosition(act.source).Ok? {
      if HopsExhausted(act.chain) {
        hide SoloFresh;
        SoloSuppressed(h, s, act, first, second);
      } else {
        var (pos, cursor) := SourcePosition(act.source).value;
        SoloSave(h, s, act, MakeRecord(act, pos, cursor), first, second);
      }
    }
  }

  /** Without interference the steps do to the bucket what `Ledger.Accept` does to the ledger. */
  lemma SoloIsAccept(h: History, s: State, auth: Auth, act: Activation, first: Link, second: Link)
    requires Represents(h, s) && Admit(auth, act).None?
    ensures var (t, phase) := Solo(h, auth, act, first, second);
      var (after, r) := Accept(s, act, LeaseOf(act), first, second);
      phase == Answer(act, r) && Represents(t, after)
  {
    hide Represents, FindDedupe, ValueAt, Admit, Precheck, Examine, CompareAndSet, AcceptedKey, SourceKey;
    SoloReads(h, s, act);
    if Precheck(act, LeaseOf(act)).None? && FindDedupe(s.accepted, act.dedupeKey).None? {
      assert Arrive(h, auth, act) == Fresh(act);
      SoloFreshIsAccept(h, s, act, first, second);
      hide RouterStep, Accept;
    }
  }

  lemma SoloReads(h: History, s: State, act: Activation)
    requires Represents(h, s)
    ensures ValueAt(h, AcceptedKey(act.dedupeKey)) == FindDedupe(s.accepted, act.dedupeKey)
    ensures FindDedupe(s.accepted, act.dedupeKey).None? <==> LastRevision(h, AcceptedKey(act.dedupeKey)) == 0
    ensures ValueAt(h, SourceKey(act.sourcePrincipal.sourceID)) == Latest(s, act.sourcePrincipal.sourceID)
  {
    hide KeysOk, AcceptedRevs, FindDedupe, AcceptedKey, SourceKey, LastRevision;
    DedupeIsLookup(h, act.dedupeKey);
  }
}
