/** Two deliveries of one message under two identities, in routers that run at the same time. */
module Races {
  import opened Records
  import opened KeyValue
  import opened Ledger
  import opened KVLedger
  import opened Encoding
  import opened Schedule
  import opened SourceRouter
  import opened AtMostOnce

  /** A router's delivery, and the record it enters if nothing stops it. */
  datatype Entrant = Entrant(auth: Auth, act: Activation, rec: LedgerRecord)

  /** Two routers, each going on one step at its turns, with every write delivered. */
  function Race(h: History, a: Entrant, b: Entrant, order: seq<bool>): (History, Phase, Phase) {
    if order == [] then (h, Arrived(a.auth, a.act), Arrived(b.auth, b.act))
    else
      var (t, x, y) := Race(h, a, b, order[..|order| - 1]);
      if order[|order| - 1] then
        var (u, next) := RouterStep(t, x, Delivered);
        (u, next, y)
      else
        var (u, next) := RouterStep(t, y, Delivered);
        (u, x, next)
  }

  /** The router takes its second step, which looks at the source index, when the other has done its
      fourth, which writes it. */
  predicate ExaminesLate(order: seq<bool>, who: bool) {
    order != []
    && var front := order[..|order| - 1];
    ExaminesLate(front, who) || (order[|order| - 1] == who && Turns(front, who) == 1 && Turns(front, !who) >= 4)
  }

  /** Nothing the ledger holds stops this delivery from being accepted. */
  ghost predicate MayEnter(h: History, e: Entrant) {
    && Admit(e.auth, e.act).None? && Precheck(e.act, LeaseOf(e.act)).None? && !HopsExhausted(e.act.chain)
    && SourcePosition(e.act.source).Ok?
    && e.rec == MakeRecord(e.act, SourcePosition(e.act.source).value.0, SourcePosition(e.act.source).value.1)
    && LastRevision(h, AcceptedKey(e.act.dedupeKey)) == 0
    && var prev := ValueAt(h, SourceKey(e.rec.sourceID));
    prev.Some? ==> !Stale(prev.value, e.rec)
  }

  /** That is: the undisturbed ledger would accept it as new. */
  lemma MayEnterExactly(h: History, s: State, e: Entrant)
    requires Represents(h, s) && Admit(e.auth, e.act).None? && SourcePosition(e.act.source).Ok?
    requires e.rec == MakeRecord(e.act, SourcePosition(e.act.source).value.0, SourcePosition(e.act.source).value.1)
    ensures var r := Accept(s, e.act, LeaseOf(e.act), Delivered, Delivered).1;
      MayEnter(h, e) <==> r.Ok? && r.value.status == Accepted
  {
    hide Represents, FindDedupe, ValueAt, Stale, SourcePosition, ReplayCursor, AcceptedKey, SourceKey, LastRevision,
         Admit, Accept;
    SoloReads(h, s, e.act);
    AcceptedExactly(s, e.act, LeaseOf(e.act), Delivered, Delivered);
  }

  predicate SamePlace(a: Entrant, b: Entrant) {
    a.rec.sourceID == b.rec.sourceID && a.rec.sourcePosition == b.rec.sourcePosition > 0
  }

  /** Where a router is after `n` turns. */
  function PhaseAfter(e: Entrant, n: nat, late: bool): Phase {
    if n == 0 then Arrived(e.auth, e.act)
    else if n == 1 then Fresh(e.act)
    else if late then Answer(e.act, Err(StaleCursor))
    else if n == 2 then Advancing(e.act, e.rec)
    else if n == 3 then Recorded(e.act, e.rec)
    else Answer(e.act, Ok(e.rec))
  }

  predicate Done(n: nat, late: bool) {
    n >= 4 && !late
  }

  /** The bucket as one router left it after `n` turns. */
  ghost predicate KeyAfter(h: History, e: Entrant, n: nat, late: bool) {
    LastRevision(h, AcceptedKey(e.act.dedupeKey)) == 0 <==> n <= 2 || late
  }

  ghost predicate IndexAfter(h0: History, h: History, a: Entrant, b: Entrant, done: bool) {
    ValueAt(h, SourceKey(a.rec.sourceID)) in
      if done then {Some(a.rec), Some(b.rec)} else {ValueAt(h0, SourceKey(a.rec.sourceID))}
  }

  /** One turn of the router with the delivery `a`. */
  lemma OneTurn(h0: History, h: History, a: Entrant, n: nat, late: bool, b: Entrant, m: nat, tardy: bool)
    requires MayEnter(h0, a) && SamePlace(a, b) && a.act.dedupeKey != b.act.dedupeKey
    requires KeyAfter(h, a, n, late) && KeyAfter(h, b, m, tardy)
    requires IndexAfter(h0, h, a, b, Done(n, late) || Done(m, tardy))
    requires late ==> n >= 2 && m >= 4
    ensures var now := late || (n == 1 && Done(m, tardy));
      var (t, next) := RouterStep(h, PhaseAfter(a, n, late), Delivered);
      && next == PhaseAfter(a, n + 1, now)
      && KeyAfter(t, a, n + 1, now) && KeyAfter(t, b, m, tardy)
      && IndexAfter(h0, t, a, b, Done(n + 1, now) || Done(m, tardy))
  {
    hide AcceptedKey, SourceKey, LastRevision, Admit, Precheck, SourcePosition, HopsExhausted, ReplayCursor, ValueAt;
    if n == 0 {
      FirstTurn(h0, h, a);
    } else if n == 1 {
    } else if n == 2 && !late {
      CreateTurn(h, a, b);
    } else if n == 3 && !late {
      IndexTurn(h, a, b);
    }
  }

  lemma FirstTurn(h0: History, h: History, a: Entrant)
    requires MayEnter(h0, a) && LastRevision(h, AcceptedKey(a.act.dedupeKey)) == 0
    ensures Arrive(h, a.auth, a.act) == Fresh(a.act)
  {
    hide AcceptedKey, SourceKey, LastRevision, Admit, Precheck, SourcePosition, HopsExhausted, ReplayCursor;
  }

  lemma CreateTurn(h: History, a: Entrant, b: Entrant)
    requires a.act.dedupeKey != b.act.dedupeKey
    ensures var t := h + [Write(AcceptedKey(a.act.dedupeKey), a.rec)];
      && LastRevision(t, AcceptedKey(a.act.dedupeKey)) > 0
      && LastRevision(t, AcceptedKey(b.act.dedupeKey)) == LastRevision(h, AcceptedKey(b.act.dedupeKey))
      && ValueAt(t, SourceKey(a.rec.sourceID)) == ValueAt(h, SourceKey(a.rec.sourceID))
  {
    hide AcceptedKey, SourceKey, LastRevision, ACCEPTED_PREFIX;
    var w := Write(AcceptedKey(a.act.dedupeKey), a.rec);
    LedgerKeysDistinct(a.act.dedupeKey, b.act.dedupeKey);
    LedgerKeysDistinct(a.act.dedupeKey, a.rec.sourceID);
    LastRevisionAppend(h, w, w.key);
    LastRevisionAppend(h, w, AcceptedKey(b.act.dedupeKey));
    ValueAppend(h, w, SourceKey(a.rec.sourceID));
  }

  lemma IndexTurn(h: History, a: Entrant, b: Entrant)
    ensures var t := h + [Write(SourceKey(a.rec.sourceID), a.rec)];
      && LastRevision(t, AcceptedKey(a.act.dedupeKey)) == LastRevision(h, AcceptedKey(a.act.dedupeKey))
      && LastRevision(t, AcceptedKey(b.act.dedupeKey)) == LastRevision(h, AcceptedKey(b.act.dedupeKey))
      && ValueAt(t, SourceKey(a.rec.sourceID)) == Some(a.rec)
  {
    hide AcceptedKey, SourceKey, LastRevision, ACCEPTED_PREFIX;
    var w := Write(SourceKey(a.rec.sourceID), a.rec);
    LedgerKeysDistinct(a.act.dedupeKey, a.rec.sourceID);
    LedgerKeysDistinct(b.act.dedupeKey, a.rec.sourceID);
    LastRevisionAppend(h, w, AcceptedKey(a.act.dedupeKey));
    LastRevisionAppend(h, w, AcceptedKey(b.act.dedupeKey));
    ValueAppend(h, w, w.key);
  }

  /** A router that examined late gave the other one all its turns before, and so is the only late one. */
  lemma {:induction false} LateTurns(order: seq<bool>, who: bool)
    ensures ExaminesLate(order, who) ==> Turns(order, who) >= 2 && Turns(order, !who) >= 4
    ensures !(ExaminesLate(order, who) && ExaminesLate(order, !who))
  {
    if order == [] {
    } else {
      LateTurns(order[..|order| - 1], who);
      LateTurns(order[..|order| - 1], !who);
    }
  }

  ghost predicate RaceAt(h0: History, a: Entrant, b: Entrant, order: seq<bool>) {
    var (h, x, y) := Race(h0, a, b, order);
    var (n, late) := (Turns(order, true), ExaminesLate(order, true));
    var (m, tardy) := (Turns(order, false), ExaminesLate(order, false));
    && x == PhaseAfter(a, n, late) && y == PhaseAfter(b, m, tardy)
    && KeyAfter(h, a, n, late) && KeyAfter(h, b, m, tardy)
    && IndexAfter(h0, h, a, b, Done(n, late) || Done(m, tardy))
  }

  lemma {:induction false} RaceGoes(h0: History, a: Entrant, b: Entrant, order: seq<bool>)
    requires MayEnter(h0, a) && MayEnter(h0, b) && SamePlace(a, b) && a.act.dedupeKey != b.act.dedupeKey
    ensures RaceAt(h0, a, b, order)
  {
    hide MayEnter, PhaseAfter, KeyAfter, RouterStep, ValueAt, SourceKey, LastRevision;
    if order == [] {
      StartOfRace(h0, a, b);
    } else {
      var front := order[..|order| - 1];
      RaceGoes(h0, a, b, front);
      LateTurns(front, true);
      LateTurns(front, false);
      var h := Race(h0, a, b, front).0;
      var (n, late) := (Turns(front, true), ExaminesLate(front, true));
      var (m, tardy) := (Turns(front, false), ExaminesLate(front, false));
      if order[|order| - 1] {
        OneTurn(h0, h, a, n, late, b, m, tardy);
      } else {
        OneTurn(h0, h, b, m, tardy, a, n, late);
      }
    }
  }

  lemma StartOfRace(h0: History, a: Entrant, b: Entrant)
    requires MayEnter(h0, a) && MayEnter(h0, b)
    ensures PhaseAfter(a, 0, false) == Arrived(a.auth, a.act) && PhaseAfter(b, 0, false) == Arrived(b.auth, b.act)
    ensures KeyAfter(h0, a, 0, false) && KeyAfter(h0, b, 0, false) && !Done(0, false)
  {
    hide ValueAt, SourceKey, LastRevision, AcceptedKey, Admit, Precheck, SourcePosition, HopsExhausted;
  }

  /** Two identities of one message, in two routers that take their steps in any order: each is
      accepted if and only if it does not look at the source index after the other has written it. So
      both are accepted exactly if neither does, and one always is. */
  lemma TwoIdentitiesExactly(h0: History, a: Entrant, b: Entrant, order: seq<bool>)
    requires MayEnter(h0, a) && MayEnter(h0, b) && SamePlace(a, b) && a.act.dedupeKey != b.act.dedupeKey
    requires Turns(order, true) >= 4 && Turns(order, false) >= 4
    ensures var (_, x, y) := Race(h0, a, b, order);
      && (Acceptance(x) <==> !ExaminesLate(order, true)) && (Acceptance(y) <==> !ExaminesLate(order, false))
      && (Acceptance(x) || Acceptance(y))
  {
    hide MayEnter, Race, SourcePosition, KeyAfter, IndexAfter, Turns, ExaminesLate;
    RaceGoes(h0, a, b, order);
    LateTurns(order, true);
    EntersAccepted(h0, a);
    EntersAccepted(h0, b);
  }

  lemma EntersAccepted(h0: History, e: Entrant)
    requires MayEnter(h0, e)
    ensures e.rec.status == Accepted
  {
    hide SourcePosition, ReplayCursor;
  }

  /** The two identities a pulled message can have are such a pair: same source, same position. */
  lemma PulledInOnePlace(tpl: Activation, a: Message, b: Message, x: Entrant, y: Entrant, h: History)
    requires Redelivered(a, b) && a.Pulled? && a.meta.Some? && tpl.source.kind == "stream"
    requires x.act == Norm(tpl, a) && y.act == Norm(tpl, b) && MayEnter(h, x) && MayEnter(h, y)
    ensures SamePlace(x, y)
    ensures a.meta.value.consumer != "" && b.meta.value.consumer != "" ==>
      (x.act.dedupeKey == y.act.dedupeKey <==>
       a.meta.value.consumer == b.meta.value.consumer
       && a.meta.value.consumerSequence == b.meta.value.consumerSequence)
  {
    hide Digits, Clean, JoinAll, ReplayCursor, Admit, Precheck, ValueAt, LastRevision, AcceptedKey, SourceKey;
    RedeliveryKeepsIdentity(tpl, a, b);
  }

  /** An accepted answer nobody took yet can be run, unless this activation has already run there at
      this script revision. */
  lemma AcceptedRuns(s: Sys, p: nat, l: nat, revision: nat)
    requires p in s.routers && Acceptance(s.routers[p]) && !s.routers[p].taken && l !in s.loops
    ensures var t := Do(Do(s, Hand(l, p, revision)), ClaimRun(l, Delivered));
      l in t.loops && (t.loops[l].stage == Ran <==> LastRevision(s.claims, RunKey(s.routers[p].act, revision)) == 0)
  {
    hide LastRevision, RunKey;
  }
}
