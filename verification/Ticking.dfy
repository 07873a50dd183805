/** What the schedule engine answers to a tick, and what it leaves in the two stores. */
module Ticking {
  import opened Records
  import opened Text
  import opened Subjects
  import opened KeyValue
  import opened Ledger
  import opened Authority
  import opened Grants
  import opened Accepting
  import opened Schedule

  // ---------- the activation of a tick ----------

  predicate OwnedTemplate(tpl: Activation) {
    && tpl.source.kind == "schedule" && tpl.source.scheduleID != ""
    && (tpl.source.ownerPrincipalID == "" || tpl.source.ownerPrincipalID == tpl.sourcePrincipal.principalID)
  }

  ghost function TickRefusals(tpl: Activation, tick: Tick): seq<Refusal> {
    [Refusal(!OwnedTemplate(tpl) || "" in [tick.tickID, tick.dueAt, tick.acquiredAt, tick.expiresAt],
             ScheduleConfigInvalid),
     Refusal(tpl.sourceLease.leaseID == "", ScheduleLeaseMissing),
     Refusal(tick.leaderEpoch <= 0 || tick.fencingToken == "", ScheduleLeaseLost),
     Refusal(!exists pos :: ClockReads(tick.clockID, tick.clock, pos), ClockInvalid)]
  }

  /** The template with the tick's own coordinates, and ids that name script, schedule and tick. */
  ghost predicate RaisedBy(act: Activation, tpl: Activation, tick: Tick) {
    && act.source == tpl.source.(
         tickID := tick.tickID, dueAt := tick.dueAt, acquiredAt := tick.acquiredAt, expiresAt := tick.expiresAt,
         clockID := tick.clockID, clock := tick.clock, leaderEpoch := tick.leaderEpoch,
         fencingToken := tick.fencingToken)
    && act == tpl.(activationID := act.activationID, dedupeKey := act.dedupeKey, source := act.source)
    && act.activationID == "act:" + tpl.scriptKey + ":schedule:" + tick.tickID
    && act.dedupeKey == "schedule:" + tpl.scriptKey + ":" + tpl.source.scheduleID + ":" + tick.tickID
  }

  lemma RaisedExactly(tpl: Activation, tick: Tick)
    ensures var r, refused := Activate(tpl, tick), Verdict(TickRefusals(tpl, tick));
      if refused.Some? then r == Err(refused.value)
      else r.Ok? && RaisedBy(r.value.act, tpl, tick) && ClockReads(tick.clockID, tick.clock, r.value.pos)
  {
    VerdictOf(TickRefusals(tpl, tick));
    hide Verdict, ClockPos, ClockReads;
    forall pos
      ensures ClockReads(tick.clockID, tick.clock, pos) <==> ClockPos(tick.clockID, tick.clock) == Some(pos)
    {
      ClockExactly(tick.clockID, tick.clock, pos);
    }
  }

  // ---------- the fence ----------

  function FenceRefusals(st: ScheduleState, due: Due): seq<Refusal> {
    var src := due.act.source;
    [Refusal(src.tickID == st.tickID, ScheduleTickDuplicate),
     Refusal(src.leaderEpoch < st.leaderEpoch, ScheduleLeaseLost),
     Refusal(src.leaderEpoch == st.leaderEpoch && st.fencingToken !in ["", src.fencingToken], ScheduleLeaseLost),
     Refusal(due.pos <= st.clockPosition, ClockInvalid)]
  }

  lemma FencedExactly(saved: Option<ScheduleState>, due: Due)
    ensures Fence(saved, due) == if saved.None? then None else Verdict(FenceRefusals(saved.value, due))
  {
    if saved.Some? {
      VerdictOf(FenceRefusals(saved.value, due));
    }
    hide Verdict;
  }

  /** The state of a schedule after this tick. */
  predicate StateAfter(st: ScheduleState, tpl: Activation, tick: Tick, pos: int) {
    st == ScheduleState(tpl.source.scheduleID, tick.tickID, tick.clockID, tick.clock, pos, tick.leaderEpoch,
                        tick.fencingToken, tpl.sourcePrincipal.sourceID, tpl.sourceLease.leaseID)
  }

  // ---------- one call ----------

  /** The faults that keep a tick from the ledger, in order: its own, the fence's, the source's. */
  ghost predicate StoppedBy(auth: Auth, w: World, tpl: Activation, tick: Tick, kind: Kind) {
    var raised := Verdict(TickRefusals(tpl, tick));
    if raised.Some? then kind == raised.value
    else exists act, pos ::
      && RaisedBy(act, tpl, tick) && ClockReads(tick.clockID, tick.clock, pos)
      && var id := tpl.source.scheduleID;
      var fenced := if id in w.schedules then Verdict(FenceRefusals(w.schedules[id], Due(act, pos))) else None;
      if fenced.Some? then kind == fenced.value else AuthorizeSource(auth, act) == Err(kind)
  }

  /** A tick that reaches the ledger: what the ledger keeps and answers, and when the state moves. */
  ghost predicate Reaches(w: World, tpl: Activation, tick: Tick, f: Faults, act: Activation, pos: int,
                          t: World, r: Result<LedgerRecord>) {
    var (ledger, answer) := Accept(w.ledger, act, LeaseOf(act), f.first, f.second);
    var moves := (answer.Ok? && answer.value.status == Accepted) || answer == Err(LoopSuppressed);
    && t.ledger == ledger
    && (if moves && f.save != Dropped then
          && tpl.source.scheduleID in t.schedules && StateAfter(t.schedules[tpl.source.scheduleID], tpl, tick, pos)
          && t.schedules == w.schedules[tpl.source.scheduleID := t.schedules[tpl.source.scheduleID]]
        else t.schedules == w.schedules)
    && r == if answer.Ok? && answer.value.status == Accepted && f.save != Delivered then Err(CatchUpFailed) else answer
  }

  /** Every tick is stopped before the ledger and changes nothing, or reaches it: then the schedule
      state moves to the tick exactly if its record is new and both ledger writes are confirmed, or it
      was suppressed for its hops, and the save lands. */
  lemma TickAnswered(auth: Auth, w: World, tpl: Activation, tick: Tick, f: Faults)
    ensures var (t, r) := AcceptTick(auth, w, tpl, tick, f);
      || (t == w && r.Err? && StoppedBy(auth, w, tpl, tick, r.kind))
      || (exists act, pos ::
            && RaisedBy(act, tpl, tick) && ClockReads(tick.clockID, tick.clock, pos)
            && (tpl.source.scheduleID in w.schedules ==>
                  Verdict(FenceRefusals(w.schedules[tpl.source.scheduleID], Due(act, pos))).None?)
            && AuthorizeSource(auth, act).Ok? && Reaches(w, tpl, tick, f, act, pos, t, r))
  {
    hide Verdict, ClockReads, ClockPos, AuthorizeSource, Ledger.Accept, TickRefusals, FenceRefusals, Fence;
    RaisedExactly(tpl, tick);
    var (t, r) := AcceptTick(auth, w, tpl, tick, f);
    if Activate(tpl, tick).Ok? {
      var due := Activate(tpl, tick).value;
      FencedExactly(LoadSchedule(w, tpl.source.scheduleID), due);
      assert RaisedBy(due.act, tpl, tick) && ClockReads(tick.clockID, tick.clock, due.pos);
      assert due == Due(due.act, due.pos);
      hide Activate, RaisedBy;
    }
  }

  /** A tick whose chain has no hop left is recorded nowhere but moves the schedule, so it cannot come
      again: the fence takes it for a duplicate. */
  lemma SuppressedTickMovesOn(auth: Auth, w: World, tpl: Activation, tick: Tick, f: Faults, again: Faults)
    requires AcceptTick(auth, w, tpl, tick, f).1 == Err(LoopSuppressed) && f.save != Dropped
    ensures var t := AcceptTick(auth, w, tpl, tick, f).0;
      && t.ledger == w.ledger && tpl.source.scheduleID in t.schedules
      && t.schedules[tpl.source.scheduleID].tickID == tick.tickID
      && AcceptTick(auth, t, tpl, tick, again) == (t, Err(ScheduleTickDuplicate))
  {
    hide ClockPos, AuthorizeSource, FindDedupe, Stale, Precheck, SourcePosition, DedupeKey;
    SourceNeverLoops(auth, tpl, tick);
  }

  lemma SourceNeverLoops(auth: Auth, tpl: Activation, tick: Tick)
    ensures Activate(tpl, tick).Ok? ==> AuthorizeSource(auth, Activate(tpl, tick).value.act) != Err(LoopSuppressed)
    ensures Activate(tpl, tick) != Err(LoopSuppressed)
  {
    hide ClockPos, SubjectMatches, ValidSubject, Overbroad, HasTail, IsBlank, CheckSourceImports, Allowed;
    if Activate(tpl, tick).Ok? {
      var act := Activate(tpl, tick).value.act;
      if SourceSubject(act.source).Ok? {
        ImportsNeverLoop(auth, SourceSubject(act.source).value);
      }
    }
  }

  lemma ImportsNeverLoop(auth: Auth, sub: string)
    ensures CheckSourceImports(auth, auth.imports, sub) != Some(LoopSuppressed)
  {
    hide CheckSourceImports, ImportFine;
    ImportVerdict(auth, sub);
    VerdictOf(ImportRefusals(auth, sub));
  }
}
