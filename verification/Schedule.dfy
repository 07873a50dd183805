/** The schedule engine: leader fences and clock positions in front of the ledger, and catch-up
    after a restart. */
module Schedule {
  import opened Records
  import opened KeyValue
  import opened Ledger
  import opened Authority

  datatype Tick = Tick(
    tickID: string, dueAt: string, acquiredAt: string, expiresAt: string,
    clockID: string, clock: string, leaderEpoch: int, fencingToken: string)

  datatype ScheduleState = ScheduleState(
    scheduleID: string, tickID: string, clockID: string, clock: string, clockPosition: int,
    leaderEpoch: int, fencingToken: string, sourceID: string, leaseID: string)

  /** What the two stores hold. */
  datatype World = World(ledger: State, schedules: map<string, ScheduleState>)

  /** The fate of the three writes one tick can cause: record, source index, schedule state. */
  datatype Faults = Faults(first: Link, second: Link, save: Link)

  const CLEAN := Faults(Delivered, Delivered, Delivered)

  datatype Due = Due(act: Activation, pos: int)

  function DedupeKey(scriptKey: string, scheduleID: string, tickID: string): string {
    "schedule:" + scriptKey + ":" + scheduleID + ":" + tickID
  }

  function Activate(tpl: Activation, tick: Tick): (r: Result<Due>)
    ensures r.Ok? ==> r.value.pos > 0
  {
    if tpl.source.kind != "schedule" || tpl.source.scheduleID == "" then Err(ScheduleConfigInvalid)
    else if tick.tickID == "" || tick.dueAt == "" || tick.acquiredAt == "" || tick.expiresAt == ""
    then Err(ScheduleConfigInvalid)
    else if tpl.source.ownerPrincipalID != "" && tpl.source.ownerPrincipalID != tpl.sourcePrincipal.principalID
    then Err(ScheduleConfigInvalid)
    else if tpl.sourceLease.leaseID == "" then Err(ScheduleLeaseMissing)
    else if tick.leaderEpoch <= 0 || tick.fencingToken == "" then Err(ScheduleLeaseLost)
    else
      match ClockPos(tick.clockID, tick.clock)
      case None => Err(ClockInvalid)
      case Some(pos) =>
        Ok(Due(tpl.(
          activationID := "act:" + tpl.scriptKey + ":schedule:" + tick.tickID,
          dedupeKey := DedupeKey(tpl.scriptKey, tpl.source.scheduleID, tick.tickID),
          source := tpl.source.(
            tickID := tick.tickID, dueAt := tick.dueAt, acquiredAt := tick.acquiredAt,
            expiresAt := tick.expiresAt, clockID := tick.clockID, clock := tick.clock,
            leaderEpoch := tick.leaderEpoch, fencingToken := tick.fencingToken)), pos))
  }

  function StateOf(due: Due): ScheduleState {
    var src := due.act.source;
    ScheduleState(src.scheduleID, src.tickID, src.clockID, src.clock, due.pos, src.leaderEpoch, src.fencingToken,
                  due.act.sourcePrincipal.sourceID, due.act.sourceLease.leaseID)
  }

  function LoadSchedule(w: World, id: string): Option<ScheduleState> {
    if id in w.schedules then Some(w.schedules[id]) else None
  }

  /** The fence: epoch, token and clock must not fall behind the saved state. */
  function Fence(saved: Option<ScheduleState>, due: Due): Option<Kind> {
    if saved.None? then None
    else
      var st, src := saved.value, due.act.source;
      if st.tickID == src.tickID then Some(ScheduleTickDuplicate)
      else if src.leaderEpoch < st.leaderEpoch then Some(ScheduleLeaseLost)
      else if src.leaderEpoch == st.leaderEpoch && st.fencingToken != "" && st.fencingToken != src.fencingToken
      then Some(ScheduleLeaseLost)
      else if due.pos <= st.clockPosition then Some(ClockInvalid)
      else None
  }

  function Saved(w: World, st: ScheduleState, link: Link): World {
    if link == Dropped then w else w.(schedules := w.schedules[st.scheduleID := st])
  }

  function LeaseOf(act: Activation): Lease {
    Lease(act.sourceLease.leaseID, act.sourceLease.leaseStatus)
  }

  /** One tick, with the fate of its writes. */
  function AcceptTick(auth: Auth, w: World, tpl: Activation, tick: Tick, f: Faults)
    : (r: (World, Result<LedgerRecord>))
  {
    match Activate(tpl, tick)
    case Err(kind) => (w, Err(kind))
    case Ok(due) =>
      match Fence(LoadSchedule(w, due.act.source.scheduleID), due)
      case Some(kind) => (w, Err(kind))
      case None =>
        match AuthorizeSource(auth, due.act)
        case Err(kind) => (w, Err(kind))
        case Ok(_) =>
          var (ledger, r) := Accept(w.ledger, due.act, LeaseOf(due.act), f.first, f.second);
          var t := w.(ledger := ledger);
          match r
          case Err(kind) => (if kind == LoopSuppressed then Saved(t, StateOf(due), f.save) else t, Err(kind))
          case Ok(rec) =>
            if rec.status != Accepted then (t, r)
            else (Saved(t, StateOf(due), f.save), if f.save == Delivered then r else Err(CatchUpFailed))
  }

  /** The ticks from `i` on; `known` is the catch-up's own idea of where the schedule stands, which
      only an accepted tick moves. The first error ends the run, as a crash would. */
  function CatchUpFrom(auth: Auth, w: World, tpl: Activation, ticks: seq<Tick>, fs: seq<Faults>,
                       known: Option<ScheduleState>, i: nat): (r: (World, Result<seq<LedgerRecord>>))
    requires |fs| == |ticks| && i <= |ticks|
    decreases |ticks| - i
  {
    if i == |ticks| then (w, Ok([]))
    else
      match ClockPos(ticks[i].clockID, ticks[i].clock)
      case None => (w, Err(ClockInvalid))
      case Some(pos) =>
        if known.Some? && pos <= known.value.clockPosition then CatchUpFrom(auth, w, tpl, ticks, fs, known, i + 1)
        else
          var (t, r) := AcceptTick(auth, w, tpl, ticks[i], fs[i]);
          match r
          case Err(kind) => (t, Err(kind))
          case Ok(rec) =>
            if rec.status != Accepted then CatchUpFrom(auth, t, tpl, ticks, fs, known, i + 1)
            else
              var now := if Activate(tpl, ticks[i]).Ok? then Some(StateOf(Activate(tpl, ticks[i]).value)) else known;
              Prepend(rec, CatchUpFrom(auth, t, tpl, ticks, fs, now, i + 1))
  }

  function Prepend(rec: LedgerRecord, rest: (World, Result<seq<LedgerRecord>>)): (World, Result<seq<LedgerRecord>>) {
    (rest.0, if rest.1.Ok? then Ok([rec] + rest.1.value) else rest.1)
  }

  function CatchUp(auth: Auth, w: World, tpl: Activation, ticks: seq<Tick>, fs: seq<Faults>)
    : (World, Result<seq<LedgerRecord>>)
    requires |fs| == |ticks|
  {
    CatchUpFrom(auth, w, tpl, ticks, fs, LoadSchedule(w, tpl.source.scheduleID), 0)
  }
}
