/** Catch-up is crash-equivalent: wherever runs were cut short, a full run leaves the same ledger. */
module CatchUps {
  import opened Records
  import opened KeyValue
  import opened Ledger
  import opened Authority
  import opened Schedule

  // ---------- the tick lists catch-up is made for ----------

  predicate GoodTick(auth: Auth, tpl: Activation, tick: Tick) {
    Activate(tpl, tick).Ok? && AuthorizeSource(auth, Activate(tpl, tick).value.act).Ok?
  }

  function DueOf(tpl: Activation, tick: Tick): Due
    requires Activate(tpl, tick).Ok?
  {
    Activate(tpl, tick).value
  }

  function CursorOf(src: Source): string {
    match SourcePosition(src)
    case Ok((pos, cursor)) => cursor
    case Err(_) => ""
  }

  function RecOf(tpl: Activation, tick: Tick): LedgerRecord
    requires Activate(tpl, tick).Ok?
  {
    var due := DueOf(tpl, tick);
    MakeRecord(due.act, due.pos, CursorOf(due.act.source))
  }

  /** `later` may follow `earlier`: a later clock, another tick, and an unbroken fence. */
  predicate Follows(tpl: Activation, earlier: Tick, later: Tick)
    requires Activate(tpl, earlier).Ok? && Activate(tpl, later).Ok?
  {
    && DueOf(tpl, earlier).pos < DueOf(tpl, later).pos
    && earlier.tickID != later.tickID
    && earlier.leaderEpoch <= later.leaderEpoch
    && (earlier.leaderEpoch == later.leaderEpoch ==> earlier.fencingToken == later.fencingToken)
  }

  ghost predicate GoodList(auth: Auth, tpl: Activation, ticks: seq<Tick>) {
    && !HopsExhausted(tpl.chain)
    && (forall i :: 0 <= i < |ticks| ==> GoodTick(auth, tpl, ticks[i]))
    && (forall i, j :: 0 <= i < j < |ticks| ==> Follows(tpl, ticks[i], ticks[j]))
  }

  ghost function RecsOf(auth: Auth, tpl: Activation, ticks: seq<Tick>): (recs: seq<LedgerRecord>)
    requires GoodList(auth, tpl, ticks)
    ensures |recs| == |ticks|
  {
    seq(|ticks|, i requires 0 <= i < |ticks| => RecOf(tpl, ticks[i]))
  }

  /** A world in which none of the ticks has happened and nothing forbids them. */
  ghost predicate Before(auth: Auth, tpl: Activation, ticks: seq<Tick>, w: World)
    requires GoodList(auth, tpl, ticks)
  {
    forall i :: 0 <= i < |ticks| ==> Open(tpl, ticks[i], w)
  }

  predicate Open(tpl: Activation, tick: Tick, w: World)
    requires Activate(tpl, tick).Ok?
  {
    var prev := Latest(w.ledger, tpl.sourcePrincipal.sourceID);
    && FindDedupe(w.ledger.accepted, RecOf(tpl, tick).dedupeKey).None?
    && Fence(LoadSchedule(w, tpl.source.scheduleID), DueOf(tpl, tick)).None?
    && (prev.Some? ==> !Stale(prev.value, RecOf(tpl, tick)))
  }

  // ---------- one tick ----------

  lemma TickShape(auth: Auth, tpl: Activation, tick: Tick)
    requires GoodTick(auth, tpl, tick)
    ensures var due := DueOf(tpl, tick);
      && Precheck(due.act, LeaseOf(due.act)).None?
      && SourcePosition(due.act.source) == Ok((due.pos, CursorOf(due.act.source)))
      && due.act.source.scheduleID == tpl.source.scheduleID && due.act.chain == tpl.chain
      && RecOf(tpl, tick).sourceID == tpl.sourcePrincipal.sourceID
      && RecOf(tpl, tick).dedupeKey == DedupeKey(tpl.scriptKey, tpl.source.scheduleID, tick.tickID)
      && RecOf(tpl, tick).sourcePosition == due.pos && RecOf(tpl, tick).status == Accepted
  {
    hide ClockPos, CheckExposure, SourceSubject, CheckSourceAperture;
  }

  /** A tick that passes the fence: a duplicate, a stale cursor, or a save with its three writes. */
  lemma TickOutcome(auth: Auth, w: World, tpl: Activation, tick: Tick, f: Faults)
    requires GoodTick(auth, tpl, tick) && !HopsExhausted(tpl.chain)
    requires Fence(LoadSchedule(w, tpl.source.scheduleID), DueOf(tpl, tick)).None?
    ensures var due, rec := DueOf(tpl, tick), RecOf(tpl, tick);
      var dup, prev := FindDedupe(w.ledger.accepted, rec.dedupeKey), Latest(w.ledger, rec.sourceID);
      var (t, r) := AcceptTick(auth, w, tpl, tick, f);
      if dup.Some? then t == w && r == Ok(dup.value.(status := Duplicate))
      else if prev.Some? && Stale(prev.value, rec) then t == w && r == Err(StaleCursor)
      else
        var (ledger, ok) := Save(w.ledger, rec, f.first, f.second);
        && t == (if ok then Saved(w.(ledger := ledger), StateOf(due), f.save) else w.(ledger := ledger))
        && r == if !ok then Err(WriteConflict) else if f.save == Delivered then Ok(rec) else Err(CatchUpFailed)
  {
    TickShape(auth, tpl, tick);
    hide Activate, AuthorizeSource, Fence, FindDedupe, SourcePosition, Precheck, Save, Stale, CursorOf, DedupeKey;
  }

  lemma KeysApart(tpl: Activation, s: string, t: string)
    requires DedupeKey(tpl.scriptKey, tpl.source.scheduleID, s) == DedupeKey(tpl.scriptKey, tpl.source.scheduleID, t)
    ensures s == t
  {
    var prefix := "schedule:" + tpl.scriptKey + ":" + tpl.source.scheduleID + ":";
    assert s == (prefix + s)[|prefix|..] && t == (prefix + t)[|prefix|..];
  }

  // ---------- how far the runs have got ----------

  /** The first `k` ticks are in the ledger; the source index and the schedule state are those of
      some of them, or still the original ones. */
  ghost predicate Reached(auth: Auth, tpl: Activation, ticks: seq<Tick>, w0: World, w: World, k: nat)
    requires GoodList(auth, tpl, ticks)
  {
    && k <= |ticks|
    && w.ledger.accepted == w0.ledger.accepted + RecsOf(auth, tpl, ticks)[..k]
    && (|| Latest(w.ledger, tpl.sourcePrincipal.sourceID) == Latest(w0.ledger, tpl.sourcePrincipal.sourceID)
        || exists j :: 0 <= j < k && IsLatest(tpl, ticks[j], w))
    && (|| LoadSchedule(w, tpl.source.scheduleID) == LoadSchedule(w0, tpl.source.scheduleID)
        || exists j :: 0 <= j < k && IsSaved(tpl, ticks[j], w))
    && SameElsewhere(tpl, w0, w)
  }

  /** Other sources and other schedules are as they were. */
  ghost predicate SameElsewhere(tpl: Activation, w0: World, w: World) {
    && (forall id :: id != tpl.sourcePrincipal.sourceID ==> Latest(w.ledger, id) == Latest(w0.ledger, id))
    && (forall id :: id != tpl.source.scheduleID ==> LoadSchedule(w, id) == LoadSchedule(w0, id))
  }

  predicate IsLatest(tpl: Activation, tick: Tick, w: World)
    requires Activate(tpl, tick).Ok?
  {
    Latest(w.ledger, tpl.sourcePrincipal.sourceID) == Some(RecOf(tpl, tick))
  }

  predicate IsSaved(tpl: Activation, tick: Tick, w: World)
    requires Activate(tpl, tick).Ok?
  {
    LoadSchedule(w, tpl.source.scheduleID) == Some(StateOf(DueOf(tpl, tick)))
  }

  /** Both the source index and the schedule state are this tick's. */
  predicate IsWhole(tpl: Activation, tick: Tick, w: World)
    requires Activate(tpl, tick).Ok?
  {
    IsLatest(tpl, tick, w) && IsSaved(tpl, tick, w)
  }

  /** The source index and the schedule state are the last tick's. */
  predicate LastIsWhole(auth: Auth, tpl: Activation, ticks: seq<Tick>, w: World) {
    ticks != [] && Activate(tpl, ticks[|ticks| - 1]).Ok? && IsWhole(tpl, ticks[|ticks| - 1], w)
  }

  lemma FenceAfter(auth: Auth, tpl: Activation, earlier: Tick, later: Tick)
    requires GoodTick(auth, tpl, earlier) && GoodTick(auth, tpl, later) && Follows(tpl, earlier, later)
    ensures Fence(Some(StateOf(DueOf(tpl, earlier))), DueOf(tpl, later)).None?
    ensures !Stale(RecOf(tpl, earlier), RecOf(tpl, later))
  {
    hide ClockPos, AuthorizeSource, CursorOf;
  }

  /** The next tick always passes the fence and the staleness check. */
  lemma NextPasses(auth: Auth, tpl: Activation, ticks: seq<Tick>, w0: World, w: World, k: nat)
    requires GoodList(auth, tpl, ticks) && Before(auth, tpl, ticks, w0)
    requires Reached(auth, tpl, ticks, w0, w, k) && k < |ticks|
    ensures var prev := Latest(w.ledger, tpl.sourcePrincipal.sourceID);
      && Fence(LoadSchedule(w, tpl.source.scheduleID), DueOf(tpl, ticks[k])).None?
      && (prev.Some? ==> !Stale(prev.value, RecOf(tpl, ticks[k])))
  {
    hide Activate, AuthorizeSource, Fence, Stale, Follows, StateOf, RecOf, FindDedupe;
    assert Open(tpl, ticks[k], w0);
    forall j | 0 <= j < k
      ensures Fence(Some(StateOf(DueOf(tpl, ticks[j]))), DueOf(tpl, ticks[k])).None?
      ensures !Stale(RecOf(tpl, ticks[j]), RecOf(tpl, ticks[k]))
    {
      FenceAfter(auth, tpl, ticks[j], ticks[k]);
    }
  }

  /** A tick already in the ledger either lies at or behind the saved position or passes the fence. */
  lemma PastTick(auth: Auth, tpl: Activation, ticks: seq<Tick>, w0: World, w: World, k: nat, i: nat)
    requires GoodList(auth, tpl, ticks) && Before(auth, tpl, ticks, w0)
    requires Reached(auth, tpl, ticks, w0, w, k) && i < k
    ensures var saved := LoadSchedule(w, tpl.source.scheduleID);
      || (saved.Some? && DueOf(tpl, ticks[i]).pos <= saved.value.clockPosition)
      || Fence(saved, DueOf(tpl, ticks[i])).None?
  {
    hide Activate, AuthorizeSource, Fence, Stale, RecOf, FindDedupe;
    var saved := LoadSchedule(w, tpl.source.scheduleID);
    assert Open(tpl, ticks[i], w0);
    if saved != LoadSchedule(w0, tpl.source.scheduleID) {
      var j :| 0 <= j < k && IsSaved(tpl, ticks[j], w);
      if j < i {
        FenceAfter(auth, tpl, ticks[j], ticks[i]);
      } else if i < j {
        assert Follows(tpl, ticks[i], ticks[j]);
      }
    }
  }

  /** The ledger knows exactly the first `k` ticks. */
  lemma KnownTicks(auth: Auth, tpl: Activation, ticks: seq<Tick>, w0: World, w: World, k: nat, i: nat)
    requires GoodList(auth, tpl, ticks) && Before(auth, tpl, ticks, w0)
    requires Reached(auth, tpl, ticks, w0, w, k) && i < |ticks|
    ensures FindDedupe(w.ledger.accepted, RecOf(tpl, ticks[i]).dedupeKey).Some? <==> i < k
  {
    hide Activate, AuthorizeSource, Fence, Stale, StateOf, RecOf, DedupeKey, Latest, LoadSchedule;
    var base, recs := w0.ledger.accepted, RecsOf(auth, tpl, ticks);
    assert Open(tpl, ticks[i], w0);
    if i < k {
      assert w.ledger.accepted[|base| + i] == recs[i];
    } else {
      forall j | 0 <= j < k
        ensures recs[j].dedupeKey != RecOf(tpl, ticks[i]).dedupeKey
      {
        TickShape(auth, tpl, ticks[i]);
        TickShape(auth, tpl, ticks[j]);
        assert Follows(tpl, ticks[j], ticks[i]);
        if recs[j].dedupeKey == RecOf(tpl, ticks[i]).dedupeKey {
          KeysApart(tpl, ticks[i].tickID, ticks[j].tickID);
        }
      }
    }
  }

  lemma ReachedBounds(auth: Auth, tpl: Activation, ticks: seq<Tick>, w0: World, w: World, k: nat)
    requires GoodList(auth, tpl, ticks) && Reached(auth, tpl, ticks, w0, w, k)
    ensures k <= |ticks|
    ensures k == |ticks| ==> w.ledger.accepted == w0.ledger.accepted + RecsOf(auth, tpl, ticks)
  {
    assert RecsOf(auth, tpl, ticks)[..|ticks|] == RecsOf(auth, tpl, ticks);
  }

  // ---------- one step of a run ----------

  lemma PastIsDuplicate(auth: Auth, tpl: Activation, ticks: seq<Tick>, w0: World, w: World, k: nat, i: nat, f: Faults)
    requires GoodList(auth, tpl, ticks) && Before(auth, tpl, ticks, w0)
    requires Reached(auth, tpl, ticks, w0, w, k) && i < k
    requires var saved := LoadSchedule(w, tpl.source.scheduleID);
      !(saved.Some? && DueOf(tpl, ticks[i]).pos <= saved.value.clockPosition)
    ensures var (t, r) := AcceptTick(auth, w, tpl, ticks[i], f);
      t == w && r.Ok? && r.value.status == Duplicate
  {
    ReachedBounds(auth, tpl, ticks, w0, w, k);
    hide Activate, AuthorizeSource, Fence, Stale, RecOf, FindDedupe, Save, Reached, AcceptTick;
    PastTick(auth, tpl, ticks, w0, w, k, i);
    KnownTicks(auth, tpl, ticks, w0, w, k, i);
    TickOutcome(auth, w, tpl, ticks[i], f);
  }

  /** The record of tick `k` and, perhaps, the index and the schedule state. */
  lemma ReachedNext(auth: Auth, tpl: Activation, ticks: seq<Tick>, w0: World, w: World, t: World, k: nat)
    requires GoodList(auth, tpl, ticks) && Reached(auth, tpl, ticks, w0, w, k) && k < |ticks|
    requires t.ledger.accepted == w.ledger.accepted + [RecOf(tpl, ticks[k])]
    requires IsLatest(tpl, ticks[k], t)
      || Latest(t.ledger, tpl.sourcePrincipal.sourceID) == Latest(w.ledger, tpl.sourcePrincipal.sourceID)
    requires IsSaved(tpl, ticks[k], t)
      || LoadSchedule(t, tpl.source.scheduleID) == LoadSchedule(w, tpl.source.scheduleID)
    requires SameElsewhere(tpl, w, t)
    ensures Reached(auth, tpl, ticks, w0, t, k + 1)
  {
    hide Activate, AuthorizeSource, RecOf, StateOf, Latest, LoadSchedule, Follows;
    var recs := RecsOf(auth, tpl, ticks);
    assert recs[..k + 1] == recs[..k] + [recs[k]];
    var source, id := tpl.sourcePrincipal.sourceID, tpl.source.scheduleID;
    if !IsLatest(tpl, ticks[k], t) && Latest(t.ledger, source) != Latest(w0.ledger, source) {
      var j :| 0 <= j < k && IsLatest(tpl, ticks[j], w);
      assert IsLatest(tpl, ticks[j], t);
    }
    if !IsSaved(tpl, ticks[k], t) && LoadSchedule(t, id) != LoadSchedule(w0, id) {
      var j :| 0 <= j < k && IsSaved(tpl, ticks[j], w);
      assert IsSaved(tpl, ticks[j], t);
    }
  }

  /** The next tick enters the ledger whole, in part, or not at all; a clean one whole. */
  lemma NextTick(auth: Auth, tpl: Activation, ticks: seq<Tick>, w0: World, w: World, k: nat, f: Faults)
    requires GoodList(auth, tpl, ticks) && Before(auth, tpl, ticks, w0)
    requires Reached(auth, tpl, ticks, w0, w, k) && k < |ticks|
    ensures var (t, r) := AcceptTick(auth, w, tpl, ticks[k], f);
      && (r.Ok? ==> r == Ok(RecOf(tpl, ticks[k])) && r.value.status == Accepted && IsSaved(tpl, ticks[k], t)
                    && Reached(auth, tpl, ticks, w0, t, k + 1))
      && (r.Err? ==> Reached(auth, tpl, ticks, w0, t, k) || Reached(auth, tpl, ticks, w0, t, k + 1))
      && (f == CLEAN ==> r.Ok? && (k + 1 == |ticks| ==> LastIsWhole(auth, tpl, ticks, t)))
  {
    hide Activate, AuthorizeSource, Fence, Stale, RecOf, FindDedupe, Reached, AcceptTick, Follows, HopsExhausted;
    NextPasses(auth, tpl, ticks, w0, w, k);
    KnownTicks(auth, tpl, ticks, w0, w, k, k);
    TickShape(auth, tpl, ticks[k]);
    TickOutcome(auth, w, tpl, ticks[k], f);
    var (t, r) := AcceptTick(auth, w, tpl, ticks[k], f);
    if f.first != Dropped {
      ReachedNext(auth, tpl, ticks, w0, w, t, k);
    }
  }

  lemma NextNotSkipped(auth: Auth, tpl: Activation, ticks: seq<Tick>, w0: World, w: World, k: nat)
    requires GoodList(auth, tpl, ticks) && Before(auth, tpl, ticks, w0)
    requires Reached(auth, tpl, ticks, w0, w, k) && k < |ticks|
    ensures var saved := LoadSchedule(w, tpl.source.scheduleID);
      saved.Some? ==> saved.value.clockPosition < DueOf(tpl, ticks[k]).pos
  {
    hide Activate, AuthorizeSource, Stale, RecOf, FindDedupe, Reached, Follows;
    NextPasses(auth, tpl, ticks, w0, w, k);
  }

  lemma ClockOf(tpl: Activation, tick: Tick)
    requires Activate(tpl, tick).Ok?
    ensures ClockPos(tick.clockID, tick.clock) == Some(DueOf(tpl, tick).pos)
  {
  }

  // ---------- whole runs ----------

  ghost predicate AllClean(fs: seq<Faults>) {
    forall i :: 0 <= i < |fs| ==> fs[i] == CLEAN
  }

  /** A run that knows what the store knows, which is how every run starts and goes on. */
  function RunOn(auth: Auth, w: World, tpl: Activation, ticks: seq<Tick>, fs: seq<Faults>, i: nat)
    : (World, Result<seq<LedgerRecord>>)
    requires |fs| == |ticks| && i <= |ticks|
  {
    CatchUpFrom(auth, w, tpl, ticks, fs, LoadSchedule(w, tpl.source.scheduleID), i)
  }

  lemma PassOver(auth: Auth, tpl: Activation, ticks: seq<Tick>, fs: seq<Faults>, w0: World, w: World, k: nat, i: nat)
    requires GoodList(auth, tpl, ticks) && Before(auth, tpl, ticks, w0) && |fs| == |ticks|
    requires Reached(auth, tpl, ticks, w0, w, k) && i < k <= |ticks|
    ensures RunOn(auth, w, tpl, ticks, fs, i) == RunOn(auth, w, tpl, ticks, fs, i + 1)
  {
    hide Activate, AuthorizeSource, Reached, AcceptTick, ClockPos, Before, Follows, RecOf, HopsExhausted;
    assert GoodTick(auth, tpl, ticks[i]);
    ClockOf(tpl, ticks[i]);
    var known := LoadSchedule(w, tpl.source.scheduleID);
    if !(known.Some? && DueOf(tpl, ticks[i]).pos <= known.value.clockPosition) {
      PastIsDuplicate(auth, tpl, ticks, w0, w, k, i, fs[i]);
    }
    hide GoodList;
  }

  lemma EnterNext(auth: Auth, tpl: Activation, ticks: seq<Tick>, fs: seq<Faults>, w0: World, w: World, k: nat)
    requires GoodList(auth, tpl, ticks) && Before(auth, tpl, ticks, w0) && |fs| == |ticks|
    requires Reached(auth, tpl, ticks, w0, w, k) && k < |ticks|
    ensures var (t, r) := AcceptTick(auth, w, tpl, ticks[k], fs[k]);
      RunOn(auth, w, tpl, ticks, fs, k)
      == if r.Err? then (t, Err(r.kind))
         else Prepend(RecsOf(auth, tpl, ticks)[k], RunOn(auth, t, tpl, ticks, fs, k + 1))
  {
    hide Activate, AuthorizeSource, Reached, AcceptTick, ClockPos, Before, Follows, RecOf, HopsExhausted;
    assert GoodTick(auth, tpl, ticks[k]);
    ClockOf(tpl, ticks[k]);
    NextNotSkipped(auth, tpl, ticks, w0, w, k);
    NextTick(auth, tpl, ticks, w0, w, k, fs[k]);
    var (t, r) := AcceptTick(auth, w, tpl, ticks[k], fs[k]);
    assert r.Ok? ==> LoadSchedule(t, tpl.source.scheduleID) == Some(StateOf(Activate(tpl, ticks[k]).value));
    assert r.Ok? ==> r.value == RecsOf(auth, tpl, ticks)[k];
    hide GoodList, LoadSchedule, StateOf, RecsOf;
  }

  /** What a run from `k` ticks done may come to: `m` ticks done; a clean run does all of them and
      reports exactly the ones it added; with nothing left to do, nothing changes. */
  ghost predicate Gets(auth: Auth, tpl: Activation, ticks: seq<Tick>, fs: seq<Faults>, w0: World, w: World, k: nat,
                       out: (World, Result<seq<LedgerRecord>>), m: nat)
    requires GoodList(auth, tpl, ticks)
  {
    && k <= m && k <= |ticks| && Reached(auth, tpl, ticks, w0, out.0, m)
    && (AllClean(fs) ==> m == |ticks| && out.1 == Ok(RecsOf(auth, tpl, ticks)[k..]))
    && (k == |ticks| ==> out == (w, Ok([])))
    && (AllClean(fs) && k < |ticks| ==> LastIsWhole(auth, tpl, ticks, out.0))
  }

  lemma GetsDone(auth: Auth, tpl: Activation, ticks: seq<Tick>, fs: seq<Faults>, w0: World, w: World)
    requires GoodList(auth, tpl, ticks) && Reached(auth, tpl, ticks, w0, w, |ticks|)
    ensures Gets(auth, tpl, ticks, fs, w0, w, |ticks|, (w, Ok([])), |ticks|)
  {
    hide GoodList, Reached, RecsOf, LastIsWhole;
    assert RecsOf(auth, tpl, ticks)[|ticks|..] == [];
  }

  lemma GetsMore(auth: Auth, tpl: Activation, ticks: seq<Tick>, fs: seq<Faults>, w0: World, w: World, t: World,
                 k: nat, rest: (World, Result<seq<LedgerRecord>>), m: nat)
    requires GoodList(auth, tpl, ticks) && k < |ticks|
    requires Gets(auth, tpl, ticks, fs, w0, t, k + 1, rest, m)
    requires AllClean(fs) && k + 1 == |ticks| ==> LastIsWhole(auth, tpl, ticks, t)
    ensures Gets(auth, tpl, ticks, fs, w0, w, k, Prepend(RecsOf(auth, tpl, ticks)[k], rest), m)
  {
    hide GoodList, Reached, RecsOf, LastIsWhole;
    RestOf(RecsOf(auth, tpl, ticks), k);
  }

  lemma GetsStopped(auth: Auth, tpl: Activation, ticks: seq<Tick>, fs: seq<Faults>, w0: World, w: World, t: World,
                    k: nat, kind: Kind, m: nat)
    requires GoodList(auth, tpl, ticks) && |fs| == |ticks| && k < |ticks| && fs[k] != CLEAN
    requires k <= m && Reached(auth, tpl, ticks, w0, t, m)
    ensures Gets(auth, tpl, ticks, fs, w0, w, k, (t, Err(kind)), m)
  {
    hide GoodList, Reached, RecsOf, LastIsWhole;
  }

  /** The tick that is due either stops the run or puts it one tick further. */
  lemma Advance(auth: Auth, tpl: Activation, ticks: seq<Tick>, fs: seq<Faults>, w0: World, w: World, k: nat)
    returns (t: World, stopped: bool, m: nat)
    requires GoodList(auth, tpl, ticks) && Before(auth, tpl, ticks, w0) && |fs| == |ticks|
    requires Reached(auth, tpl, ticks, w0, w, k) && k < |ticks|
    ensures stopped ==> Gets(auth, tpl, ticks, fs, w0, w, k, RunOn(auth, w, tpl, ticks, fs, k), m)
    ensures !stopped ==> Reached(auth, tpl, ticks, w0, t, k + 1)
    ensures !stopped && fs[k] == CLEAN && k + 1 == |ticks| ==> LastIsWhole(auth, tpl, ticks, t)
    ensures !stopped ==> RunOn(auth, w, tpl, ticks, fs, k)
                         == Prepend(RecsOf(auth, tpl, ticks)[k], RunOn(auth, t, tpl, ticks, fs, k + 1))
  {
    hide Reached, AcceptTick, GoodList, Before, RunOn, RecsOf, Gets, Prepend, RecOf, IsSaved, Activate;
    NextTick(auth, tpl, ticks, w0, w, k, fs[k]);
    EnterNext(auth, tpl, ticks, fs, w0, w, k);
    var step := AcceptTick(auth, w, tpl, ticks[k], fs[k]);
    t, stopped := step.0, step.1.Err?;
    m := if Reached(auth, tpl, ticks, w0, t, k) then k else k + 1;
    if stopped {
      GetsStopped(auth, tpl, ticks, fs, w0, w, t, k, step.1.kind, m);
    }
  }

  lemma {:induction false} RunFrom(auth: Auth, tpl: Activation, ticks: seq<Tick>, fs: seq<Faults>,
                                   w0: World, w: World, k: nat, i: nat) returns (m: nat)
    requires GoodList(auth, tpl, ticks) && Before(auth, tpl, ticks, w0) && |fs| == |ticks|
    requires Reached(auth, tpl, ticks, w0, w, k) && i <= k
    ensures i <= |ticks| && Gets(auth, tpl, ticks, fs, w0, w, k, RunOn(auth, w, tpl, ticks, fs, i), m)
    decreases |ticks| - i
  {
    hide Reached, AcceptTick, GoodList, Before, RunOn, RecsOf, Gets, Prepend, RecOf;
    ReachedBounds(auth, tpl, ticks, w0, w, k);
    m := k;
    if i == |ticks| {
      RunEnds(auth, w, tpl, ticks, fs);
      GetsDone(auth, tpl, ticks, fs, w0, w);
    } else if i < k {
      PassOver(auth, tpl, ticks, fs, w0, w, k, i);
      m := RunFrom(auth, tpl, ticks, fs, w0, w, k, i + 1);
    } else {
      var t, stopped, n := Advance(auth, tpl, ticks, fs, w0, w, k);
      m := n;
      if !stopped {
        m := RunFrom(auth, tpl, ticks, fs, w0, t, k + 1, k + 1);
        GetsMore(auth, tpl, ticks, fs, w0, w, t, k, RunOn(auth, t, tpl, ticks, fs, k + 1), m);
      }
    }
  }

  lemma RunEnds(auth: Auth, w: World, tpl: Activation, ticks: seq<Tick>, fs: seq<Faults>)
    requires |fs| == |ticks|
    ensures RunOn(auth, w, tpl, ticks, fs, |ticks|) == (w, Ok([]))
  {
  }

  lemma RestOf<T>(s: seq<T>, k: nat)
    requires k < |s|
    ensures s[k..] == [s[k]] + s[k + 1..]
  {
  }

  /** Any number of runs over the full list, each with its own faults and each cut at its first error. */
  function Runs(auth: Auth, w: World, tpl: Activation, ticks: seq<Tick>, runs: seq<seq<Faults>>): World
    requires forall n :: 0 <= n < |runs| ==> |runs[n]| == |ticks|
    decreases |runs|
  {
    if runs == [] then w
    else Runs(auth, CatchUp(auth, w, tpl, ticks, runs[0]).0, tpl, ticks, runs[1..])
  }

  lemma {:induction false} RunsReach(auth: Auth, tpl: Activation, ticks: seq<Tick>, w0: World, w: World,
                                     runs: seq<seq<Faults>>, k: nat) returns (m: nat)
    requires GoodList(auth, tpl, ticks) && Before(auth, tpl, ticks, w0) && Reached(auth, tpl, ticks, w0, w, k)
    requires forall n :: 0 <= n < |runs| ==> |runs[n]| == |ticks|
    ensures Reached(auth, tpl, ticks, w0, Runs(auth, w, tpl, ticks, runs), m)
    decreases |runs|
  {
    hide GoodList, Before, Reached, CatchUpFrom;
    m := k;
    if runs == [] {
    } else {
      m := RunFrom(auth, tpl, ticks, runs[0], w0, w, k, 0);
      m := RunsReach(auth, tpl, ticks, w0, CatchUp(auth, w, tpl, ticks, runs[0]).0, runs[1..], m);
    }
  }

  function Clean(ticks: seq<Tick>): (fs: seq<Faults>)
    ensures |fs| == |ticks|
  {
    seq(|ticks|, _ => CLEAN)
  }

  lemma NothingReached(auth: Auth, tpl: Activation, ticks: seq<Tick>, w0: World)
    requires GoodList(auth, tpl, ticks)
    ensures Reached(auth, tpl, ticks, w0, w0, 0)
  {
    assert RecsOf(auth, tpl, ticks)[..0] == [];
  }

  /** However often catch-up was cut short, between whichever writes, one full run brings the ledger
      to the history of a single uninterrupted run: every tick once, in order. A further run finds
      nothing to do and changes nothing. */
  lemma CrashEquivalent(auth: Auth, tpl: Activation, ticks: seq<Tick>, w0: World, runs: seq<seq<Faults>>)
    requires GoodList(auth, tpl, ticks) && Before(auth, tpl, ticks, w0)
    requires forall n :: 0 <= n < |runs| ==> |runs[n]| == |ticks|
    ensures var once := CatchUp(auth, w0, tpl, ticks, Clean(ticks));
      var crashed := Runs(auth, w0, tpl, ticks, runs);
      var recovered := CatchUp(auth, crashed, tpl, ticks, Clean(ticks));
      && once.1 == Ok(RecsOf(auth, tpl, ticks)) && recovered.1.Ok?
      && recovered.0.ledger.accepted == once.0.ledger.accepted == w0.ledger.accepted + RecsOf(auth, tpl, ticks)
      && CatchUp(auth, recovered.0, tpl, ticks, Clean(ticks)) == (recovered.0, Ok([]))
  {
    hide GoodList, Before, Reached, CatchUpFrom, Runs, RecsOf;
    NothingReached(auth, tpl, ticks, w0);
    var fs := Clean(ticks);
    var n := RunFrom(auth, tpl, ticks, fs, w0, w0, 0, 0);
    var once := CatchUp(auth, w0, tpl, ticks, fs);
    ReachedBounds(auth, tpl, ticks, w0, once.0, n);
    var m := RunsReach(auth, tpl, ticks, w0, w0, runs, 0);
    var crashed := Runs(auth, w0, tpl, ticks, runs);
    n := RunFrom(auth, tpl, ticks, fs, w0, crashed, m, 0);
    var recovered := CatchUp(auth, crashed, tpl, ticks, fs);
    ReachedBounds(auth, tpl, ticks, w0, recovered.0, n);
    n := RunFrom(auth, tpl, ticks, fs, w0, recovered.0, n, 0);
    assert RecsOf(auth, tpl, ticks)[0..] == RecsOf(auth, tpl, ticks);
  }

  /** Once every record is in the ledger, catch-up does nothing more. */
  lemma NothingRepaired(auth: Auth, tpl: Activation, ticks: seq<Tick>, w0: World, runs: seq<seq<Faults>>,
                        fs: seq<Faults>)
    requires GoodList(auth, tpl, ticks) && Before(auth, tpl, ticks, w0) && |fs| == |ticks|
    requires forall n :: 0 <= n < |runs| ==> |runs[n]| == |ticks|
    requires |Runs(auth, w0, tpl, ticks, runs).ledger.accepted| == |w0.ledger.accepted| + |ticks|
    ensures var w := Runs(auth, w0, tpl, ticks, runs);
      CatchUp(auth, w, tpl, ticks, fs) == (w, Ok([]))
  {
    hide GoodList, Before, CatchUpFrom, Runs, RecsOf;
    NothingReached(auth, tpl, ticks, w0);
    var m := RunsReach(auth, tpl, ticks, w0, w0, runs, 0);
    var n := RunFrom(auth, tpl, ticks, fs, w0, Runs(auth, w0, tpl, ticks, runs), m, 0);
  }

  // ---------- when everything is recovered ----------

  /** A world is determined by its records, its source indexes and its schedule states. */
  lemma SameWorld(a: World, b: World)
    requires a.ledger.accepted == b.ledger.accepted
    requires forall id :: Latest(a.ledger, id) == Latest(b.ledger, id) && LoadSchedule(a, id) == LoadSchedule(b, id)
    ensures a == b
  {
    forall id
      ensures id in a.ledger.latest <==> id in b.ledger.latest
      ensures id in a.ledger.latest ==> a.ledger.latest[id] == b.ledger.latest[id]
      ensures id in a.schedules <==> id in b.schedules
      ensures id in a.schedules ==> a.schedules[id] == b.schedules[id]
    {
      assert Latest(a.ledger, id) == Latest(b.ledger, id) && LoadSchedule(a, id) == LoadSchedule(b, id);
    }
    assert a.ledger.latest == b.ledger.latest && a.schedules == b.schedules;
  }

  /** With all records in and the last tick's index and state, the world is determined. */
  lemma WholeWorld(auth: Auth, tpl: Activation, ticks: seq<Tick>, w0: World, a: World, b: World)
    requires GoodList(auth, tpl, ticks) && LastIsWhole(auth, tpl, ticks, a)
    requires Reached(auth, tpl, ticks, w0, a, |ticks|) && Reached(auth, tpl, ticks, w0, b, |ticks|)
    ensures a == b <==> LastIsWhole(auth, tpl, ticks, b)
  {
    hide GoodList, RecsOf, Activate, RecOf, StateOf, Latest, LoadSchedule;
    if LastIsWhole(auth, tpl, ticks, b) {
      SameWorld(a, b);
    }
  }

  /** The recovering run ends in exactly the world of the uninterrupted run, source index, schedule
      state and all, if and only if some record was still missing when it began, or the last tick's
      index and state had been written already. */
  lemma RecoveredExactly(auth: Auth, tpl: Activation, ticks: seq<Tick>, w0: World, runs: seq<seq<Faults>>)
    requires GoodList(auth, tpl, ticks) && Before(auth, tpl, ticks, w0) && ticks != []
    requires forall n :: 0 <= n < |runs| ==> |runs[n]| == |ticks|
    ensures var crashed := Runs(auth, w0, tpl, ticks, runs);
      CatchUp(auth, crashed, tpl, ticks, Clean(ticks)).0 == CatchUp(auth, w0, tpl, ticks, Clean(ticks)).0
      <==> || |crashed.ledger.accepted| < |w0.ledger.accepted| + |ticks|
           || LastIsWhole(auth, tpl, ticks, crashed)
  {
    hide GoodList, Before, CatchUpFrom, Runs, RecsOf, LastIsWhole;
    NothingReached(auth, tpl, ticks, w0);
    var fs := Clean(ticks);
    var n := RunFrom(auth, tpl, ticks, fs, w0, w0, 0, 0);
    var once := CatchUp(auth, w0, tpl, ticks, fs).0;
    var m := RunsReach(auth, tpl, ticks, w0, w0, runs, 0);
    var crashed := Runs(auth, w0, tpl, ticks, runs);
    n := RunFrom(auth, tpl, ticks, fs, w0, crashed, m, 0);
    var recovered := CatchUp(auth, crashed, tpl, ticks, fs).0;
    WholeWorld(auth, tpl, ticks, w0, once, recovered);
    hide Reached;
    ReachedCount(auth, tpl, ticks, w0, crashed, m);
  }

  lemma ReachedCount(auth: Auth, tpl: Activation, ticks: seq<Tick>, w0: World, w: World, k: nat)
    requires GoodList(auth, tpl, ticks) && Reached(auth, tpl, ticks, w0, w, k)
    ensures k <= |ticks| && |w.ledger.accepted| == |w0.ledger.accepted| + k
  {
    hide GoodList, RecsOf;
  }

  /** The faults of a run that loses the reply to the last tick's record. */
  function LosingLast(ticks: seq<Tick>): (fs: seq<Faults>)
    ensures |fs| == |ticks|
  {
    seq(|ticks|, i => if i == |ticks| - 1 then Faults(ReplyLost, Delivered, Delivered) else CLEAN)
  }

  /** The tick that is due leaves its record and neither index nor state when the record's reply is lost. */
  lemma LostReply(auth: Auth, tpl: Activation, ticks: seq<Tick>, w0: World, w: World, k: nat)
    requires GoodList(auth, tpl, ticks) && Before(auth, tpl, ticks, w0)
    requires Reached(auth, tpl, ticks, w0, w, k) && k < |ticks|
    ensures var (t, r) := AcceptTick(auth, w, tpl, ticks[k], Faults(ReplyLost, Delivered, Delivered));
      && r.Err? && t.ledger.accepted == w.ledger.accepted + [RecOf(tpl, ticks[k])]
      && !IsLatest(tpl, ticks[k], t) && !IsSaved(tpl, ticks[k], t)
  {
    hide Activate, AuthorizeSource, RecOf, FindDedupe, Reached, AcceptTick, Follows, HopsExhausted;
    NextPasses(auth, tpl, ticks, w0, w, k);
    KnownTicks(auth, tpl, ticks, w0, w, k, k);
    TickShape(auth, tpl, ticks[k]);
    TickOutcome(auth, w, tpl, ticks[k], Faults(ReplyLost, Delivered, Delivered));
  }

  lemma {:induction false} RunLosesLast(auth: Auth, tpl: Activation, ticks: seq<Tick>, w0: World, w: World, k: nat)
    requires GoodList(auth, tpl, ticks) && Before(auth, tpl, ticks, w0)
    requires Reached(auth, tpl, ticks, w0, w, k) && k < |ticks|
    ensures var t := RunOn(auth, w, tpl, ticks, LosingLast(ticks), k).0;
      && |t.ledger.accepted| == |w0.ledger.accepted| + |ticks|
      && !IsLatest(tpl, ticks[|ticks| - 1], t) && !IsSaved(tpl, ticks[|ticks| - 1], t)
    decreases |ticks| - k
  {
    var fs := LosingLast(ticks);
    assert GoodTick(auth, tpl, ticks[|ticks| - 1]);
    ReachedCount(auth, tpl, ticks, w0, w, k);
    hide GoodList, Before, Reached, RecsOf, AcceptTick, RunOn, Activate, IsLatest, IsSaved, RecOf;
    EnterNext(auth, tpl, ticks, fs, w0, w, k);
    var t := AcceptTick(auth, w, tpl, ticks[k], fs[k]).0;
    if k == |ticks| - 1 {
      LostReply(auth, tpl, ticks, w0, w, k);
    } else {
      NextTick(auth, tpl, ticks, w0, w, k, fs[k]);
      RunLosesLast(auth, tpl, ticks, w0, t, k + 1);
    }
  }

  /** What is left behind: from every starting world and for every non-empty list, a run cut after the
      last record leaves index and state behind, and no later run brings them up. */
  lemma LeftBehind(auth: Auth, tpl: Activation, ticks: seq<Tick>, w0: World)
    requires GoodList(auth, tpl, ticks) && Before(auth, tpl, ticks, w0) && ticks != []
    ensures var cut := CatchUp(auth, w0, tpl, ticks, LosingLast(ticks)).0;
      && CatchUp(auth, cut, tpl, ticks, Clean(ticks)) == (cut, Ok([]))
      && cut != CatchUp(auth, w0, tpl, ticks, Clean(ticks)).0
  {
    hide GoodList, Before, Reached, RecsOf, CatchUpFrom, Activate, GoodTick, IsLatest, IsSaved, LosingLast;
    var fs := LosingLast(ticks);
    NothingReached(auth, tpl, ticks, w0);
    RunLosesLast(auth, tpl, ticks, w0, w0, 0);
    var cut := CatchUp(auth, w0, tpl, ticks, fs).0;
    assert Runs(auth, w0, tpl, ticks, [fs]) == cut;
    NothingRepaired(auth, tpl, ticks, w0, [fs], Clean(ticks));
    RecoveredExactly(auth, tpl, ticks, w0, [fs]);
  }
}
