/** The running schedule engine, over a ledger and a bucket of schedule states. */
module ScheduleEngines {
  import opened Records
  import opened Encoding
  import opened KeyValue
  import opened Ledger
  import opened Authority
  import opened DurableLedgers
  import opened Schedule

  ghost predicate Holds(h: seq<Write<ScheduleState>>, schedules: map<string, ScheduleState>) {
    forall id :: Lookup(h, SourceKey(id))
                 == if id in schedules then Found(Entry(schedules[id], LastRevision(h, SourceKey(id)))) else Missing
  }

  lemma HoldsAppend(h: seq<Write<ScheduleState>>, schedules: map<string, ScheduleState>, st: ScheduleState)
    requires Holds(h, schedules)
    ensures Holds(h + [Write(SourceKey(st.scheduleID), st)], schedules[st.scheduleID := st])
  {
    hide SourceKey, LastRevision, Lookup;
    forall id
      ensures var t := h + [Write(SourceKey(st.scheduleID), st)];
        && LastRevision(t, SourceKey(id))
           == (if id == st.scheduleID then |h| + 1 else LastRevision(h, SourceKey(id)))
        && Lookup(t, SourceKey(id))
           == if id == st.scheduleID then Found(Entry(st, |h| + 1)) else Lookup(h, SourceKey(id))
    {
      KeyAppend(h, st, id);
    }
  }

  lemma KeyAppend(h: seq<Write<ScheduleState>>, st: ScheduleState, id: string)
    ensures var t := h + [Write(SourceKey(st.scheduleID), st)];
      && LastRevision(t, SourceKey(id)) == (if id == st.scheduleID then |h| + 1 else LastRevision(h, SourceKey(id)))
      && Lookup(t, SourceKey(id))
         == if id == st.scheduleID then Found(Entry(st, |h| + 1)) else Lookup(h, SourceKey(id))
  {
    hide SourceKey;
    LedgerKeysDistinct(id, st.scheduleID);
    LastRevisionAppend(h, Write(SourceKey(st.scheduleID), st), SourceKey(id));
  }

  class KVScheduleStore {
    const kv: Bucket<ScheduleState>
    ghost var schedules: map<string, ScheduleState>

    ghost predicate Valid()
      reads this, kv
    {
      kv.Valid() && Holds(kv.history, schedules)
    }

    constructor (bucket: Bucket<ScheduleState>)
      requires bucket.Valid() && bucket.history == []
      ensures Valid() && kv == bucket && schedules == map[]
    {
      kv := bucket;
      schedules := map[];
    }

    method Load(id: string) returns (r: Option<ScheduleState>)
      requires Valid()
      ensures r == if id in schedules then Some(schedules[id]) else None
    {
      hide SourceKey;
      var found := kv.Get(SourceKey(id));
      r := if found.Missing? then None else Some(found.entry.value);
    }

    method Save(st: ScheduleState, link: Link) returns (ok: bool)
      requires Valid()
      modifies this`schedules, kv
      ensures Valid() && ok == (link == Delivered)
      ensures schedules == if link == Dropped then old(schedules) else old(schedules)[st.scheduleID := st]
    {
      hide SourceKey, Holds;
      HoldsAppend(kv.history, schedules, st);
      ghost var h := kv.history;
      ok := kv.Put(SourceKey(st.scheduleID), st, link);
      if link != Dropped {
        schedules := schedules[st.scheduleID := st];
      } else {
        assert kv.history == h;
      }
    }
  }

  class ScheduleEngine {
    const auth: Auth
    const ledger: DurableLedger
    const store: KVScheduleStore

    ghost predicate Valid()
      reads ledger.store, ledger.store.kv, store, store.kv
    {
      ledger.store.Valid() && store.Valid()
    }

    ghost function Stores(): World
      reads ledger.store, store
    {
      World(ledger.store.state, store.schedules)
    }

    constructor (a: Auth, l: DurableLedger, s: KVScheduleStore)
      ensures auth == a && ledger == l && store == s
    {
      auth, ledger, store := a, l, s;
    }

    method Accept(tpl: Activation, tick: Tick, f: Faults) returns (r: Result<LedgerRecord>)
      requires Valid()
      modifies ledger.store`state, ledger.store.kv, store`schedules, store.kv
      ensures Valid()
      ensures (Stores(), r) == AcceptTick(auth, old(Stores()), tpl, tick, f)
    {
      hide Activate, Fence, AuthorizeSource, Ledger.Accept, KVScheduleStore.Valid;
      ghost var before := Stores();
      var activated := Activate(tpl, tick);
      if activated.Err? {
        return Err(activated.kind);
      }
      var due := activated.value;
      var saved := store.Load(due.act.source.scheduleID);
      var fenced := Fence(saved, due);
      if fenced.Some? {
        return Err(fenced.value);
      }
      var grant := AuthorizeSource(auth, due.act);
      if grant.Err? {
        return Err(grant.kind);
      }
      r := ledger.Accept(due.act, LeaseOf(due.act), f.first, f.second);
      assert store.schedules == before.schedules;
      if r == Err(LoopSuppressed) {
        var ignored := store.Save(StateOf(due), f.save);
      } else if r.Ok? && r.value.status == Accepted {
        var ok := store.Save(StateOf(due), f.save);
        if !ok {
          r := Err(CatchUpFailed);
        }
      }
    }

    method CatchUp(tpl: Activation, ticks: seq<Tick>, fs: seq<Faults>) returns (r: Result<seq<LedgerRecord>>)
      requires Valid() && |fs| == |ticks|
      modifies ledger.store`state, ledger.store.kv, store`schedules, store.kv
      ensures Valid()
      ensures (Stores(), r) == Schedule.CatchUp(auth, old(Stores()), tpl, ticks, fs)
    {
      hide Activate, ClockPos, AcceptTick, KVScheduleStore.Valid, Joined, Prepend;
      var state := store.Load(tpl.source.scheduleID);
      ghost var whole := CatchUpFrom(auth, Stores(), tpl, ticks, fs, state, 0);
      var out: seq<LedgerRecord> := [];
      JoinedNone(whole);
      for i := 0 to |ticks|
        invariant Valid()
        invariant whole == Joined(out, CatchUpFrom(auth, Stores(), tpl, ticks, fs, state, i))
      {
        var pos := ClockPos(ticks[i].clockID, ticks[i].clock);
        if pos.None? {
          JoinedError(out, Stores(), ClockInvalid);
          return Err(ClockInvalid);
        }
        if state.Some? && pos.value <= state.value.clockPosition {
          continue;
        }
        var rec := Accept(tpl, ticks[i], fs[i]);
        if rec.Err? {
          JoinedError(out, Stores(), rec.kind);
          return Err(rec.kind);
        }
        if rec.value.status == Accepted {
          ghost var before := out;
          out := out + [rec.value];
          var activated := Activate(tpl, ticks[i]);
          if activated.Ok? {
            state := Some(StateOf(activated.value));
          }
          JoinedNext(before, rec.value, CatchUpFrom(auth, Stores(), tpl, ticks, fs, state, i + 1));
        }
      }
      JoinedAll(out, Stores());
      return Ok(out);
    }
  }

  /** What a catch-up returns when `out` was collected before the rest. */
  ghost function Joined(out: seq<LedgerRecord>, rest: (World, Result<seq<LedgerRecord>>))
    : (World, Result<seq<LedgerRecord>>)
  {
    (rest.0, if rest.1.Ok? then Ok(out + rest.1.value) else rest.1)
  }

  lemma JoinedNone(rest: (World, Result<seq<LedgerRecord>>))
    ensures Joined([], rest) == rest
  {
    if rest.1.Ok? {
      assert [] + rest.1.value == rest.1.value;
    }
  }

  lemma JoinedNext(out: seq<LedgerRecord>, rec: LedgerRecord, rest: (World, Result<seq<LedgerRecord>>))
    ensures Joined(out + [rec], rest) == Joined(out, Prepend(rec, rest))
  {
    if rest.1.Ok? {
      assert out + [rec] + rest.1.value == out + ([rec] + rest.1.value);
    }
  }

  lemma JoinedAll(out: seq<LedgerRecord>, w: World)
    ensures Joined(out, (w, Ok([]))) == (w, Ok(out))
  {
    assert out + [] == out;
  }

  lemma JoinedError(out: seq<LedgerRecord>, w: World, kind: Kind)
    ensures Joined(out, (w, Err(kind))) == (w, Err(kind))
  {
  }
}
