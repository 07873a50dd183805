/** Fencing over whole runs of the schedule engine, and what is left of it when writes fail. */
module Fencing {
  import opened Records
  import opened Encoding
  import opened KeyValue
  import opened Ledger
  import opened Authority
  import opened Schedule
  import opened CatchUps

  /** One call of the engine, with the fate of its writes. */
  datatype Call = Call(tpl: Activation, tick: Tick, f: Faults)

  function AfterCalls(auth: Auth, w: World, calls: seq<Call>): World
    decreases |calls|
  {
    if calls == [] then w
    else AfterCalls(auth, AcceptTick(auth, w, calls[0].tpl, calls[0].tick, calls[0].f).0, calls[1..])
  }

  /** The ticks reported as accepted, in the order of the calls. */
  function AcceptedTicks(auth: Auth, w: World, calls: seq<Call>): seq<Due>
    decreases |calls|
  {
    if calls == [] then []
    else
      var c := calls[0];
      var (t, r) := AcceptTick(auth, w, c.tpl, c.tick, c.f);
      (if r.Ok? && r.value.status == Accepted && Activate(c.tpl, c.tick).Ok? then [DueOf(c.tpl, c.tick)] else [])
      + AcceptedTicks(auth, t, calls[1..])
  }

  /** All calls use one template; only its chain, and so whether hops are exhausted, may change. */
  predicate OneTemplate(tpl: Activation, calls: seq<Call>) {
    forall i :: 0 <= i < |calls| ==> calls[i].tpl == tpl.(chain := calls[i].tpl.chain)
  }

  /** The ledger's two writes both take effect, or the record never reaches the store. */
  predicate LedgerWhole(f: Faults) {
    f.first == Dropped || (f.first == Delivered && f.second != Dropped)
  }

  predicate LedgerWholeAll(calls: seq<Call>) {
    forall i :: 0 <= i < |calls| ==> LedgerWhole(calls[i].f)
  }

  /** A record that reaches the store takes the schedule state with it. */
  predicate StateFollows(f: Faults) {
    f.first == Dropped || (f.first == Delivered && f.second == Delivered && f.save != Dropped)
  }

  predicate StateFollowsAll(calls: seq<Call>) {
    forall i :: 0 <= i < |calls| ==> StateFollows(calls[i].f)
  }

  // ---------- what one call does ----------

  /** A later clock, no older epoch, and no other token in the same epoch. */
  predicate Beyond(st: ScheduleState, due: Due) {
    && st.clockPosition < due.pos
    && st.leaderEpoch <= due.act.source.leaderEpoch
    && (st.leaderEpoch == due.act.source.leaderEpoch && st.fencingToken != ""
        ==> st.fencingToken == due.act.source.fencingToken)
  }

  /** Whatever fails, a call leaves the schedule state alone or moves it to its own tick, beyond the
      old state; an accepted tick always moves it. */
  lemma CallMovesFence(auth: Auth, w: World, c: Call)
    ensures var (t, r) := AcceptTick(auth, w, c.tpl, c.tick, c.f);
      var id := c.tpl.source.scheduleID;
      var old0, now := LoadSchedule(w, id), LoadSchedule(t, id);
      && (now == old0
          || (Activate(c.tpl, c.tick).Ok? && now == Some(StateOf(DueOf(c.tpl, c.tick)))
              && (old0.Some? ==> Beyond(old0.value, DueOf(c.tpl, c.tick)))))
      && (r.Ok? && r.value.status == Accepted ==>
          Activate(c.tpl, c.tick).Ok? && now == Some(StateOf(DueOf(c.tpl, c.tick)))
          && (old0.Some? ==> Beyond(old0.value, DueOf(c.tpl, c.tick))))
  {
    hide ClockPos, AuthorizeSource, Ledger.Accept, DedupeKey;
  }

  lemma TokenPresent(tpl: Activation, tick: Tick)
    requires Activate(tpl, tick).Ok?
    ensures StateOf(DueOf(tpl, tick)).fencingToken != ""
  {
    hide ClockPos;
  }

  // ---------- what callers are told ----------

  ghost predicate Fenced(dues: seq<Due>) {
    && (forall i :: 0 <= i < |dues| ==> dues[i].act.source.fencingToken != "")
    && (forall i, j :: 0 <= i < j < |dues| ==> Beyond(StateOf(dues[i]), dues[j]))
  }

  /** Strictly increasing clock positions, non-decreasing leader epochs, one fencing token per epoch. */
  ghost predicate Ascending(dues: seq<Due>) {
    forall i, j :: 0 <= i < j < |dues| ==>
      && dues[i].pos < dues[j].pos
      && dues[i].act.source.leaderEpoch <= dues[j].act.source.leaderEpoch
      && (dues[i].act.source.leaderEpoch == dues[j].act.source.leaderEpoch ==>
          dues[i].act.source.fencingToken == dues[j].act.source.fencingToken)
  }

  lemma FencedMeans(dues: seq<Due>)
    ensures Fenced(dues) ==> Ascending(dues)
    ensures Ascending(dues) && (forall i :: 0 <= i < |dues| ==> dues[i].act.source.fencingToken != "") ==> Fenced(dues)
  {
    if Fenced(dues) {
      forall i, j | 0 <= i < j < |dues|
        ensures Beyond(StateOf(dues[i]), dues[j])
      {
      }
    }
  }

  lemma {:induction false} FencedFrom(auth: Auth, tpl: Activation, w: World, calls: seq<Call>)
    requires OneTemplate(tpl, calls)
    ensures var dues, saved := AcceptedTicks(auth, w, calls), LoadSchedule(w, tpl.source.scheduleID);
      && Fenced(dues)
      && (saved.Some? ==> forall i :: 0 <= i < |dues| ==> Beyond(saved.value, dues[i]))
    decreases |calls|
  {
    hide AcceptTick, Activate, LoadSchedule;
    if calls == [] {
    } else {
      var c, rest := calls[0], calls[1..];
      var t := AcceptTick(auth, w, c.tpl, c.tick, c.f).0;
      assert c.tpl == tpl.(chain := c.tpl.chain);
      CallMovesFence(auth, w, c);
      FencedFrom(auth, tpl, t, rest);
      if Activate(c.tpl, c.tick).Ok? {
        TokenPresent(c.tpl, c.tick);
      }
    }
  }

  /** Ticks reported as accepted have strictly increasing clock positions, non-decreasing leader epochs
      and one fencing token per epoch, whichever writes fail and whatever is refused or suppressed in
      between. */
  lemma FencedRun(auth: Auth, tpl: Activation, w: World, calls: seq<Call>)
    requires OneTemplate(tpl, calls)
    ensures Ascending(AcceptedTicks(auth, w, calls))
  {
    hide AcceptedTicks, LoadSchedule, OneTemplate, Fenced, Ascending;
    FencedFrom(auth, tpl, w, calls);
    FencedMeans(AcceptedTicks(auth, w, calls));
  }

  // ---------- what the ledger records ----------

  /** The call's tick enters the ledger. */
  predicate Enters(auth: Auth, w: World, c: Call) {
    |AcceptTick(auth, w, c.tpl, c.tick, c.f).0.ledger.accepted| > |w.ledger.accepted| && Activate(c.tpl, c.tick).Ok?
  }

  /** The ticks that entered the ledger, reported or not. */
  function RecordedTicks(auth: Auth, w: World, calls: seq<Call>): seq<Due>
    decreases |calls|
  {
    if calls == [] then []
    else
      var c := calls[0];
      var t := AcceptTick(auth, w, c.tpl, c.tick, c.f).0;
      (if Enters(auth, w, c) then [DueOf(c.tpl, c.tick)] else []) + RecordedTicks(auth, t, calls[1..])
  }

  /** A call that records its tick found it beyond the schedule state, and with the state following moves
      the state to it. */
  lemma RecordMovesFence(auth: Auth, w: World, c: Call)
    ensures var t := AcceptTick(auth, w, c.tpl, c.tick, c.f).0;
      var before, now := LoadSchedule(w, c.tpl.source.scheduleID), LoadSchedule(t, c.tpl.source.scheduleID);
      |t.ledger.accepted| > |w.ledger.accepted| ==>
        && Activate(c.tpl, c.tick).Ok?
        && (before.Some? ==> Beyond(before.value, DueOf(c.tpl, c.tick)))
        && (StateFollows(c.f) ==> now == Some(StateOf(DueOf(c.tpl, c.tick))))
  {
    hide ClockPos, AuthorizeSource, Precheck, SourcePosition, FindDedupe, Stale, DedupeKey;
  }

  /** No call records a tick that is not beyond the last recorded one, `behind`, when that one's state
      did not follow. */
  ghost predicate NeverPassed(auth: Auth, w: World, calls: seq<Call>, behind: Option<Due>)
    decreases |calls|
  {
    if calls == [] then true
    else
      var c := calls[0];
      var t := AcceptTick(auth, w, c.tpl, c.tick, c.f).0;
      if !Enters(auth, w, c) then NeverPassed(auth, t, calls[1..], behind)
      else
        var due := DueOf(c.tpl, c.tick);
        && (behind.Some? ==> Beyond(StateOf(behind.value), due))
        && NeverPassed(auth, t, calls[1..], if StateFollows(c.f) then None else Some(due))
  }

  predicate HasToken(due: Due) {
    due.act.source.fencingToken != ""
  }

  /** The schedule state is the tick's, or one beyond it. */
  predicate CaughtUp(due: Due, st: ScheduleState) {
    && due.pos <= st.clockPosition && due.act.source.leaderEpoch <= st.leaderEpoch
    && (due.act.source.leaderEpoch == st.leaderEpoch ==> st.fencingToken == due.act.source.fencingToken)
  }

  lemma BeyondCaughtUp(a: Due, st: ScheduleState, b: Due)
    requires HasToken(a) && CaughtUp(a, st) && Beyond(st, b)
    ensures Beyond(StateOf(a), b) && CaughtUp(a, StateOf(b))
  {
  }

  function Just(last: Option<Due>): seq<Due> {
    if last.Some? then [last.value] else []
  }

  /** A list of ticks is fenced if each is beyond the one before it. */
  lemma FencedCons(a: Due, b: Due, rest: seq<Due>)
    requires HasToken(a) && HasToken(b)
    ensures Fenced([a, b] + rest) <==> Beyond(StateOf(a), b) && Fenced([b] + rest)
  {
    hide Beyond, StateOf, CaughtUp;
    var all, tail := [a, b] + rest, [b] + rest;
    if Fenced(all) {
      assert all[0] == a && all[1] == b;
      forall i, j | 0 <= i < j < |tail|
        ensures Beyond(StateOf(tail[i]), tail[j])
      {
        assert tail[i] == all[i + 1] && tail[j] == all[j + 1];
      }
      forall i | 0 <= i < |tail|
        ensures HasToken(tail[i])
      {
        assert tail[i] == all[i + 1];
      }
    }
    if Beyond(StateOf(a), b) && Fenced(tail) {
      forall i | 0 <= i < |all|
        ensures HasToken(all[i])
      {
        assert i > 0 ==> all[i] == tail[i - 1];
      }
      forall i, j | 0 <= i < j < |all|
        ensures Beyond(StateOf(all[i]), all[j])
      {
        assert all[j] == tail[j - 1] && tail[0] == b;
        if i > 0 {
          assert all[i] == tail[i - 1];
        } else if j > 1 {
          assert Beyond(StateOf(tail[0]), tail[j - 1]);
          ThroughMiddle(a, b, all[j]);
        }
      }
    }
  }

  lemma ThroughMiddle(a: Due, b: Due, c: Due)
    requires HasToken(a) && Beyond(StateOf(a), b) && Beyond(StateOf(b), c)
    ensures Beyond(StateOf(a), c)
  {
  }

  /** From a world in which the last recorded tick is `last`, and its state has followed unless `left`. */
  lemma {:induction false} RecordedFrom(auth: Auth, tpl: Activation, w: World, calls: seq<Call>, last: Option<Due>,
                                        left: bool)
    requires OneTemplate(tpl, calls) && (last.Some? ==> HasToken(last.value))
    requires last.Some? && !left ==>
      var saved := LoadSchedule(w, tpl.source.scheduleID);
      saved.Some? && CaughtUp(last.value, saved.value)
    ensures Fenced(Just(last) + RecordedTicks(auth, w, calls))
            <==> NeverPassed(auth, w, calls, if left then last else None)
    decreases |calls|
  {
    hide AcceptTick, Activate, LoadSchedule, Fenced, Beyond, StateOf, CaughtUp;
    if calls == [] {
      JustFenced(last);
      assert Just(last) + [] == Just(last);
    } else {
      var c, rest := calls[0], calls[1..];
      var t := AcceptTick(auth, w, c.tpl, c.tick, c.f).0;
      assert c.tpl == tpl.(chain := c.tpl.chain);
      CallMovesFence(auth, w, c);
      RecordMovesFence(auth, w, c);
      if Activate(c.tpl, c.tick).Ok? {
        var due, before := DueOf(c.tpl, c.tick), LoadSchedule(w, tpl.source.scheduleID);
        TokenPresent(c.tpl, c.tick);
        TokenOfState(due);
        CaughtUpWithItself(due);
        if last.Some? && !left && Beyond(before.value, due) {
          BeyondCaughtUp(last.value, before.value, due);
        }
        if Enters(auth, w, c) {
          RecordedFrom(auth, tpl, t, rest, Some(due), !StateFollows(c.f));
          Attach(last, due, RecordedTicks(auth, t, rest));
        } else {
          assert RecordedTicks(auth, w, calls) == RecordedTicks(auth, t, rest);
          RecordedFrom(auth, tpl, t, rest, last, left);
        }
      } else {
        assert RecordedTicks(auth, w, calls) == RecordedTicks(auth, t, rest);
        RecordedFrom(auth, tpl, t, rest, last, left);
      }
    }
  }

  lemma JustFenced(last: Option<Due>)
    requires last.Some? ==> HasToken(last.value)
    ensures Fenced(Just(last))
  {
    hide Beyond, StateOf;
  }

  lemma CaughtUpWithItself(due: Due)
    ensures CaughtUp(due, StateOf(due))
  {
  }

  lemma TokenOfState(due: Due)
    ensures StateOf(due).fencingToken != "" <==> HasToken(due)
  {
  }

  lemma Attach(last: Option<Due>, due: Due, rest: seq<Due>)
    requires HasToken(due) && (last.Some? ==> HasToken(last.value))
    ensures Fenced(Just(last) + ([due] + rest))
            <==> (last.Some? ==> Beyond(StateOf(last.value), due)) && Fenced(Just(Some(due)) + rest)
  {
    hide Fenced, Beyond, StateOf;
    if last.Some? {
      FencedCons(last.value, due, rest);
      assert [last.value] + ([due] + rest) == [last.value, due] + rest;
    } else {
      assert [] + ([due] + rest) == [due] + rest;
    }
  }

  lemma {:induction false} RecordedTokens(auth: Auth, w: World, calls: seq<Call>)
    ensures forall i :: 0 <= i < |RecordedTicks(auth, w, calls)| ==> HasToken(RecordedTicks(auth, w, calls)[i])
    decreases |calls|
  {
    hide AcceptTick, Activate;
    if calls == [] {
    } else {
      var c := calls[0];
      RecordedTokens(auth, AcceptTick(auth, w, c.tpl, c.tick, c.f).0, calls[1..]);
      if Activate(c.tpl, c.tick).Ok? {
        TokenPresent(c.tpl, c.tick);
        TokenOfState(DueOf(c.tpl, c.tick));
      }
    }
  }

  /** In every run the recorded ticks, reported or not, ascend if and only if no tick is recorded that
      is not beyond the recorded one before it, when that one's schedule state did not follow. */
  lemma RecordsAscendExactly(auth: Auth, tpl: Activation, w: World, calls: seq<Call>)
    requires OneTemplate(tpl, calls)
    ensures Ascending(RecordedTicks(auth, w, calls)) <==> NeverPassed(auth, w, calls, None)
  {
    hide RecordedTicks, LoadSchedule, OneTemplate, Fenced, Ascending, NeverPassed;
    RecordedFrom(auth, tpl, w, calls, None, false);
    RecordedTokens(auth, w, calls);
    var dues := RecordedTicks(auth, w, calls);
    assert Just(None) + dues == dues;
    FencedMeans(dues);
  }

  lemma {:induction false} NothingLeftBehind(auth: Auth, w: World, calls: seq<Call>)
    requires StateFollowsAll(calls)
    ensures NeverPassed(auth, w, calls, None)
    decreases |calls|
  {
    hide AcceptTick, Activate;
    if calls == [] {
    } else {
      var c := calls[0];
      assert StateFollows(c.f);
      NothingLeftBehind(auth, AcceptTick(auth, w, c.tpl, c.tick, c.f).0, calls[1..]);
    }
  }

  /** So they ascend when every record that lands takes its state with it. */
  lemma RecordsAreFenced(auth: Auth, tpl: Activation, w: World, calls: seq<Call>)
    requires OneTemplate(tpl, calls) && StateFollowsAll(calls)
    ensures Ascending(RecordedTicks(auth, w, calls))
  {
    hide RecordedTicks, OneTemplate, Ascending, NeverPassed, StateFollows;
    RecordsAscendExactly(auth, tpl, w, calls);
    NothingLeftBehind(auth, w, calls);
  }

  // ---------- what the ledger alone still guarantees ----------

  /** One record per tick, whatever fails: a lost reply or a lost schedule state never lets a tick in twice. */
  lemma {:induction false} AtMostOnce(auth: Auth, w: World, calls: seq<Call>)
    requires DistinctDedupe(w.ledger.accepted)
    ensures w.ledger.accepted <= AfterCalls(auth, w, calls).ledger.accepted
    ensures DistinctDedupe(AfterCalls(auth, w, calls).ledger.accepted)
    decreases |calls|
  {
    hide AcceptTick, DistinctDedupe;
    if calls == [] {
    } else {
      var c := calls[0];
      CallKeepsDistinct(auth, w, c);
      AtMostOnce(auth, AcceptTick(auth, w, c.tpl, c.tick, c.f).0, calls[1..]);
    }
  }

  lemma CallKeepsDistinct(auth: Auth, w: World, c: Call)
    requires DistinctDedupe(w.ledger.accepted)
    ensures var t := AcceptTick(auth, w, c.tpl, c.tick, c.f).0;
      w.ledger.accepted <= t.ledger.accepted && DistinctDedupe(t.ledger.accepted)
  {
    hide Activate, AuthorizeSource, Ledger.Accept, DistinctDedupe, Fence;
    if Activate(c.tpl, c.tick).Ok? {
      var act := DueOf(c.tpl, c.tick).act;
      AcceptKeepsDistinct(w.ledger, act, LeaseOf(act), c.f.first, c.f.second);
    }
  }

  /** The position the ledger gives a tick is its clock position. */
  lemma PositionOfDue(tpl: Activation, tick: Tick)
    requires Activate(tpl, tick).Ok?
    ensures var due := DueOf(tpl, tick);
      && SourcePosition(due.act.source) == Ok((due.pos, CursorOf(due.act.source)))
      && due.pos > 0 && due.act.sourcePrincipal == tpl.sourcePrincipal
  {
    hide ClockPos, DedupeKey;
  }

  /** With whole writes the ledger keeps its state or gains one record, which becomes the index. */
  lemma AcceptExtends(s: State, act: Activation, lease: Lease, f: Faults)
    requires LedgerWhole(f) && SourcePosition(act.source).Ok? && SourcePosition(act.source).value.0 > 0
    ensures var t := Accept(s, act, lease, f.first, f.second).0;
      var position := SourcePosition(act.source).value;
      var rec := MakeRecord(act, position.0, position.1);
      || t == s
      || (t.accepted == s.accepted + [rec] && Latest(t, rec.sourceID) == Some(rec)
          && Above(Latest(s, rec.sourceID), rec))
  {
    hide FindDedupe, Precheck, SourcePosition, ReplayCursor, HopsExhausted;
  }

  /** The record a tick would get. */
  function RecordOf(c: Call): LedgerRecord
    requires Activate(c.tpl, c.tick).Ok?
  {
    RecOf(c.tpl, c.tick)
  }

  /** What a call with whole ledger writes does to the ledger: nothing, or a record beyond the index. */
  lemma CallExtendsLedger(auth: Auth, w: World, c: Call)
    requires LedgerWhole(c.f)
    ensures var t, source := AcceptTick(auth, w, c.tpl, c.tick, c.f).0, c.tpl.sourcePrincipal.sourceID;
      || t.ledger == w.ledger
      || (&& Activate(c.tpl, c.tick).Ok?
          && t.ledger.accepted == w.ledger.accepted + [RecordOf(c)] && Latest(t.ledger, source) == Some(RecordOf(c))
          && RecordOf(c).sourcePosition > 0 && Above(Latest(w.ledger, source), RecordOf(c)))
  {
    hide AuthorizeSource, Activate, Fence, Ledger.Accept, SourcePosition, Latest, Above, CursorOf;
    if Activate(c.tpl, c.tick).Ok? {
      var due := DueOf(c.tpl, c.tick);
      PositionOfDue(c.tpl, c.tick);
      AcceptExtends(w.ledger, due.act, LeaseOf(due.act), c.f);
    }
  }

  predicate Above(prev: Option<LedgerRecord>, rec: LedgerRecord) {
    prev.Some? && prev.value.sourcePosition > 0 ==> prev.value.sourcePosition < rec.sourcePosition
  }

  /** The records the calls added. */
  function Added(auth: Auth, w: World, calls: seq<Call>): seq<LedgerRecord> {
    var before, after := w.ledger.accepted, AfterCalls(auth, w, calls).ledger.accepted;
    if |before| <= |after| then after[|before|..] else []
  }

  ghost predicate Increasing(recs: seq<LedgerRecord>) {
    && (forall i :: 0 <= i < |recs| ==> recs[i].sourcePosition > 0)
    && (forall i, j :: 0 <= i < j < |recs| ==> recs[i].sourcePosition < recs[j].sourcePosition)
  }

  lemma IncreasingCons(rec: LedgerRecord, rest: seq<LedgerRecord>)
    requires Increasing(rest) && rec.sourcePosition > 0
    requires forall i :: 0 <= i < |rest| ==> rec.sourcePosition < rest[i].sourcePosition
    ensures Increasing([rec] + rest)
  {
  }

  lemma {:induction false} CallsGrow(auth: Auth, w: World, calls: seq<Call>)
    ensures w.ledger.accepted <= AfterCalls(auth, w, calls).ledger.accepted
    decreases |calls|
  {
    hide AcceptTick;
    if calls == [] {
    } else {
      var c := calls[0];
      CallGrows(auth, w, c);
      CallsGrow(auth, AcceptTick(auth, w, c.tpl, c.tick, c.f).0, calls[1..]);
    }
  }

  lemma CallGrows(auth: Auth, w: World, c: Call)
    ensures w.ledger.accepted <= AcceptTick(auth, w, c.tpl, c.tick, c.f).0.ledger.accepted
  {
    hide Activate, AuthorizeSource, Fence, SourcePosition, Precheck, FindDedupe, MakeRecord, Stale;
  }

  lemma AddedFirst(auth: Auth, w: World, calls: seq<Call>, more: seq<LedgerRecord>)
    requires calls != []
    requires var t := AcceptTick(auth, w, calls[0].tpl, calls[0].tick, calls[0].f).0;
      t.ledger.accepted == w.ledger.accepted + more
    ensures var t := AcceptTick(auth, w, calls[0].tpl, calls[0].tick, calls[0].f).0;
      Added(auth, w, calls) == more + Added(auth, t, calls[1..])
  {
    hide AcceptTick;
    var t := AcceptTick(auth, w, calls[0].tpl, calls[0].tick, calls[0].f).0;
    CallsGrow(auth, t, calls[1..]);
    var end := AfterCalls(auth, t, calls[1..]).ledger.accepted;
    assert AfterCalls(auth, w, calls).ledger.accepted == end;
    assert end[|w.ledger.accepted|..] == more + end[|t.ledger.accepted|..];
  }

  lemma {:induction false} AddedIncreases(auth: Auth, tpl: Activation, w: World, calls: seq<Call>)
    requires OneTemplate(tpl, calls) && LedgerWholeAll(calls)
    ensures var recs := Added(auth, w, calls);
      && Increasing(recs)
      && forall i :: 0 <= i < |recs| ==> Above(Latest(w.ledger, tpl.sourcePrincipal.sourceID), recs[i])
    decreases |calls|
  {
    hide AcceptTick, Increasing, Latest, Added;
    if calls == [] {
      AddedNone(auth, w);
    } else {
      var c := calls[0];
      var t := AcceptTick(auth, w, c.tpl, c.tick, c.f).0;
      assert c.tpl == tpl.(chain := c.tpl.chain) && LedgerWhole(c.f);
      AddedIncreases(auth, tpl, t, calls[1..]);
      CallExtendsLedger(auth, w, c);
      if t.ledger == w.ledger {
        AddedFirst(auth, w, calls, []);
        assert [] + Added(auth, t, calls[1..]) == Added(auth, t, calls[1..]);
      } else {
        AddedFirst(auth, w, calls, [RecordOf(c)]);
        IncreasingCons(RecordOf(c), Added(auth, t, calls[1..]));
      }
    }
  }

  lemma AddedNone(auth: Auth, w: World)
    ensures Added(auth, w, []) == [] && Increasing([])
  {
  }

  /** When schedule saves fail in any pattern but the ledger's own writes are whole, the ledger alone
      keeps the added records strictly increasing in clock position and one per tick. */
  lemma FailedSavesStillOrdered(auth: Auth, tpl: Activation, w: World, calls: seq<Call>)
    requires OneTemplate(tpl, calls) && LedgerWholeAll(calls) && DistinctDedupe(w.ledger.accepted)
    ensures var recs := Added(auth, w, calls);
      && AfterCalls(auth, w, calls).ledger.accepted == w.ledger.accepted + recs
      && DistinctDedupe(w.ledger.accepted + recs)
      && forall i, j :: 0 <= i < j < |recs| ==> recs[i].sourcePosition < recs[j].sourcePosition
  {
    hide AfterCalls, OneTemplate, LedgerWholeAll, DistinctDedupe;
    AtMostOnce(auth, w, calls);
    AddedIncreases(auth, tpl, w, calls);
    var end := AfterCalls(auth, w, calls).ledger.accepted;
    assert end == w.ledger.accepted + end[|w.ledger.accepted|..];
  }

  /** Between the three writes the guarantee is lost. When tick `a` is recorded, tick `b` gets in next
      exactly if it passes the fence or `a` did not get as far as the schedule state, and it is later
      than `a` or `a` did not get as far as the source index. */
  lemma GapsBetweenWrites(auth: Auth, tpl: Activation, w: World, a: Tick, b: Tick, f: Faults)
    requires GoodTick(auth, tpl, a) && GoodTick(auth, tpl, b) && !HopsExhausted(tpl.chain)
    requires Open(tpl, a, w) && Open(tpl, b, w) && a.tickID != b.tickID
    requires f.first != Dropped
    ensures var t := AcceptTick(auth, w, tpl, a, f).0;
      var u := AcceptTick(auth, t, tpl, b, CLEAN).0;
      && t.ledger.accepted == w.ledger.accepted + [RecOf(tpl, a)]
      && (u.ledger.accepted == w.ledger.accepted + [RecOf(tpl, a), RecOf(tpl, b)] <==>
            && (!StateFollows(f) || Fence(Some(StateOf(DueOf(tpl, a))), DueOf(tpl, b)).None?)
            && (!LedgerWhole(f) || DueOf(tpl, a).pos < DueOf(tpl, b).pos))
  {
    hide AcceptTick, Activate, AuthorizeSource, Fence, DedupeKey, RecOf, HopsExhausted;
    TickShape(auth, tpl, a);
    TickShape(auth, tpl, b);
    TickOutcome(auth, w, tpl, a, f);
    var t := AcceptTick(auth, w, tpl, a, f).0;
    var ra, rb := RecOf(tpl, a), RecOf(tpl, b);
    assert ra.dedupeKey != rb.dedupeKey by {
      if ra.dedupeKey == rb.dedupeKey {
        KeysApart(tpl, a.tickID, b.tickID);
      }
    }
    if Fence(LoadSchedule(t, tpl.source.scheduleID), DueOf(tpl, b)).None? {
      TickOutcome(auth, t, tpl, b, CLEAN);
    } else {
      FencedOut(auth, t, tpl, b);
    }
    assert w.ledger.accepted + [ra] + [rb] == w.ledger.accepted + [ra, rb];
  }

  lemma FencedOut(auth: Auth, w: World, tpl: Activation, tick: Tick)
    requires Activate(tpl, tick).Ok? && Fence(LoadSchedule(w, tpl.source.scheduleID), DueOf(tpl, tick)).Some?
    ensures AcceptTick(auth, w, tpl, tick, CLEAN).0 == w
  {
    hide ClockPos, AuthorizeSource, Fence, Ledger.Accept;
  }
}
