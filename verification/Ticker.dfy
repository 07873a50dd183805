/** Schedule ticks claimed by any number of daemons through compare-and-set on the schedule record. */
module Ticker {
  import opened Records
  import opened KeyValue

  const NANOS_PER_MS := 1_000_000
  const MIN_EVERY_MS := 100

  /** The last tick time: never ticked, a time in nanoseconds, or text that does not parse. */
  datatype LastTick = Never | At(ns: int) | Unreadable

  datatype Writer = ByDaemon | ByCommand

  datatype Schedule = Schedule(
    name: string, active: bool, everyMs: int, writeItem: string, value: string, sequence: int, lastTick: LastTick,
    writer: Writer)

  type History = seq<Write<Schedule>>

  predicate ScheduleDue(rec: Schedule, now: int) {
    match rec.lastTick
    case Never => true
    case Unreadable => false
    case At(last) => last + rec.everyMs * NANOS_PER_MS <= now
  }

  predicate Claimable(rec: Schedule, key: string, now: int) {
    rec.name == key && rec.active && rec.everyMs >= MIN_EVERY_MS && rec.writeItem != "" && ScheduleDue(rec, now)
  }

  function Ticked(rec: Schedule, now: int): Schedule {
    rec.(sequence := rec.sequence + 1, lastTick := At(now), writer := ByDaemon)
  }

  function TurnedOff(rec: Schedule): Schedule {
    rec.(active := false, writer := ByCommand)
  }

  /** `set` keeps the number and the last tick of the record it read, if there was one. */
  function SetTo(prev: Option<Schedule>, name: string, everyMs: int, writeItem: string, value: string): Schedule {
    match prev
    case Some(p) =>
      if p.name == name then Schedule(name, true, everyMs, writeItem, value, p.sequence, p.lastTick, ByCommand)
      else Schedule(name, true, everyMs, writeItem, value, 0, Never, ByCommand)
    case None => Schedule(name, true, everyMs, writeItem, value, 0, Never, ByCommand)
  }

  // ---------- the steps ----------

  /** What a process has read and means to write. */
  datatype Phase =
    | Ticking(key: string, revision: nat, next: Schedule)
    | TurningOff(key: string, revision: nat, next: Schedule)
    | Setting(key: string, base: Option<Schedule>, next: Schedule)
    | Claimed(key: string, revision: nat)
    | Done

  function TickRead(h: History, key: string, now: int): Phase {
    match Lookup(h, key)
    case Missing => Done
    case Found(e) => if Claimable(e.value, key, now) then Ticking(key, e.revision, Ticked(e.value, now)) else Done
  }

  function OffRead(h: History, key: string): Phase {
    match Lookup(h, key)
    case Missing => Done
    case Found(e) => if e.value.name == key then TurningOff(key, e.revision, TurnedOff(e.value)) else Done
  }

  function Current(h: History, key: string): Option<Schedule> {
    match Lookup(h, key)
    case Missing => None
    case Found(e) => Some(e.value)
  }

  function SetRead(h: History, key: string, everyMs: int, writeItem: string, value: string): Phase {
    Setting(key, Current(h, key), SetTo(Current(h, key), key, everyMs, writeItem, value))
  }

  /** The write that ends a process; a daemon that hears of its success has claimed the tick. */
  function Finish(h: History, phase: Phase, link: Link): (History, Phase) {
    match phase
    case Ticking(key, revision, next) =>
      var (t, ack) := CompareAndSet(h, key, next, revision, link);
      (t, if ack.Wrote? then Claimed(key, ack.revision) else Done)
    case TurningOff(key, revision, next) => (CompareAndSet(h, key, next, revision, link).0, Done)
    case Setting(key, _, next) => (if link == Dropped then h else h + [Write(key, next)], Done)
    case _ => (h, phase)
  }

  /** A daemon's two halves, with anything in between. */
  class Daemon {
    const kv: Bucket<Schedule>

    constructor (bucket: Bucket<Schedule>)
      ensures kv == bucket
    {
      kv := bucket;
    }

    method Read(key: string, now: int) returns (phase: Phase)
      requires kv.Valid()
      ensures phase == TickRead(kv.history, key, now)
    {
      var found := kv.Get(key);
      if found.Missing? || !Claimable(found.entry.value, key, now) {
        return Done;
      }
      var rec := found.entry.value;
      var next := rec.(sequence := rec.sequence + 1, lastTick := At(now), writer := ByDaemon);
      return Ticking(key, found.entry.revision, next);
    }

    method Claim(phase: Phase, link: Link) returns (next: Phase)
      requires kv.Valid() && phase.Ticking?
      modifies kv
      ensures kv.Valid() && (kv.history, next) == Finish(old(kv.history), phase, link)
    {
      var ack := kv.Update(phase.key, phase.next, phase.revision, link);
      next := if ack.Wrote? then Claimed(phase.key, ack.revision) else Done;
    }
  }

  // ---------- the machine ----------

  datatype Sys = Sys(h: History, procs: map<nat, Phase>)

  const START := Sys([], map[])

  datatype Event =
    | StartTick(p: nat, key: string, now: int)
    | StartOff(p: nat, key: string)
    | StartSet(p: nat, key: string, everyMs: int, writeItem: string, value: string)
    | End(p: nat, link: Link)

  function Start(s: Sys, p: nat, phase: Phase): Sys {
    if p in s.procs then s else s.(procs := s.procs[p := phase])
  }

  function Do(s: Sys, e: Event): Sys {
    match e
    case StartTick(p, key, now) => Start(s, p, TickRead(s.h, key, now))
    case StartOff(p, key) => Start(s, p, OffRead(s.h, key))
    case StartSet(p, key, everyMs, writeItem, value) => Start(s, p, SetRead(s.h, key, everyMs, writeItem, value))
    case End(p, link) =>
      if p !in s.procs then s
      else
        var (h, phase) := Finish(s.h, s.procs[p], link);
        Sys(h, s.procs[p := phase])
  }

  function Exec(events: seq<Event>): Sys {
    if events == [] then START else Do(Exec(events[..|events| - 1]), events[|events| - 1])
  }

  /** Where the numbering of a schedule stands. */
  function Standing(rec: Option<Schedule>): (int, LastTick) {
    match rec
    case None => (0, Never)
    case Some(r) => (r.sequence, r.lastTick)
  }

  /** No tick was written between the read of any `set` and its write, if that lands. */
  ghost predicate SetsAreFresh(events: seq<Event>) {
    forall n :: 0 <= n < |events| ==> FreshEnd(Exec(events[..n]), events[n])
  }

  predicate FreshEnd(s: Sys, e: Event) {
    e.End? && e.link != Dropped && e.p in s.procs && s.procs[e.p].Setting? ==>
      Standing(Current(s.h, s.procs[e.p].key)) == Standing(s.procs[e.p].base)
  }

  // ---------- the versions of one schedule ----------

  /** What a write may do to the version before it. */
  predicate Succeeds(prev: Option<Schedule>, next: Schedule, key: string) {
    next.name == key && if next.writer.ByDaemon? then ATick(prev, next) else Standing(Some(next)) == Standing(prev)
  }

  /** The next number, at least the interval after the last tick, on an active schedule. */
  predicate ATick(prev: Option<Schedule>, next: Schedule) {
    && prev.Some? && prev.value.active && next.active && next.everyMs == prev.value.everyMs >= MIN_EVERY_MS
    && next.sequence == prev.value.sequence + 1 && next.lastTick.At?
    && (prev.value.lastTick == Never
        || (prev.value.lastTick.At? && prev.value.lastTick.ns + next.everyMs * NANOS_PER_MS <= next.lastTick.ns))
  }

  predicate ContinuesAt(h: History, i: nat)
    requires i < |h|
  {
    Succeeds(Current(h[..i], h[i].key), h[i].value, h[i].key)
  }

  /** Every write to a schedule continues the version it replaces. */
  ghost predicate Continues(h: History) {
    forall i: nat :: i < |h| ==> ContinuesAt(h, i)
  }

  lemma ContinuesFront(h: History, n: nat)
    requires Continues(h) && n <= |h|
    ensures Continues(h[..n])
  {
    hide Succeeds, Current;
    var t := h[..n];
    forall i: nat | i < n
      ensures ContinuesAt(t, i)
    {
      assert ContinuesAt(h, i) && t[..i] == h[..i] && t[i] == h[i];
    }
  }

  lemma ContinuesAppend(h: History, w: Write<Schedule>)
    requires Continues(h)
    ensures Continues(h + [w]) <==> Succeeds(Current(h, w.key), w.value, w.key)
  {
    hide Succeeds, Current;
    var t := h + [w];
    forall i: nat | i < |h|
      ensures ContinuesAt(t, i)
    {
      assert ContinuesAt(h, i) && t[..i] == h[..i] && t[i] == h[i];
    }
    assert t[..|h|] == h && t[|h|] == w;
    assert ContinuesAt(t, |h|) <==> Succeeds(Current(h, w.key), w.value, w.key);
  }

  lemma CurrentAppend(h: History, w: Write<Schedule>, key: string)
    ensures Current(h + [w], key) == if w.key == key then Some(w.value) else Current(h, key)
  {
    LastRevisionAppend(h, w, key);
  }

  // ---------- what every step keeps ----------

  predicate Carries(h: History, key: string, revision: nat, next: Schedule) {
    0 < revision <= |h| && h[revision - 1].key == key && Succeeds(Some(h[revision - 1].value), next, key)
  }

  predicate PhaseOk(h: History, phase: Phase) {
    match phase
    case Ticking(key, revision, next) => Carries(h, key, revision, next) && next.writer.ByDaemon?
    case TurningOff(key, revision, next) => Carries(h, key, revision, next) && next.writer.ByCommand?
    case Setting(key, base, next) => Succeeds(base, next, key) && next.writer.ByCommand?
    case Claimed(key, revision) => 0 < revision <= |h| && IsTick(h[revision - 1], key)
    case Done => true
  }

  ghost predicate Inv(s: Sys) {
    && Continues(s.h)
    && (forall p :: p in s.procs ==> PhaseOk(s.h, s.procs[p]))
    && (forall p, q :: p in s.procs && q in s.procs && p != q && s.procs[p].Claimed? && s.procs[q].Claimed? ==>
          s.procs[p].revision != s.procs[q].revision)
  }

  lemma CurrentNamed(h: History, key: string)
    requires Continues(h)
    ensures Current(h, key).Some? <==> LastRevision(h, key) > 0
    ensures Current(h, key).Some? ==> Current(h, key).value.name == key
    ensures Lookup(h, key) == if Current(h, key).None? then Missing
                              else Found(KeyValue.Entry(Current(h, key).value, LastRevision(h, key)))
    ensures Current(h, key).Some? ==>
      h[LastRevision(h, key) - 1].key == key && h[LastRevision(h, key) - 1].value == Current(h, key).value
  {
    hide ATick, Standing;
    var rev := LastRevision(h, key);
    if rev > 0 {
      assert ContinuesAt(h, rev - 1);
    }
  }

  lemma ReadsOk(h: History, key: string, now: int, everyMs: int, writeItem: string, value: string)
    requires Continues(h)
    ensures PhaseOk(h, TickRead(h, key, now)) && PhaseOk(h, OffRead(h, key))
    ensures PhaseOk(h, SetRead(h, key, everyMs, writeItem, value))
    ensures !TickRead(h, key, now).Claimed? && !OffRead(h, key).Claimed?
  {
    hide Continues, LastRevision, Lookup, Current;
    CurrentNamed(h, key);
  }

  lemma StartKeepsInv(s: Sys, p: nat, phase: Phase)
    requires Inv(s) && PhaseOk(s.h, phase) && !phase.Claimed?
    ensures Inv(Start(s, p, phase))
  {
    hide Continues, PhaseOk;
  }

  lemma PhaseStays(h: History, t: History, phase: Phase)
    requires PhaseOk(h, phase) && h <= t
    ensures PhaseOk(t, phase)
  {
    hide Succeeds;
  }

  /** The write that lands continues the current version: compare-and-set makes the version read the
      current one, and a fresh `set` keeps the standing. */
  lemma FinishOk(h: History, phase: Phase, link: Link)
    requires Continues(h) && PhaseOk(h, phase)
    requires phase.Setting? && link != Dropped ==> Standing(Current(h, phase.key)) == Standing(phase.base)
    ensures var (t, next) := Finish(h, phase, link);
      && Continues(t) && PhaseOk(t, next) && h <= t
      && (next.Claimed? && !phase.Claimed? ==> next.revision == |t| == |h| + 1)
  {
    hide Continues, ATick, LastRevision, Lookup, Current;
    match phase
    case Ticking(key, revision, next) =>
      CurrentNamed(h, key);
      ContinuesAppend(h, Write(key, next));
    case TurningOff(key, revision, next) =>
      CurrentNamed(h, key);
      ContinuesAppend(h, Write(key, next));
    case Setting(key, base, next) => ContinuesAppend(h, Write(key, next));
    case _ =>
  }

  lemma EndKeepsInv(s: Sys, p: nat, link: Link)
    requires Inv(s) && p in s.procs && FreshEnd(s, End(p, link))
    ensures Inv(Do(s, End(p, link)))
  {
    hide Continues, PhaseOk, Current, Finish;
    FinishOk(s.h, s.procs[p], link);
    var (h, next) := Finish(s.h, s.procs[p], link);
    forall q | q in s.procs && q != p
      ensures PhaseOk(h, s.procs[q])
      ensures s.procs[q].Claimed? ==> s.procs[q].revision <= |s.h|
    {
      PhaseStays(s.h, h, s.procs[q]);
      ClaimedBound(s.h, s.procs[q]);
    }
    Unchanged(s.h, s.procs[p], link);
  }

  lemma ClaimedBound(h: History, phase: Phase)
    requires PhaseOk(h, phase)
    ensures phase.Claimed? ==> phase.revision <= |h|
  {
  }

  lemma Unchanged(h: History, phase: Phase, link: Link)
    ensures phase.Claimed? || phase.Done? ==> Finish(h, phase, link) == (h, phase)
  {
  }

  lemma DoKeepsInv(s: Sys, e: Event)
    requires Inv(s) && FreshEnd(s, e)
    ensures Inv(Do(s, e))
  {
    hide PhaseOk, Continues, TickRead, OffRead, SetRead, Finish, FreshEnd, Start;
    match e
    case StartTick(p, key, now) =>
      ReadsOk(s.h, key, now, 0, "", "");
      StartKeepsInv(s, p, TickRead(s.h, key, now));
    case StartOff(p, key) =>
      ReadsOk(s.h, key, 0, 0, "", "");
      StartKeepsInv(s, p, OffRead(s.h, key));
    case StartSet(p, key, everyMs, writeItem, value) =>
      ReadsOk(s.h, key, 0, everyMs, writeItem, value);
      SetReadSets(s.h, key, everyMs, writeItem, value);
      StartKeepsInv(s, p, SetRead(s.h, key, everyMs, writeItem, value));
    case End(p, link) =>
      if p in s.procs {
        EndKeepsInv(s, p, link);
      }
  }

  lemma SetReadSets(h: History, key: string, everyMs: int, writeItem: string, value: string)
    ensures SetRead(h, key, everyMs, writeItem, value).Setting?
  {
  }

  lemma {:induction false} ExecKeepsInv(events: seq<Event>)
    requires SetsAreFresh(events)
    ensures Inv(Exec(events))
  {
    hide Do, FreshEnd, Inv;
    if events == [] {
      StartInv();
    } else {
      var front := events[..|events| - 1];
      assert FreshEnd(Exec(front), events[|events| - 1]);
      forall n | 0 <= n < |front|
        ensures front[..n] == events[..n] && front[n] == events[n]
      {
      }
      ExecKeepsInv(front);
      DoKeepsInv(Exec(front), events[|events| - 1]);
    }
  }

  lemma StartInv()
    ensures Inv(START)
  {
  }

  // ---------- stale sets break the numbering ----------

  lemma StepGrows(s: Sys, e: Event)
    ensures s.h <= Do(s, e).h
  {
    hide TickRead, OffRead, SetRead, LastRevision;
  }

  lemma PhaseAt(s: Sys, p: nat)
    requires Inv(s) && p in s.procs
    ensures PhaseOk(s.h, s.procs[p])
  {
    hide PhaseOk, Continues;
  }

  /** A step after which the history still continues writes no stale `set`. */
  lemma ContinuingIsFresh(s: Sys, e: Event)
    requires Inv(s) && Continues(Do(s, e).h)
    ensures FreshEnd(s, e)
  {
    hide Inv, Continues, Current, Standing, ATick;
    if e.End? && e.link != Dropped && e.p in s.procs && s.procs[e.p].Setting? {
      PhaseAt(s, e.p);
      InvContinues(s);
      ContinuesAppend(s.h, Write(s.procs[e.p].key, s.procs[e.p].next));
    }
  }

  lemma InvContinues(s: Sys)
    requires Inv(s)
    ensures Continues(s.h)
  {
    hide Continues;
  }

  lemma FreshLast(events: seq<Event>)
    requires events != []
    ensures var front := events[..|events| - 1];
      SetsAreFresh(events) <==> SetsAreFresh(front) && FreshEnd(Exec(front), events[|events| - 1])
  {
    hide Exec, FreshEnd;
    var front := events[..|events| - 1];
    forall n | 0 <= n < |front|
      ensures front[..n] == events[..n] && front[n] == events[n]
    {
    }
    assert FreshEnd(Exec(events[..|front|]), events[|front|]) <==> FreshEnd(Exec(front), events[|events| - 1]);
    if SetsAreFresh(events) {
      forall n | 0 <= n < |front|
        ensures FreshEnd(Exec(front[..n]), front[n])
      {
        assert FreshEnd(Exec(events[..n]), events[n]);
      }
    } else {
      var n :| 0 <= n < |events| && !FreshEnd(Exec(events[..n]), events[n]);
      assert n < |front| ==> !FreshEnd(Exec(front[..n]), front[n]);
    }
  }

  /** In every run the versions of every schedule continue each other if and only if no `set` whose
      write lands is stale. */
  lemma {:induction false} ContinuesExactly(events: seq<Event>)
    ensures Continues(Exec(events).h) <==> SetsAreFresh(events)
  {
    hide Do, Continues, SetsAreFresh, FreshEnd;
    if events == [] {
      StartInv();
      NoneStale();
    } else {
      var front, last := events[..|events| - 1], events[|events| - 1];
      var s := Exec(front);
      ContinuesExactly(front);
      FreshLast(events);
      if SetsAreFresh(front) {
        ExecKeepsInv(front);
        if FreshEnd(s, last) {
          DoKeepsInv(s, last);
        } else if Continues(Do(s, last).h) {
          ContinuingIsFresh(s, last);
        }
      } else {
        StepGrows(s, last);
        assert Do(s, last).h[..|s.h|] == s.h;
        if Continues(Do(s, last).h) {
          ContinuesFront(Do(s, last).h, |s.h|);
        }
      }
    }
  }

  lemma NoneStale()
    ensures SetsAreFresh([])
  {
  }

  // ---------- what the numbers mean ----------

  predicate IsTick(w: Write<Schedule>, key: string) {
    w.key == key && w.value.writer.ByDaemon?
  }

  function TickCount(h: History, key: string): nat {
    if h == [] then 0 else TickCount(h[..|h| - 1], key) + if IsTick(h[|h| - 1], key) then 1 else 0
  }

  /** One write, seen from revision `m - 1`. */
  lemma VersionAt(h: History, m: nat, key: string)
    requires Continues(h) && 0 < m <= |h|
    ensures Succeeds(Current(h[..m - 1], h[m - 1].key), h[m - 1].value, h[m - 1].key)
    ensures Current(h[..m], key) == if h[m - 1].key == key then Some(h[m - 1].value) else Current(h[..m - 1], key)
    ensures TickCount(h[..m], key) == TickCount(h[..m - 1], key) + if IsTick(h[m - 1], key) then 1 else 0
  {
    hide Succeeds, Current;
    assert ContinuesAt(h, m - 1);
    assert h[..m] == h[..m - 1] + [h[m - 1]];
    CurrentAppend(h[..m - 1], h[m - 1], key);
    assert h[..m][..m - 1] == h[..m - 1];
  }

  lemma NoVersion(key: string)
    ensures Current([], key).None?
  {
  }

  /** The number on the current version is how many ticks there have been. */
  lemma {:induction false} NumberCountsTicks(h: History, m: nat, key: string)
    requires Continues(h) && m <= |h|
    ensures Standing(Current(h[..m], key)).0 == TickCount(h[..m], key)
  {
    hide Continues, Current, TickCount;
    if m > 0 {
      VersionAt(h, m, key);
      NumberCountsTicks(h, m - 1, key);
    } else {
      NoVersion(key);
      assert h[..0] == [] && TickCount([], key) == 0 by {
        NoTicks(key);
      }
    }
  }

  lemma NoTicks(key: string)
    ensures TickCount([], key) == 0
  {
  }

  lemma {:induction false} CountGrows(h: History, key: string, m: nat, n: nat)
    requires m <= n <= |h|
    ensures TickCount(h[..m], key) <= TickCount(h[..n], key)
    ensures (forall k :: m <= k < n ==> !IsTick(h[k], key)) ==> TickCount(h[..m], key) == TickCount(h[..n], key)
  {
    if m >= n {
    } else {
      CountGrows(h, key, m, n - 1);
      assert h[..n][..n - 1] == h[..n - 1] && h[..n][n - 1] == h[n - 1];
    }
  }

  /** The n-th tick of a schedule carries number n. */
  lemma TickHasItsNumber(h: History, i: nat)
    requires Continues(h) && i < |h| && h[i].value.writer.ByDaemon?
    ensures h[i].value.sequence == TickCount(h[..i], h[i].key) + 1 == TickCount(h[..i + 1], h[i].key)
  {
    hide Continues, Current, TickCount;
    NumberCountsTicks(h, i, h[i].key);
    VersionAt(h, i + 1, h[i].key);
  }

  /** Ticks of one schedule are numbered consecutively, so no number is used twice. */
  lemma TicksAreConsecutive(h: History, i: nat, j: nat)
    requires Continues(h) && i < j < |h| && h[i].key == h[j].key
    requires h[i].value.writer.ByDaemon? && h[j].value.writer.ByDaemon?
    ensures h[i].value.sequence < h[j].value.sequence
    ensures (forall k :: i < k < j ==> !IsTick(h[k], h[i].key)) ==> h[j].value.sequence == h[i].value.sequence + 1
  {
    hide Continues, TickCount;
    TickHasItsNumber(h, i);
    TickHasItsNumber(h, j);
    CountGrows(h, h[i].key, i + 1, j);
  }

  /** After a tick the recorded time is never earlier. */
  lemma {:induction false} TimeMovesForward(h: History, i: nat, m: nat)
    requires Continues(h) && i < m <= |h| && h[i].value.writer.ByDaemon?
    ensures var last := Standing(Current(h[..m], h[i].key)).1;
      h[i].value.lastTick.At? && last.At? && h[i].value.lastTick.ns <= last.ns
  {
    hide Continues, Current, TickCount;
    VersionAt(h, m, h[i].key);
    if i >= m - 1 {
    } else {
      TimeMovesForward(h, i, m - 1);
    }
  }

  /** Recorded tick times are at least the schedule's interval apart, whatever the daemons' clocks. */
  lemma TicksAreSpaced(h: History, i: nat, j: nat)
    requires Continues(h) && i < j < |h| && h[i].key == h[j].key
    requires h[i].value.writer.ByDaemon? && h[j].value.writer.ByDaemon?
    ensures h[i].value.lastTick.At? && h[j].value.lastTick.At? && h[j].value.everyMs >= MIN_EVERY_MS
    ensures h[i].value.lastTick.ns + h[j].value.everyMs * NANOS_PER_MS <= h[j].value.lastTick.ns
  {
    hide Continues, Current, TickCount;
    TimeMovesForward(h, i, j);
    VersionAt(h, j + 1, h[j].key);
  }

  lemma {:induction false} StaysOff(h: History, i: nat, m: nat)
    requires Continues(h) && i < m <= |h| && !h[i].value.active
    requires forall k :: i < k < m && h[k].key == h[i].key ==> !(h[k].value.active && h[k].value.writer.ByCommand?)
    ensures Current(h[..m], h[i].key).Some? && !Current(h[..m], h[i].key).value.active
  {
    hide Continues, Current, TickCount;
    VersionAt(h, m, h[i].key);
    if i >= m - 1 {
    } else {
      StaysOff(h, i, m - 1);
    }
  }

  /** Once a schedule is off, no tick is claimed until it is set again. */
  lemma NoTickAfterOff(h: History, i: nat, j: nat)
    requires Continues(h) && i < j < |h| && h[i].key == h[j].key && !h[i].value.active
    requires forall k :: i < k < j && h[k].key == h[i].key ==> !(h[k].value.active && h[k].value.writer.ByCommand?)
    ensures !h[j].value.writer.ByDaemon?
  {
    hide Continues, Current, TickCount;
    StaysOff(h, i, j);
    VersionAt(h, j + 1, h[j].key);
  }

  // ---------- the results ----------

  /** In every run whose sets are fresh, the history continues, so all of the above holds of it; and
      two daemons that both heard of a claim on one schedule hold different numbers. */
  lemma OneClaimerPerNumber(events: seq<Event>, p: nat, q: nat)
    requires SetsAreFresh(events)
    ensures var s := Exec(events);
      && Continues(s.h)
      && (p in s.procs && q in s.procs && p != q && s.procs[p].Claimed? && s.procs[q].Claimed?
          && s.procs[p].key == s.procs[q].key
          ==> 0 < s.procs[p].revision <= |s.h| && 0 < s.procs[q].revision <= |s.h|
              && s.h[s.procs[p].revision - 1].value.sequence != s.h[s.procs[q].revision - 1].value.sequence)
  {
    hide Exec, SetsAreFresh, Continues;
    ExecKeepsInv(events);
    var s := Exec(events);
    if p in s.procs && q in s.procs && p != q && s.procs[p].Claimed? && s.procs[q].Claimed?
       && s.procs[p].key == s.procs[q].key {
      assert PhaseOk(s.h, s.procs[p]) && PhaseOk(s.h, s.procs[q]);
      var i, j := s.procs[p].revision - 1, s.procs[q].revision - 1;
      if i < j {
        TicksAreConsecutive(s.h, i, j);
      } else {
        TicksAreConsecutive(s.h, j, i);
      }
    }
  }

  /** A `set` breaks the numbering exactly when a tick was written since its read, and then the next
      tick reuses a number already taken. */
  lemma StaleSetRepeatsNumber(h0: History, h: History, key: string, everyMs: int, writeItem: string, value: string)
    requires Continues(h) && h0 <= h
    ensures var next := SetTo(Current(h0, key), key, everyMs, writeItem, value);
      && (Continues(h + [Write(key, next)]) <==> TickCount(h0, key) == TickCount(h, key))
      && (TickCount(h0, key) < TickCount(h, key) ==>
            exists i :: 0 <= i < |h| && IsTick(h[i], key) && h[i].value.sequence == next.sequence + 1)
  {
    hide Continues, Current, TickCount;
    var next := SetTo(Current(h0, key), key, everyMs, writeItem, value);
    assert h[..|h0|] == h0 && h[..|h|] == h;
    ContinuesFront(h, |h0|);
    SetKeepsStanding(h0, key, everyMs, writeItem, value);
    NumberCountsTicks(h, |h0|, key);
    NumberCountsTicks(h, |h|, key);
    ContinuesAppend(h, Write(key, next));
    CountGrows(h, key, |h0|, |h|);
    if TickCount(h0, key) < TickCount(h, key) {
      var i := FirstTickAfter(h, key, |h0|, |h|);
      TickHasItsNumber(h, i);
    } else {
      StandingKept(h, key, |h0|, |h|);
    }
  }

  lemma SetKeepsStanding(h: History, key: string, everyMs: int, writeItem: string, value: string)
    requires Continues(h)
    ensures var next := SetTo(Current(h, key), key, everyMs, writeItem, value);
      next.name == key && next.writer.ByCommand? && Standing(Some(next)) == Standing(Current(h, key))
  {
    hide Continues, Current;
    CurrentNamed(h, key);
  }

  /** The first tick at or after revision `m`. */
  lemma {:induction false} FirstTickAfter(h: History, key: string, m: nat, n: nat) returns (i: nat)
    requires m <= n <= |h| && TickCount(h[..m], key) < TickCount(h[..n], key)
    ensures m <= i < n && IsTick(h[i], key) && TickCount(h[..i], key) == TickCount(h[..m], key)
  {
    assert h[..n][..n - 1] == h[..n - 1] && h[..n][n - 1] == h[n - 1];
    CountGrows(h, key, m, n - 1);
    if TickCount(h[..m], key) < TickCount(h[..n - 1], key) {
      i := FirstTickAfter(h, key, m, n - 1);
    } else {
      i := n - 1;
    }
  }

  lemma {:induction false} StandingKept(h: History, key: string, m: nat, n: nat)
    requires Continues(h) && m <= n <= |h| && TickCount(h[..m], key) == TickCount(h[..n], key)
    ensures Standing(Current(h[..m], key)) == Standing(Current(h[..n], key))
  {
    hide Continues, Current, TickCount, ATick;
    if m >= n {
    } else {
      CountGrows(h, key, m, n - 1);
      VersionAt(h, n, key);
      StandingKept(h, key, m, n - 1);
    }
  }

  // ---------- left alone ----------

  /** A version a daemon may tick at `now`: named as its key, active, with an interval of at least 100 ms and
      an item to write, and never ticked or ticked at least the interval ago. */
  predicate TickableAt(rec: Schedule, key: string, now: int) {
    && rec.name == key && rec.active && rec.everyMs >= 100 && rec.writeItem != ""
    && (rec.lastTick.Never? || (rec.lastTick.At? && rec.lastTick.ns + rec.everyMs * 1_000_000 <= now))
  }

  function TickWrite(rec: Schedule, key: string, number: int, now: int): Write<Schedule> {
    Write(key, Schedule(rec.name, rec.active, rec.everyMs, rec.writeItem, rec.value, number, At(now), ByDaemon))
  }

  /** A daemon left alone claims exactly when the current version may be ticked, and then writes the next
      number and its time, and nothing else changes. */
  lemma TicksWhenDue(h: History, key: string, now: int)
    ensures var rev := LastRevision(h, key);
      var phase := TickRead(h, key, now);
      && (phase.Ticking? <==> rev > 0 && TickableAt(h[rev - 1].value, key, now))
      && Finish(h, phase, Delivered)
         == if phase.Ticking? then
              (h + [TickWrite(h[rev - 1].value, key, h[rev - 1].value.sequence + 1, now)], Claimed(key, |h| + 1))
            else (h, Done)
  {
    hide LastRevision;
  }

  /** `set` left alone makes the schedule active with the given interval, item and value; number and last
      tick are those of the version it replaces, if that has its name. */
  lemma SetsAlone(h: History, key: string, everyMs: int, writeItem: string, value: string)
    ensures var rev := LastRevision(h, key);
      var kept := rev > 0 && h[rev - 1].value.name == key;
      Finish(h, SetRead(h, key, everyMs, writeItem, value), Delivered)
      == (h + [Write(key, Schedule(key, true, everyMs, writeItem, value, if kept then h[rev - 1].value.sequence else 0,
                                   if kept then h[rev - 1].value.lastTick else Never, ByCommand))], Done)
  {
    hide LastRevision;
  }

  /** `off` left alone makes the current version inactive and changes nothing else of it. */
  lemma OffAlone(h: History, key: string)
    ensures var rev := LastRevision(h, key);
      Finish(h, OffRead(h, key), Delivered)
      == if rev > 0 && h[rev - 1].value.name == key then
           var rec := h[rev - 1].value;
           (h + [Write(key, Schedule(rec.name, false, rec.everyMs, rec.writeItem, rec.value, rec.sequence, rec.lastTick,
                                     ByCommand))], Done)
         else (h, Done)
  {
    hide LastRevision;
  }

  /** One daemon looking at the schedule at each of the times. */
  function Polled(h: History, key: string, times: seq<int>): History {
    if times == [] then h
    else
      var before := Polled(h, key, times[..|times| - 1]);
      Finish(before, TickRead(before, key, times[|times| - 1]), Delivered).0
  }

  predicate FarApart(times: seq<int>, gap: int) {
    forall i :: 0 <= i < |times| - 1 ==> times[i] + gap <= times[i + 1]
  }

  function TickWrites(rec: Schedule, key: string, times: seq<int>): History {
    seq(|times|, i requires 0 <= i < |times| => TickWrite(rec, key, rec.sequence + i + 1, times[i]))
  }

  /** A schedule that may be ticked, looked at in intervals no shorter than its own, ticks every time, with
      consecutive numbers and the times it was looked at. */
  lemma {:induction false} TicksEveryTime(h: History, key: string, times: seq<int>)
    requires LastRevision(h, key) > 0 && times != []
    requires var rec := h[LastRevision(h, key) - 1].value;
      TickableAt(rec, key, times[0]) && FarApart(times, rec.everyMs * 1_000_000)
    ensures Polled(h, key, times) == h + TickWrites(h[LastRevision(h, key) - 1].value, key, times)
    decreases |times|
  {
    hide LastRevision, TickRead, Finish;
    var front, now := times[..|times| - 1], times[|times| - 1];
    var rec := h[LastRevision(h, key) - 1].value;
    var before := Polled(h, key, front);
    TicksWhenDue(before, key, now);
    if front == [] {
      assert TickWrites(rec, key, times) == [TickWrite(rec, key, rec.sequence + 1, now)];
    } else {
      assert front[0] == times[0];
      TicksEveryTime(h, key, front);
      var all := TickWrites(rec, key, front);
      LastOfTicks(h, rec, key, front);
      assert TickWrites(rec, key, times) == all + [TickWrite(rec, key, rec.sequence + |times|, now)];
      assert times[|front| - 1] + rec.everyMs * 1_000_000 <= times[|front|];
      assert h + all + [TickWrite(rec, key, rec.sequence + |times|, now)]
             == h + (all + [TickWrite(rec, key, rec.sequence + |times|, now)]);
    }
  }

  lemma LastOfTicks(h: History, rec: Schedule, key: string, times: seq<int>)
    requires times != []
    ensures var t := h + TickWrites(rec, key, times);
      && LastRevision(t, key) == |t|
      && t[|t| - 1] == TickWrite(rec, key, rec.sequence + |times|, times[|times| - 1])
  {
    var t := h + TickWrites(rec, key, times);
    assert t[|t| - 1] == TickWrites(rec, key, times)[|times| - 1];
  }
}
