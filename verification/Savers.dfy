/** Any number of savers on one projection bucket: each save is a read and, later, a put. */
module Savers {
  import opened KeyValue
  import opened Convergence

  type History = seq<Write<Message>>

  /** A saver whose read, at revision `readAt`, found nothing as new; or one that has ended. */
  datatype Saver = Pending(m: Message, readAt: nat) | Done

  datatype Sys = Sys(h: History, savers: map<nat, Saver>)

  const START := Sys([], map[])

  datatype Event = Read(p: nat, m: Message) | Put(p: nat, link: Link)

  function KeyOf(m: Message): string {
    if m.State? then ProjectionKey(m.projectionID) else ""
  }

  function Do(s: Sys, e: Event): Sys {
    match e
    case Read(p, m) =>
      if p in s.savers || !m.State? then s
      else s.(savers := s.savers[p := if MaySave(s.h, m) then Pending(m, |s.h|) else Done])
    case Put(p, link) =>
      if !Landing(s, p) then s
      else
        var m := s.savers[p].m;
        Sys(if link == Dropped then s.h else s.h + [Write(KeyOf(m), m)], s.savers[p := Done])
  }

  predicate Landing(s: Sys, p: nat) {
    p in s.savers && s.savers[p].Pending?
  }

  function Exec(events: seq<Event>): Sys {
    if events == [] then START else Do(Exec(events[..|events| - 1]), events[|events| - 1])
  }

  /** Read and put with nothing in between are the store's method. */
  lemma SoloSave(s: Sys, p: nat, m: Message, link: Link)
    requires p !in s.savers && m.State?
    ensures Do(Do(s, Read(p, m)), Put(p, link)).h
            == s.h + if MaySave(s.h, m) && link != Dropped then [Write(KeyOf(m), m)] else []
  {
    hide MaySave;
    assert s.h + [] == s.h;
  }

  // ---------- stored numbers ----------

  /** The number stored under a key, if any. */
  function StoredNumber(h: History, key: string): (bool, int) {
    match Lookup(h, key)
    case Missing => (false, 0)
    case Found(e) => (true, Number(e.value))
  }

  /** What a key stores never gets a lower number. */
  ghost predicate NeverDecreases(h: History) {
    forall n: nat, m: nat, key :: n <= m <= |h| ==> Kept(h, n, m, key)
  }

  predicate Kept(h: History, n: nat, m: nat, key: string)
    requires n <= m <= |h|
  {
    StoredNumber(h[..n], key).0 ==>
      StoredNumber(h[..m], key).0 && StoredNumber(h[..n], key).1 <= StoredNumber(h[..m], key).1
  }

  /** The same said of the writes: later ones to a key have no lower number. */
  ghost predicate Ascends(h: History) {
    forall i: nat, j: nat :: i < j < |h| ==> Ordered(h, i, j)
  }

  predicate Ordered(h: History, i: nat, j: nat)
    requires i < j < |h|
  {
    h[i].key == h[j].key ==> Number(h[i].value) <= Number(h[j].value)
  }

  lemma LastWrite(h: History, i: nat, n: nat)
    requires i < n <= |h|
    ensures var rev := LastRevision(h[..n], h[i].key);
      i < rev <= n && h[rev - 1].key == h[i].key && StoredNumber(h[..n], h[i].key) == (true, Number(h[rev - 1].value))
  {
    hide LastRevision;
    assert h[..n][i] == h[i];
    var rev := LastRevision(h[..n], h[i].key);
    assert h[..n][rev - 1] == h[rev - 1];
  }

  lemma JustWritten(h: History, i: nat)
    requires i < |h|
    ensures StoredNumber(h[..i + 1], h[i].key) == (true, Number(h[i].value))
  {
    LastWrite(h, i, i + 1);
  }

  lemma StoredBy(h: History, n: nat, key: string)
    requires n <= |h| && StoredNumber(h[..n], key).0
    ensures var rev := LastRevision(h[..n], key);
      0 < rev <= n && h[rev - 1].key == key && StoredNumber(h[..n], key).1 == Number(h[rev - 1].value)
  {
    hide LastRevision;
    var rev := LastRevision(h[..n], key);
    assert rev > 0 ==> h[..n][rev - 1] == h[rev - 1];
  }

  lemma AscendsMeans(h: History)
    ensures Ascends(h) <==> NeverDecreases(h)
  {
    hide StoredNumber, LastRevision;
    if Ascends(h) {
      forall n: nat, m: nat, key | n <= m <= |h|
        ensures Kept(h, n, m, key)
      {
        if StoredNumber(h[..n], key).0 {
          StoredBy(h, n, key);
          var i := LastRevision(h[..n], key) - 1;
          LastWrite(h, i, m);
          var j := LastRevision(h[..m], key) - 1;
          assert i < j ==> Ordered(h, i, j);
        }
      }
    } else {
      var i: nat, j: nat :| i < j < |h| && !Ordered(h, i, j);
      JustWritten(h, i);
      JustWritten(h, j);
      assert !Kept(h, i + 1, j + 1, h[i].key);
    }
  }

  // ---------- overtaking ----------

  /** The put of `p` lands although, since its read, a higher number was stored under its key. */
  ghost predicate Overtaken(s: Sys, e: Event) {
    e.Put? && e.link != Dropped && Landing(s, e.p)
    && exists i: nat :: s.savers[e.p].readAt <= i < |s.h| && Passes(s.h, i, s.savers[e.p].m)
  }

  predicate Passes(h: History, i: nat, m: Message)
    requires i < |h|
  {
    h[i].key == KeyOf(m) && Number(h[i].value) > Number(m)
  }

  ghost predicate NoOvertaking(events: seq<Event>) {
    forall n: nat :: n < |events| ==> !OvertakenAt(events, n)
  }

  ghost predicate OvertakenAt(events: seq<Event>, n: nat)
    requires n < |events|
  {
    Overtaken(Exec(events[..n]), events[n])
  }

  ghost predicate Inv(s: Sys) {
    forall p :: Landing(s, p) ==> SaverOk(s.h, s.savers[p])
  }

  predicate SaverOk(h: History, saver: Saver) {
    saver.Pending? ==> saver.m.State? && saver.readAt <= |h| && MaySave(h[..saver.readAt], saver.m)
  }

  lemma DoKeepsInv(s: Sys, e: Event)
    requires Inv(s)
    ensures Inv(Do(s, e)) && s.h <= Do(s, e).h
  {
    hide MaySave;
    var t := Do(s, e);
    assert s.h[..|s.h|] == s.h;
    forall p | Landing(t, p)
      ensures SaverOk(t.h, t.savers[p])
    {
      if Landing(s, p) {
        assert SaverOk(s.h, s.savers[p]);
        assert t.h[..s.savers[p].readAt] == s.h[..s.savers[p].readAt];
      }
    }
  }

  lemma {:induction false} ExecKeepsInv(events: seq<Event>)
    ensures Inv(Exec(events))
  {
    hide Do, Inv;
    if events == [] {
      assert Inv(START) by {
        NothingPending();
      }
    } else {
      ExecKeepsInv(events[..|events| - 1]);
      DoKeepsInv(Exec(events[..|events| - 1]), events[|events| - 1]);
    }
  }

  lemma NothingPending()
    ensures Inv(START)
  {
  }

  lemma AscendsFront(h: History, n: nat)
    requires Ascends(h) && n <= |h|
    ensures Ascends(h[..n])
  {
    var t := h[..n];
    forall i: nat, j: nat | i < j < n
      ensures Ordered(t, i, j)
    {
      assert Ordered(h, i, j);
    }
  }

  /** Before its read every number under the key was below the saver's. */
  lemma BelowAtRead(h: History, m: Message, n: nat, i: nat)
    requires Ascends(h) && m.State? && i < n <= |h| && MaySave(h[..n], m) && h[i].key == KeyOf(m)
    ensures Number(h[i].value) < Number(m)
  {
    LastWrite(h, i, n);
    var j := LastRevision(h[..n], h[i].key) - 1;
    assert i < j ==> Ordered(h, i, j);
    hide Ascends, LastRevision;
  }

  lemma PutAscends(h: History, m: Message, n: nat)
    requires Ascends(h) && m.State? && n <= |h| && MaySave(h[..n], m)
    ensures Ascends(h + [Write(KeyOf(m), m)]) <==> !exists i: nat :: n <= i < |h| && Passes(h, i, m)
  {
    hide MaySave, ProjectionKey, Number;
    var t := h + [Write(KeyOf(m), m)];
    if i: nat :| n <= i < |h| && Passes(h, i, m) {
      assert !Ordered(t, i, |h|);
    } else {
      forall i: nat, j: nat | i < j < |t|
        ensures Ordered(t, i, j)
      {
        if j < |h| {
          assert Ordered(h, i, j);
        } else if i < n && h[i].key == KeyOf(m) {
          BelowAtRead(h, m, n, i);
        } else if h[i].key == KeyOf(m) {
          assert !Passes(h, i, m);
        }
      }
    }
  }

  lemma StepAscends(s: Sys, e: Event)
    requires Inv(s)
    ensures Ascends(Do(s, e).h) <==> Ascends(s.h) && !Overtaken(s, e)
  {
    hide MaySave, Ascends, Passes;
    var t := Do(s, e);
    if t.h != s.h {
      var saver := s.savers[e.p];
      assert SaverOk(s.h, saver) && t.h[..|s.h|] == s.h;
      if Ascends(s.h) {
        PutAscends(s.h, saver.m, saver.readAt);
      } else if Ascends(t.h) {
        AscendsFront(t.h, |s.h|);
      }
    }
  }

  /** In every run the stored number of a projection never decreases if and only if no put lands after
      a higher number was stored for the same projection since its own read. */
  lemma GoesForwardExactly(events: seq<Event>)
    ensures NeverDecreases(Exec(events).h) <==> NoOvertaking(events)
  {
    hide NeverDecreases, Ascends, Exec;
    AscendsExactly(events);
    AscendsMeans(Exec(events).h);
  }

  lemma {:induction false} AscendsExactly(events: seq<Event>)
    ensures Ascends(Exec(events).h) <==> NoOvertaking(events)
  {
    hide Do, Overtaken, Inv;
    if events == [] {
    } else {
      var front, last := events[..|events| - 1], events[|events| - 1];
      AscendsExactly(front);
      ExecKeepsInv(front);
      StepAscends(Exec(front), last);
      hide Ascends;
      NoOvertakingLast(events);
    }
  }

  lemma NoOvertakingLast(events: seq<Event>)
    requires events != []
    ensures var front := events[..|events| - 1];
      NoOvertaking(events) <==> NoOvertaking(front) && !Overtaken(Exec(front), events[|events| - 1])
  {
    hide Exec, Overtaken;
    var front := events[..|events| - 1];
    forall n: nat | n < |front|
      ensures OvertakenAt(front, n) <==> OvertakenAt(events, n)
    {
      assert front[..n] == events[..n];
    }
    assert OvertakenAt(events, |front|) <==> Overtaken(Exec(front), events[|events| - 1]);
  }

  // ---------- numbers that strictly rise ----------

  /** Later writes to a key have a higher number. */
  ghost predicate Rises(h: History) {
    forall i: nat, j: nat :: i < j < |h| ==> Higher(h, i, j)
  }

  predicate Higher(h: History, i: nat, j: nat)
    requires i < j < |h|
  {
    h[i].key == h[j].key ==> Number(h[i].value) < Number(h[j].value)
  }

  /** A put that lands would still pass its check now. */
  predicate FreshPut(s: Sys, e: Event) {
    e.Put? && e.link != Dropped && Landing(s, e.p) && s.savers[e.p].m.State? ==> MaySave(s.h, s.savers[e.p].m)
  }

  ghost predicate PutsAreFresh(events: seq<Event>) {
    forall n: nat :: n < |events| ==> FreshAt(events, n)
  }

  predicate FreshAt(events: seq<Event>, n: nat)
    requires n < |events|
  {
    FreshPut(Exec(events[..n]), events[n])
  }

  lemma PutRises(h: History, m: Message)
    requires Rises(h) && m.State?
    ensures Rises(h + [Write(KeyOf(m), m)]) <==> MaySave(h, m)
  {
    hide LastRevision, ProjectionKey;
    var t, key := h + [Write(KeyOf(m), m)], KeyOf(m);
    var rev := LastRevision(h, key);
    if rev > 0 && Number(h[rev - 1].value) >= Number(m) {
      assert !Higher(t, rev - 1, |h|);
    } else {
      forall i: nat, j: nat | i < j < |t|
        ensures Higher(t, i, j)
      {
        if j < |h| {
          assert Higher(h, i, j);
        } else if i + 1 < rev {
          assert Higher(h, i, rev - 1);
        }
      }
    }
  }

  lemma RisesFront(h: History, n: nat)
    requires Rises(h) && n <= |h|
    ensures Rises(h[..n])
  {
    var t := h[..n];
    forall i: nat, j: nat | i < j < n
      ensures Higher(t, i, j)
    {
      assert Higher(h, i, j);
    }
  }

  lemma StepRises(s: Sys, e: Event)
    requires Inv(s)
    ensures Rises(Do(s, e).h) <==> Rises(s.h) && FreshPut(s, e)
  {
    hide MaySave, Rises;
    var t := Do(s, e);
    assert e.Put? && e.link != Dropped && Landing(s, e.p) ==> |t.h| == |s.h| + 1;
    if t.h != s.h {
      var saver := s.savers[e.p];
      assert SaverOk(s.h, saver) && t.h[..|s.h|] == s.h;
      if Rises(s.h) {
        PutRises(s.h, saver.m);
      } else if Rises(t.h) {
        RisesFront(t.h, |s.h|);
      }
    }
  }

  /** In every run each save raises the number it replaces if and only if every put that lands would
      still pass its check at that moment. */
  lemma {:induction false} RisesExactly(events: seq<Event>)
    ensures Rises(Exec(events).h) <==> PutsAreFresh(events)
  {
    hide Do, FreshPut, Inv;
    if events == [] {
    } else {
      var front, last := events[..|events| - 1], events[|events| - 1];
      RisesExactly(front);
      ExecKeepsInv(front);
      StepRises(Exec(front), last);
      hide Rises, Exec;
      forall n: nat | n < |front|
        ensures FreshAt(front, n) <==> FreshAt(events, n)
      {
        assert front[..n] == events[..n];
      }
      assert FreshAt(events, |front|) <==> FreshPut(Exec(front), last);
      ExecNext(front, last);
      assert front + [last] == events;
    }
  }

  lemma ExecNext(events: seq<Event>, last: Event)
    ensures Exec(events + [last]) == Do(Exec(events), last)
  {
    assert (events + [last])[..|events|] == events;
  }

  /** The run that goes back: both read, the higher number is put first. */
  lemma GoesBack(low: Message, high: Message)
    requires low.State? && high.State? && low.projectionID == high.projectionID && low.number < high.number
    ensures var events := [Read(0, low), Read(1, high), Put(1, Delivered), Put(0, Delivered)];
      && Exec(events).h == [Write(KeyOf(high), high), Write(KeyOf(low), low)]
      && !NeverDecreases(Exec(events).h)
  {
    hide Exec, NeverDecreases, ProjectionKey;
    var r0, r1, p1, p0 := Read(0, low), Read(1, high), Put(1, Delivered), Put(0, Delivered);
    ExecStart();
    ExecNext([], r0);
    ExecNext([r0], r1);
    ExecNext([r0, r1], p1);
    ExecNext([r0, r1, p1], p0);
    assert [] + [r0] == [r0] && [r0] + [r1] == [r0, r1] && [r0, r1] + [p1] == [r0, r1, p1];
    assert [r0, r1, p1] + [p0] == [r0, r1, p1, p0];
    var h := Exec([r0, r1, p1, p0]).h;
    assert h == [Write(KeyOf(high), high), Write(KeyOf(low), low)];
    AscendsMeans(h);
    assert !Ordered(h, 0, 1);
  }

  lemma ExecStart()
    ensures Exec([]) == START
  {
  }
}
