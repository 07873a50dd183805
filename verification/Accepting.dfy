/** The ledger over whole sequences of accepts: what its records say, when one is added, and that
    following the replay cursors reads them all. */
module Accepting {
  import opened Records
  import opened Text
  import opened Numbers
  import opened Encoding
  import opened KeyValue
  import opened Ledger
  import opened SourceRouter
  import opened Grants

  /** One call of the ledger, with the fate of its two writes. */
  datatype Attempt = Attempt(act: Activation, lease: Lease, first: Link, second: Link)

  function AfterAll(s: State, attempts: seq<Attempt>): State {
    if attempts == [] then s
    else
      var a := attempts[|attempts| - 1];
      Accept(AfterAll(s, attempts[..|attempts| - 1]), a.act, a.lease, a.first, a.second).0
  }

  // ---------- what a record says ----------

  /** The place a source stands at: its number, 0 where it has none, and its cursor. */
  ghost predicate StandsAt(src: Source, pos: int, cursor: string) {
    || (src.kind == "request_reply" && src.subject != "" && src.requestID != "" && pos == 0 && cursor == src.requestID)
    || (src.kind == "command_acceptance" && src.subject != "" && src.commandID != "" && pos == 0
        && cursor == src.commandID)
    || (src.kind == "subject" && src.pattern != "" && src.observedSubject != "" && src.streamSequence > 0
        && pos == src.streamSequence && cursor == Itoa(src.streamSequence))
    || (src.kind == "subject" && src.pattern != "" && src.observedSubject != "" && src.streamSequence <= 0
        && src.messageID != "" && pos == 0 && cursor == src.messageID)
    || (src.kind == "kv" && src.bucket != "" && src.key != "" && src.revision > 0 && src.resume != ""
        && pos == src.revision && cursor == src.resume)
    || (src.kind == "object" && src.bucket != "" && src.name != "" && src.objectMetaSequence > 0
        && src.watchPosition != "" && pos == src.objectMetaSequence && cursor == src.watchPosition)
    || (src.kind == "stream" && src.stream != "" && src.consumer != "" && src.streamSequence > 0
        && src.consumerSequence > 0 && pos == src.streamSequence
        && cursor
           == src.stream + ":" + src.consumer + ":" + Itoa(src.streamSequence) + ":" + Itoa(src.consumerSequence))
    || (src.kind == "schedule" && src.scheduleID != "" && src.leaderEpoch > 0 && src.tickID != ""
        && src.fencingToken != "" && ClockReads(src.clockID, src.clock, pos)
        && cursor == src.scheduleID + ":" + src.tickID + ":" + src.fencingToken + ":" + Itoa(src.leaderEpoch) + ":"
                     + src.clock)
  }

  /** A clock is its id, a colon, and a positive 64-bit number. */
  ghost predicate ClockReads(id: string, clock: string, pos: int) {
    && id != "" && ':' !in id && pos > 0
    && exists raw: string :: clock == id + ":" + raw && Atoi(raw) == Some(pos)
  }

  lemma {:induction false} CutExactly(s: string, sep: char, a: string, b: string)
    ensures CutAt(s, sep) == Some((a, b)) <==> sep !in a && s == a + [sep] + b
  {
    if s == "" {
    } else if s[0] == sep {
      assert s == [] + [sep] + s[1..];
      assert a != "" ==> (a + [sep] + b)[0] == a[0] && a[0] in a;
      assert a == "" ==> (a + [sep] + b)[1..] == b;
    } else {
      CutExactly(s[1..], sep, if a == "" then a else a[1..], b);
      if a == "" {
        assert (a + [sep] + b)[0] == sep;
      } else {
        assert a == [a[0]] + a[1..];
        assert (a + [sep] + b)[1..] == a[1..] + [sep] + b;
        if CutAt(s, sep) == Some((a, b)) {
          assert CutAt(s[1..], sep) == Some((a[1..], b));
        }
      }
    }
  }

  lemma ClockExactly(id: string, clock: string, pos: int)
    ensures ClockPos(id, clock) == Some(pos) <==> ClockReads(id, clock, pos)
  {
    hide CutAt, Atoi;
    AtoiOfNothing();
    if ClockReads(id, clock, pos) {
      var raw: string :| clock == id + ":" + raw && Atoi(raw) == Some(pos);
      CutExactly(clock, ':', id, raw);
    }
    if ClockPos(id, clock) == Some(pos) {
      var (prefix, raw) := CutAt(clock, ':').value;
      CutExactly(clock, ':', prefix, raw);
      assert clock == id + ":" + raw;
    }
  }

  lemma AtoiOfNothing()
    ensures Atoi("").None?
  {
  }

  lemma PlaceExactly(src: Source, pos: int, cursor: string)
    ensures SourcePosition(src) == Ok((pos, cursor)) <==> StandsAt(src, pos, cursor)
    ensures SourcePosition(src).Err? ==> SourcePosition(src).kind == CursorFailure
  {
    hide ClockPos, ClockReads, Itoa;
    ClockExactly(src.clockID, src.clock, pos);
    if SourcePosition(src).Ok? && src.kind == "schedule" {
      ClockExactly(src.clockID, src.clock, ClockPos(src.clockID, src.clock).value);
    }
  }

  /** The record of an activation: its own ids, source, lease and chain, the place its source stands at,
      and the replay cursor of source and place. */
  ghost predicate Describes(rec: LedgerRecord, act: Activation) {
    && rec.activationID == act.activationID && rec.dedupeKey == act.dedupeKey
    && rec.sourceID == act.sourcePrincipal.sourceID && rec.sourcePrincipalID == act.sourcePrincipal.principalID
    && rec.sourceKind == act.source.kind && rec.sourceLeaseID == act.sourceLease.leaseID
    && rec.chainID == act.chain.chainID && rec.status == Accepted
    && StandsAt(act.source, rec.sourcePosition, rec.sourceCursor)
    && rec.replayCursor == "v1." + KeyEnc(rec.sourceID) + "." + KeyEnc(rec.sourceCursor)
  }

  // ---------- when a record is added ----------

  /** Everything the ledger asks of a new record, but for the outcome of its writes. */
  ghost predicate Enters(s: State, a: Attempt) {
    var who, lease := a.act.sourcePrincipal, a.act.sourceLease;
    && who.sourceID != "" && who.principalID != "" && who.sourceKind == a.act.source.kind != ""
    && lease.leaseStatus == "active" && a.lease.status == "active" && lease.leaseID == a.lease.id != ""
    && a.act.dedupeKey != "" && (forall i :: 0 <= i < |s.accepted| ==> s.accepted[i].dedupeKey != a.act.dedupeKey)
    && (a.act.chain.maxHops > 0 ==> a.act.chain.hop < a.act.chain.maxHops)
    && exists pos, cursor :: StandsAt(a.act.source, pos, cursor) && AheadOf(s, who.sourceID, pos, cursor)
  }

  /** Beyond the last record of its source: by number if both have one, else by another cursor. */
  ghost predicate AheadOf(s: State, source: string, pos: int, cursor: string) {
    source in s.latest ==>
      var last := s.latest[source];
      if last.sourcePosition > 0 && pos > 0 then last.sourcePosition < pos
      else last.sourceCursor == "" || last.sourceCursor != cursor
  }

  lemma EntersExactly(s: State, a: Attempt)
    ensures Enters(s, a) <==>
      && Precheck(a.act, a.lease).None? && FindDedupe(s.accepted, a.act.dedupeKey).None?
      && !HopsExhausted(a.act.chain) && SourcePosition(a.act.source).Ok?
      && (Latest(s, a.act.sourcePrincipal.sourceID).Some? ==>
            !Stale(Latest(s, a.act.sourcePrincipal.sourceID).value,
                   MakeRecord(a.act, SourcePosition(a.act.source).value.0, SourcePosition(a.act.source).value.1)))
  {
    hide SourcePosition, StandsAt, ReplayCursor;
    if SourcePosition(a.act.source).Ok? {
      var (pos, cursor) := SourcePosition(a.act.source).value;
      PlaceExactly(a.act.source, pos, cursor);
      forall p, c | StandsAt(a.act.source, p, c)
        ensures p == pos && c == cursor
      {
        PlaceExactly(a.act.source, p, c);
      }
    } else {
      forall p, c
        ensures !StandsAt(a.act.source, p, c)
      {
        PlaceExactly(a.act.source, p, c);
      }
    }
  }

  /** A call adds a record exactly if the activation may enter and the first write is not dropped; the
      record describes the activation, and becomes its source's last if the second write lands too. */
  lemma AddsExactly(s: State, a: Attempt)
    ensures var t := Accept(s, a.act, a.lease, a.first, a.second).0;
      if Enters(s, a) && a.first != Dropped then
        && |t.accepted| == |s.accepted| + 1 && t.accepted == s.accepted + [t.accepted[|s.accepted|]]
        && var rec := t.accepted[|s.accepted|];
        && Describes(rec, a.act)
        && t.latest == if a.first == Delivered && a.second != Dropped then s.latest[rec.sourceID := rec] else s.latest
      else t == s
  {
    EntersExactly(s, a);
    if SourcePosition(a.act.source).Ok? {
      PlaceExactly(a.act.source, SourcePosition(a.act.source).value.0, SourcePosition(a.act.source).value.1);
    }
    hide SourcePosition, StandsAt, KeyEnc, Enters, FindDedupe, Stale, Precheck, HopsExhausted;
  }

  // ---------- what a call is answered ----------

  /** The faults of the call itself, in the order that decides the answer. */
  function CallRefusals(a: Attempt): seq<Refusal> {
    var who, lease := a.act.sourcePrincipal, a.act.sourceLease;
    [Refusal(a.act.dedupeKey == "" || who.sourceID == "" || who.principalID == "" || who.sourceKind == ""
             || who.sourceKind != a.act.source.kind, CursorFailure),
     Refusal(lease.leaseStatus != "active" || a.lease.status != "active", LeaseAcquireFailed),
     Refusal(lease.leaseID == "" || a.lease.id != lease.leaseID, LeaseAcquireFailed)]
  }

  lemma CallRefused(a: Attempt)
    ensures Precheck(a.act, a.lease) == Verdict(CallRefusals(a))
  {
    VerdictOf(CallRefusals(a));
    hide Verdict;
  }

  /** The faults of a new activation: no place, hops used up, not ahead of its source; then the writes. */
  ghost function NewRefusals(s: State, a: Attempt): seq<Refusal> {
    var chain, id := a.act.chain, a.act.sourcePrincipal.sourceID;
    [Refusal(!exists pos, cursor :: StandsAt(a.act.source, pos, cursor), CursorFailure),
     Refusal(0 < chain.maxHops <= chain.hop, if a.first == Delivered then LoopSuppressed else WriteConflict),
     Refusal(!exists pos, cursor :: StandsAt(a.act.source, pos, cursor) && AheadOf(s, id, pos, cursor), StaleCursor),
     Refusal(a.first != Delivered || a.second != Delivered, WriteConflict)]
  }

  predicate FirstWith(recs: seq<LedgerRecord>, key: string, i: nat) {
    i < |recs| && recs[i].dedupeKey == key && forall k :: 0 <= k < i ==> recs[k].dedupeKey != key
  }

  lemma {:induction false} FindsFirst(recs: seq<LedgerRecord>, key: string, i: nat)
    requires FirstWith(recs, key, i)
    ensures FindDedupe(recs, key) == Some(recs[i])
  {
    if i == 0 {
    } else {
      FindsFirst(recs[1..], key, i - 1);
    }
  }

  /** The answer to any call: its first fault; the earlier record as a duplicate; the first fault of the
      new activation; or the new record. */
  lemma AnsweredExactly(s: State, a: Attempt)
    ensures var (t, r) := Accept(s, a.act, a.lease, a.first, a.second);
      var asked, refused := Verdict(CallRefusals(a)), Verdict(NewRefusals(s, a));
      if asked.Some? then r == Err(asked.value)
      else if exists i :: 0 <= i < |s.accepted| && s.accepted[i].dedupeKey == a.act.dedupeKey then
        exists i: nat :: FirstWith(s.accepted, a.act.dedupeKey, i) && r == Ok(s.accepted[i].(status := Duplicate))
      else if refused.Some? then r == Err(refused.value)
      else |t.accepted| == |s.accepted| + 1 && r == Ok(t.accepted[|s.accepted|])
  {
    CallRefused(a);
    FreshRefused(s, a);
    if FindDedupe(s.accepted, a.act.dedupeKey).Some? {
      var i := FirstIndex(s.accepted, a.act.dedupeKey);
      FindsFirst(s.accepted, a.act.dedupeKey, i);
    }
    hide Precheck, SourcePosition, StandsAt, Verdict, NewRefusals, CallRefusals, Stale, HopsExhausted, ReplayCursor;
  }

  lemma {:induction false} FirstIndex(recs: seq<LedgerRecord>, key: string) returns (i: nat)
    requires exists k :: 0 <= k < |recs| && recs[k].dedupeKey == key
    ensures FirstWith(recs, key, i)
  {
    if recs[0].dedupeKey == key {
      i := 0;
    } else {
      var k :| 0 <= k < |recs| && recs[k].dedupeKey == key;
      assert recs[1..][k - 1] == recs[k];
      var rest := FirstIndex(recs[1..], key);
      i := rest + 1;
    }
  }

  /** What the new activation's faults come to, in the ledger's own terms. */
  lemma FreshRefused(s: State, a: Attempt)
    ensures var place := SourcePosition(a.act.source);
      var prev := Latest(s, a.act.sourcePrincipal.sourceID);
      Verdict(NewRefusals(s, a)) ==
        if place.Err? then Some(place.kind)
        else if HopsExhausted(a.act.chain) then Some(if a.first == Delivered then LoopSuppressed else WriteConflict)
        else if prev.Some? && Stale(prev.value, MakeRecord(a.act, place.value.0, place.value.1)) then Some(StaleCursor)
        else if a.first != Delivered || a.second != Delivered then Some(WriteConflict)
        else None
  {
    VerdictOf(NewRefusals(s, a));
    hide Verdict, SourcePosition, StandsAt, ReplayCursor;
    var place := SourcePosition(a.act.source);
    if place.Ok? {
      PlaceExactly(a.act.source, place.value.0, place.value.1);
    } else {
      PlaceExactly(a.act.source, 0, "");
    }
    forall p, c
      ensures StandsAt(a.act.source, p, c) <==> place == Ok((p, c))
    {
      PlaceExactly(a.act.source, p, c);
    }
  }

  // ---------- over whole sequences ----------

  ghost predicate DescribesSome(rec: LedgerRecord, attempts: seq<Attempt>) {
    exists i :: 0 <= i < |attempts| && Describes(rec, attempts[i].act)
  }

  /** Whatever fails, every record of the ledger describes an activation it was asked to accept. */
  lemma {:induction false} RecordsDescribe(attempts: seq<Attempt>, k: nat)
    requires k < |AfterAll(EMPTY, attempts).accepted|
    ensures DescribesSome(AfterAll(EMPTY, attempts).accepted[k], attempts)
  {
    hide Accept, Describes;
    if attempts == [] {
    } else {
      var front, last := attempts[..|attempts| - 1], attempts[|attempts| - 1];
      var s := AfterAll(EMPTY, front);
      AddsExactly(s, last);
      if k < |s.accepted| {
        RecordsDescribe(front, k);
        var i :| 0 <= i < |front| && Describes(s.accepted[k], front[i].act);
        assert Describes(s.accepted[k], attempts[i].act);
      } else {
        assert Describes(AfterAll(EMPTY, attempts).accepted[k], attempts[|attempts| - 1].act);
      }
    }
  }

  lemma Named(rec: LedgerRecord, attempts: seq<Attempt>)
    requires DescribesSome(rec, attempts)
    ensures rec.replayCursor == ReplayCursor(rec.sourceID, rec.sourceCursor) && rec.replayCursor != ""
  {
    hide KeyEnc, StandsAt;
  }

  /** Whatever fails, two records of the ledger share a replay cursor exactly if they share source and
      source cursor. */
  lemma CursorsExactly(attempts: seq<Attempt>, i: nat, j: nat)
    requires var recs := AfterAll(EMPTY, attempts).accepted;
      i < |recs| && j < |recs|
    ensures var recs := AfterAll(EMPTY, attempts).accepted;
      recs[i].replayCursor == recs[j].replayCursor
      <==> recs[i].sourceID == recs[j].sourceID && recs[i].sourceCursor == recs[j].sourceCursor
  {
    hide AfterAll, ReplayCursor, DescribesSome;
    RecordsDescribe(attempts, i);
    RecordsDescribe(attempts, j);
    var recs := AfterAll(EMPTY, attempts).accepted;
    Named(recs[i], attempts);
    Named(recs[j], attempts);
    CursorsTellRecordsApart(recs[i], recs[j]);
  }

  // ---------- sources that count ----------

  /** The source has a number, and a cursor that ends in it, as those the router and the schedule
      engine give out do. */
  ghost predicate Counts(src: Source) {
    exists pos, cursor :: StandsAt(src, pos, cursor) && EndsIn(src, pos, cursor)
  }

  ghost predicate EndsIn(src: Source, pos: int, cursor: string) {
    pos > 0
    && (src.kind == "kv" ==> exists head: string :: cursor == head + ":" + Itoa(pos))
    && (src.kind == "object" ==> exists head: string :: cursor == head + ":" + Itoa(pos))
  }

  /** Every attempt is for a counting source, a source keeps to one kind, and a record that lands takes
      the source index with it. */
  ghost predicate Orderly(attempts: seq<Attempt>) {
    && (forall i :: 0 <= i < |attempts| ==> OrderlyAt(attempts, i))
    && forall i, j :: 0 <= i < |attempts| && 0 <= j < |attempts| ==> OneKind(attempts, i, j)
  }

  ghost predicate OrderlyAt(attempts: seq<Attempt>, i: nat)
    requires i < |attempts|
  {
    var a := attempts[i];
    Counts(a.act.source) && (a.first == Dropped || (a.first == Delivered && a.second != Dropped))
  }

  predicate OneKind(attempts: seq<Attempt>, i: nat, j: nat)
    requires i < |attempts| && j < |attempts|
  {
    attempts[i].act.sourcePrincipal.sourceID == attempts[j].act.sourcePrincipal.sourceID ==>
      attempts[i].act.source.kind == attempts[j].act.source.kind
  }

  /** The place number is read off the cursor. */
  lemma CursorTellsPlace(a: Source, b: Source, p: int, q: int, cursor: string)
    requires a.kind == b.kind && StandsAt(a, p, cursor) && StandsAt(b, q, cursor)
    requires EndsIn(a, p, cursor) && EndsIn(b, q, cursor)
    ensures p == q
  {
    hide Itoa, Atoi;
    if a.kind == "subject" {
      ItoaValue(p);
      ItoaValue(q);
    } else if a.kind == "kv" || a.kind == "object" {
      var x: string :| cursor == x + ":" + Itoa(p);
      var y: string :| cursor == y + ":" + Itoa(q);
      NoColon(p);
      NoColon(q);
      CutAtLastColon(x, Itoa(p), y, Itoa(q));
      ItoaValue(p);
      ItoaValue(q);
    } else if a.kind == "stream" {
      NoColon(p);
      NoColon(q);
      NoColon(a.consumerSequence);
      NoColon(b.consumerSequence);
      var x, y := a.stream + ":" + a.consumer, b.stream + ":" + b.consumer;
      CutAtLastColon(x + ":" + Itoa(p), Itoa(a.consumerSequence), y + ":" + Itoa(q), Itoa(b.consumerSequence));
      CutAtLastColon(x, Itoa(p), y, Itoa(q));
      ItoaValue(p);
      ItoaValue(q);
    } else {
      ClocksTell(a, b, p, q, cursor);
    }
  }

  lemma NoColon(n: nat)
    ensures ':' !in Itoa(n)
  {
    hide Itoa;
    assert !IsDigit(':');
  }

  lemma NumberHasNoColon(raw: string, pos: int)
    requires Atoi(raw) == Some(pos)
    ensures ':' !in raw
  {
    var digits := if raw != "" && (raw[0] == '-' || raw[0] == '+') then raw[1..] else raw;
    assert AllDigits(digits) && !IsDigit(':');
    assert forall i :: 0 <= i < |raw| ==> raw[i] != ':' by {
      forall i | 0 <= i < |raw|
        ensures raw[i] != ':'
      {
        if digits == raw {
          assert IsDigit(digits[i]);
        } else if i > 0 {
          assert raw[i] == digits[i - 1] && IsDigit(digits[i - 1]);
        }
      }
    }
  }

  lemma ClocksTell(a: Source, b: Source, p: int, q: int, cursor: string)
    requires a.kind == b.kind == "schedule" && StandsAt(a, p, cursor) && StandsAt(b, q, cursor)
    ensures p == q
  {
    hide Itoa, Atoi;
    var x: string :| a.clock == a.clockID + ":" + x && Atoi(x) == Some(p);
    var y: string :| b.clock == b.clockID + ":" + y && Atoi(y) == Some(q);
    NumberHasNoColon(x, p);
    NumberHasNoColon(y, q);
    var fa := a.scheduleID + ":" + a.tickID + ":" + a.fencingToken + ":" + Itoa(a.leaderEpoch) + ":" + a.clockID;
    var fb := b.scheduleID + ":" + b.tickID + ":" + b.fencingToken + ":" + Itoa(b.leaderEpoch) + ":" + b.clockID;
    assert cursor == fa + ":" + x && cursor == fb + ":" + y;
    CutAtLastColon(fa, x, fb, y);
  }

  /** A record of one of the attempts, at a counted place. */
  ghost predicate Counted(rec: LedgerRecord, attempts: seq<Attempt>) {
    exists i :: 0 <= i < |attempts| && CountedBy(rec, attempts[i].act)
  }

  ghost predicate CountedBy(rec: LedgerRecord, act: Activation) {
    && rec.sourceID == act.sourcePrincipal.sourceID
    && StandsAt(act.source, rec.sourcePosition, rec.sourceCursor)
    && EndsIn(act.source, rec.sourcePosition, rec.sourceCursor)
    && rec.replayCursor == ReplayCursor(rec.sourceID, rec.sourceCursor)
  }

  /** The records of each source rise, and the last of them is the index. */
  ghost predicate Rising(s: State, attempts: seq<Attempt>) {
    && (forall i :: 0 <= i < |s.accepted| ==> Counted(s.accepted[i], attempts) && BelowLast(s, i))
    && (forall id :: id in s.latest ==> Counted(s.latest[id], attempts))
    && forall i, j :: 0 <= i < j < |s.accepted| ==> Rises(s.accepted, i, j)
  }

  predicate BelowLast(s: State, i: nat)
    requires i < |s.accepted|
  {
    var rec := s.accepted[i];
    rec.sourceID in s.latest && rec.sourcePosition <= s.latest[rec.sourceID].sourcePosition
  }

  predicate Rises(recs: seq<LedgerRecord>, i: nat, j: nat)
    requires i < j < |recs|
  {
    recs[i].sourceID == recs[j].sourceID ==> recs[i].sourcePosition < recs[j].sourcePosition
  }

  lemma PlaceIsOne(src: Source, pos: int, cursor: string)
    requires Counts(src) && StandsAt(src, pos, cursor)
    ensures EndsIn(src, pos, cursor)
  {
    hide StandsAt, SourcePosition, EndsIn;
    var p, c :| StandsAt(src, p, c) && EndsIn(src, p, c);
    PlaceExactly(src, pos, cursor);
    PlaceExactly(src, p, c);
  }

  lemma CountedStays(rec: LedgerRecord, front: seq<Attempt>, last: Attempt)
    requires Counted(rec, front)
    ensures Counted(rec, front + [last])
  {
    hide CountedBy;
    var i :| 0 <= i < |front| && CountedBy(rec, front[i].act);
    assert (front + [last])[i] == front[i];
  }

  lemma CountedNew(rec: LedgerRecord, front: seq<Attempt>, last: Attempt)
    requires Describes(rec, last.act) && Counts(last.act.source)
    ensures Counted(rec, front + [last]) && rec.sourcePosition > 0
  {
    hide StandsAt, KeyEnc, EndsIn;
    PlaceIsOne(last.act.source, rec.sourcePosition, rec.sourceCursor);
    PositiveEnd(last.act.source, rec.sourcePosition, rec.sourceCursor);
    assert (front + [last])[|front|] == last;
    assert CountedBy(rec, (front + [last])[|front|].act);
  }

  lemma PositiveEnd(src: Source, pos: int, cursor: string)
    requires EndsIn(src, pos, cursor)
    ensures pos > 0
  {
  }

  lemma CountedIsPositive(rec: LedgerRecord, attempts: seq<Attempt>)
    requires Counted(rec, attempts)
    ensures rec.sourcePosition > 0
  {
    hide StandsAt;
  }

  /** The new record is ahead of all its source's records. */
  lemma NewIsAhead(s: State, front: seq<Attempt>, last: Attempt, rec: LedgerRecord)
    requires Rising(s, front) && Enters(s, last) && Describes(rec, last.act) && rec.sourcePosition > 0
    ensures rec.sourceID in s.latest ==> s.latest[rec.sourceID].sourcePosition < rec.sourcePosition
  {
    hide StandsAt, Counted, KeyEnc;
    if rec.sourceID in s.latest {
      CountedIsPositive(s.latest[rec.sourceID], front);
      var pos, cursor :| StandsAt(last.act.source, pos, cursor)
                         && AheadOf(s, last.act.sourcePrincipal.sourceID, pos, cursor);
      PlaceExactly(last.act.source, pos, cursor);
      PlaceExactly(last.act.source, rec.sourcePosition, rec.sourceCursor);
    }
  }

  lemma RisingAppend(s: State, front: seq<Attempt>, last: Attempt, rec: LedgerRecord)
    requires Rising(s, front) && Counted(rec, front + [last])
    requires rec.sourceID in s.latest ==> s.latest[rec.sourceID].sourcePosition < rec.sourcePosition
    ensures Rising(State(s.accepted + [rec], s.latest[rec.sourceID := rec]), front + [last])
  {
    hide Counted;
    var t := State(s.accepted + [rec], s.latest[rec.sourceID := rec]);
    forall i | 0 <= i < |t.accepted|
      ensures Counted(t.accepted[i], front + [last]) && BelowLast(t, i)
    {
      if i < |s.accepted| {
        assert BelowLast(s, i);
        CountedStays(s.accepted[i], front, last);
      }
    }
    forall id | id in t.latest
      ensures Counted(t.latest[id], front + [last])
    {
      if id != rec.sourceID {
        CountedStays(s.latest[id], front, last);
      }
    }
    forall i, j | 0 <= i < j < |t.accepted|
      ensures Rises(t.accepted, i, j)
    {
      if j < |s.accepted| {
        assert Rises(s.accepted, i, j);
      } else {
        assert BelowLast(s, i);
      }
    }
  }

  lemma RisingSame(s: State, front: seq<Attempt>, last: Attempt)
    requires Rising(s, front)
    ensures Rising(s, front + [last])
  {
    hide Counted, BelowLast;
    forall i | 0 <= i < |s.accepted|
      ensures Counted(s.accepted[i], front + [last])
    {
      CountedStays(s.accepted[i], front, last);
    }
    forall id | id in s.latest
      ensures Counted(s.latest[id], front + [last])
    {
      CountedStays(s.latest[id], front, last);
    }
  }

  lemma OrderlyFront(attempts: seq<Attempt>)
    requires Orderly(attempts) && attempts != []
    ensures Orderly(attempts[..|attempts| - 1]) && OrderlyAt(attempts, |attempts| - 1)
  {
    hide Counts;
    var front := attempts[..|attempts| - 1];
    forall i | 0 <= i < |front|
      ensures OrderlyAt(front, i)
    {
      assert OrderlyAt(attempts, i);
    }
    forall i, j | 0 <= i < |front| && 0 <= j < |front|
      ensures OneKind(front, i, j)
    {
      assert OneKind(attempts, i, j);
    }
  }

  lemma {:induction false} RecordsRise(attempts: seq<Attempt>)
    requires Orderly(attempts)
    ensures Rising(AfterAll(EMPTY, attempts), attempts)
  {
    hide Accept, Rising, Orderly, Enters, Describes, Counts, Counted;
    if attempts == [] {
      NoneRising();
    } else {
      var front, last := attempts[..|attempts| - 1], attempts[|attempts| - 1];
      var s := AfterAll(EMPTY, front);
      assert attempts == front + [last];
      OrderlyFront(attempts);
      RecordsRise(front);
      AddsExactly(s, last);
      if Enters(s, last) && last.first != Dropped {
        var t := AfterAll(EMPTY, attempts);
        var rec := t.accepted[|s.accepted|];
        CountedNew(rec, front, last);
        NewIsAhead(s, front, last, rec);
        RisingAppend(s, front, last, rec);
      } else {
        RisingSame(s, front, last);
      }
    }
  }

  lemma NoneRising()
    ensures Rising(EMPTY, [])
  {
  }

  lemma RisingIsDistinct(s: State, attempts: seq<Attempt>)
    requires Orderly(attempts) && Rising(s, attempts)
    ensures DistinctCursors(s.accepted) && NamedCursors(s.accepted)
  {
    hide Counted, BelowLast, StandsAt, EndsIn, Counts;
    forall i, j | 0 <= i < j < |s.accepted|
      ensures s.accepted[i].replayCursor != s.accepted[j].replayCursor
    {
      assert Rises(s.accepted, i, j);
      CursorsDiffer(s.accepted[i], s.accepted[j], attempts);
    }
    forall i | 0 <= i < |s.accepted|
      ensures s.accepted[i].replayCursor != ""
    {
      CountedIsNamed(s.accepted[i], attempts);
    }
  }

  lemma CountedIsNamed(rec: LedgerRecord, attempts: seq<Attempt>)
    requires Counted(rec, attempts)
    ensures rec.replayCursor != ""
  {
    hide KeyEnc, StandsAt, EndsIn;
  }

  lemma CursorsDiffer(a: LedgerRecord, b: LedgerRecord, attempts: seq<Attempt>)
    requires Orderly(attempts) && Counted(a, attempts) && Counted(b, attempts)
    requires a.sourceID == b.sourceID ==> a.sourcePosition != b.sourcePosition
    ensures a.replayCursor != b.replayCursor
  {
    hide StandsAt, EndsIn, ReplayCursor, Counts;
    var i :| 0 <= i < |attempts| && CountedBy(a, attempts[i].act);
    var j :| 0 <= j < |attempts| && CountedBy(b, attempts[j].act);
    assert OneKind(attempts, i, j);
    if a.replayCursor == b.replayCursor {
      CursorsTellRecordsApart(a, b);
      CursorTellsPlace(attempts[i].act.source, attempts[j].act.source, a.sourcePosition, b.sourcePosition,
                       a.sourceCursor);
    }
  }

  /** After any orderly sequence of accepts from an empty ledger, following the replay cursors page by
      page, with any limit, reads every accepted record once, in order. Nothing is asked of the cursors. */
  lemma FollowReadsHistory(attempts: seq<Attempt>, limit: int)
    requires Orderly(attempts) && limit > 0
    ensures var recs := AfterAll(EMPTY, attempts).accepted;
      && DistinctCursors(recs) && NamedCursors(recs) && Follow(recs, "", limit) == recs
  {
    hide Rising, Orderly, Follow, DistinctCursors, NamedCursors;
    RecordsRise(attempts);
    RisingIsDistinct(AfterAll(EMPTY, attempts), attempts);
    FollowReadsAll(AfterAll(EMPTY, attempts).accepted, limit);
  }
}
