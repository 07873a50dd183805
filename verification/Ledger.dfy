/** The activation ledger: which activations were accepted, in order, and the last one per source. */
module Ledger {
  import opened Records
  import opened Text
  import opened Numbers
  import opened Encoding
  import opened KeyValue

  datatype State = State(accepted: seq<LedgerRecord>, latest: map<string, LedgerRecord>)

  const EMPTY := State([], map[])

  // ---------- positions ----------

  /** `id:n` with a positive n that fits 64 bits. */
  function ClockPos(id: string, clock: string): (r: Option<int>)
    ensures r.Some? ==> r.value > 0
  {
    if id == "" || clock == "" then None
    else
      match CutAt(clock, ':')
      case None => None
      case Some((prefix, raw)) =>
        if prefix != id || raw == "" then None
        else
          match Atoi(raw)
          case None => None
          case Some(pos) => if pos <= 0 then None else Some(pos)
  }

  function Positive(n: int): string
    requires n > 0
  {
    Itoa(n)
  }

  /** The numeric position (0 for sources that have none) and the cursor text of a source. */
  function SourcePosition(src: Source): Result<(int, string)> {
    match src.kind
    case "request_reply" =>
      if src.subject == "" || src.requestID == "" then Err(CursorFailure) else Ok((0, src.requestID))
    case "command_acceptance" =>
      if src.subject == "" || src.commandID == "" then Err(CursorFailure) else Ok((0, src.commandID))
    case "subject" =>
      if src.streamSequence > 0 then
        if src.pattern == "" || src.observedSubject == "" then Err(CursorFailure)
        else Ok((src.streamSequence, Positive(src.streamSequence)))
      else if src.pattern == "" || src.observedSubject == "" || src.messageID == "" then Err(CursorFailure)
      else Ok((0, src.messageID))
    case "kv" =>
      if src.bucket == "" || src.key == "" || src.revision <= 0 || src.resume == "" then Err(CursorFailure)
      else Ok((src.revision, src.resume))
    case "object" =>
      if src.bucket == "" || src.name == "" || src.objectMetaSequence <= 0 || src.watchPosition == ""
      then Err(CursorFailure)
      else Ok((src.objectMetaSequence, src.watchPosition))
    case "stream" =>
      if src.stream == "" || src.consumer == "" || src.streamSequence <= 0 || src.consumerSequence <= 0
      then Err(CursorFailure)
      else Ok((src.streamSequence,
               src.stream + ":" + src.consumer + ":" + Positive(src.streamSequence) + ":"
               + Positive(src.consumerSequence)))
    case "schedule" =>
      var pos := ClockPos(src.clockID, src.clock);
      if pos.None? || src.scheduleID == "" || src.leaderEpoch <= 0 || src.tickID == "" || src.fencingToken == ""
      then Err(CursorFailure)
      else Ok((pos.value,
               src.scheduleID + ":" + src.tickID + ":" + src.fencingToken + ":" + Positive(src.leaderEpoch) + ":"
               + src.clock))
    case _ => Err(CursorFailure)
  }

  function MakeRecord(act: Activation, pos: int, cursor: string): LedgerRecord {
    LedgerRecord(
      act.activationID, act.dedupeKey, act.sourcePrincipal.sourceID, act.source.kind,
      act.sourcePrincipal.principalID, act.sourceLease.leaseID, pos, cursor,
      ReplayCursor(act.sourcePrincipal.sourceID, cursor), act.chain.chainID, Accepted)
  }

  /** Positions are compared when both sides have one; otherwise only a repeated cursor is stale. */
  predicate Stale(prev: LedgerRecord, next: LedgerRecord) {
    if prev.sourcePosition > 0 && next.sourcePosition > 0 then next.sourcePosition <= prev.sourcePosition
    else prev.sourceCursor != "" && next.sourceCursor == prev.sourceCursor
  }

  // ---------- store operations ----------

  function FindDedupe(recs: seq<LedgerRecord>, key: string): (r: Option<LedgerRecord>)
    ensures r.Some? ==> r.value in recs && r.value.dedupeKey == key
    ensures r.None? <==> forall i :: 0 <= i < |recs| ==> recs[i].dedupeKey != key
  {
    if recs == [] then None else if recs[0].dedupeKey == key then Some(recs[0]) else FindDedupe(recs[1..], key)
  }

  function Latest(s: State, source: string): Option<LedgerRecord> {
    if source in s.latest then Some(s.latest[source]) else None
  }

  /** Saving is two writes, the record and then the source index; each can be dropped or lose its
      reply, and a failure of the first skips the second. */
  function Save(s: State, rec: LedgerRecord, first: Link, second: Link): (r: (State, bool)) {
    var lands := first != Dropped && FindDedupe(s.accepted, rec.dedupeKey).None?;
    var t := if lands then s.(accepted := s.accepted + [rec]) else s;
    if !lands || first != Delivered then (t, false)
    else (if second == Dropped then t else t.(latest := t.latest[rec.sourceID := rec]), second == Delivered)
  }

  // ---------- accepting ----------

  function Precheck(act: Activation, lease: Lease): Option<Kind> {
    if act.dedupeKey == "" then Some(CursorFailure)
    else if act.sourcePrincipal.sourceID == "" || act.sourcePrincipal.principalID == "" then Some(CursorFailure)
    else if act.sourcePrincipal.sourceKind == "" || act.sourcePrincipal.sourceKind != act.source.kind
    then Some(CursorFailure)
    else if act.sourceLease.leaseStatus != "active" || lease.status != "active" then Some(LeaseAcquireFailed)
    else if act.sourceLease.leaseID == "" || lease.id == "" || lease.id != act.sourceLease.leaseID
    then Some(LeaseAcquireFailed)
    else None
  }

  predicate HopsExhausted(chain: Chain) {
    chain.maxHops > 0 && chain.hop >= chain.maxHops
  }

  /** A suppressed activation is only noted, with the first of the two writes. */
  function Accept(s: State, act: Activation, lease: Lease, first: Link, second: Link)
    : (r: (State, Result<LedgerRecord>))
  {
    var bad := Precheck(act, lease);
    if bad.Some? then (s, Err(bad.value))
    else
      var dup := FindDedupe(s.accepted, act.dedupeKey);
      if dup.Some? then (s, Ok(dup.value.(status := Duplicate)))
      else
        match SourcePosition(act.source)
        case Err(kind) => (s, Err(kind))
        case Ok((pos, cursor)) =>
          var rec := MakeRecord(act, pos, cursor);
          if HopsExhausted(act.chain) then (s, Err(if first == Delivered then LoopSuppressed else WriteConflict))
          else
            var prev := Latest(s, rec.sourceID);
            if prev.Some? && Stale(prev.value, rec) then (s, Err(StaleCursor))
            else
              var (t, ok) := Save(s, rec, first, second);
              (t, if ok then Ok(rec) else Err(WriteConflict))
  }

  // ---------- replay ----------

  /** The index after the first record with this cursor. */
  function After(recs: seq<LedgerRecord>, cursor: string): (r: Option<nat>)
    ensures r.Some? ==> 0 < r.value <= |recs| && recs[r.value - 1].replayCursor == cursor
    ensures r.Some? ==> forall i :: 0 <= i < r.value - 1 ==> recs[i].replayCursor != cursor
    ensures r.None? <==> forall i :: 0 <= i < |recs| ==> recs[i].replayCursor != cursor
  {
    if recs == [] then None
    else if recs[0].replayCursor == cursor then Some(1)
    else
      match After(recs[1..], cursor)
      case None => None
      case Some(n) => Some(n + 1)
  }

  function Take(recs: seq<LedgerRecord>, start: nat, limit: nat): seq<LedgerRecord>
    requires start <= |recs|
  {
    if |recs| - start <= limit then recs[start..] else recs[start..start + limit]
  }

  function Page(recs: seq<LedgerRecord>, after: string, limit: int): Result<seq<LedgerRecord>> {
    if limit <= 0 then Err(ReplayCursorFailed)
    else if after == "" then Ok(Take(recs, 0, limit))
    else
      match After(recs, after)
      case None => Err(ReplayCursorFailed)
      case Some(start) => Ok(Take(recs, start, limit))
  }

  predicate DistinctDedupe(recs: seq<LedgerRecord>) {
    forall i, j :: 0 <= i < j < |recs| ==> recs[i].dedupeKey != recs[j].dedupeKey
  }

  predicate DistinctCursors(recs: seq<LedgerRecord>) {
    forall i, j :: 0 <= i < j < |recs| ==> recs[i].replayCursor != recs[j].replayCursor
  }

  predicate NamedCursors(recs: seq<LedgerRecord>) {
    forall i :: 0 <= i < |recs| ==> recs[i].replayCursor != ""
  }

  function StartOf(recs: seq<LedgerRecord>, after: string): nat {
    if after == "" || After(recs, after).None? then 0 else After(recs, after).value
  }

  lemma PageEnd(recs: seq<LedgerRecord>, after: string, limit: int)
    requires limit > 0 && DistinctCursors(recs)
    requires after != "" ==> After(recs, after).Some?
    ensures Page(recs, after, limit).Ok?
    ensures var start, page := StartOf(recs, after), Page(recs, after, limit).value;
      && start + |page| <= |recs| && page == recs[start..start + |page|]
      && (page == [] ==> start == |recs|)
      && (page != [] ==> After(recs, page[|page| - 1].replayCursor) == Some(start + |page|))
  {
    hide After;
    var start, page := StartOf(recs, after), Page(recs, after, limit).value;
    if page != [] {
      assert page[|page| - 1] == recs[start + |page| - 1];
    }
  }

  /** The place after the first record with the cursor `after`, or the beginning. */
  ghost predicate StartsAfter(recs: seq<LedgerRecord>, after: string, start: nat) {
    || (after == "" && start == 0)
    || (after != "" && 0 < start <= |recs| && recs[start - 1].replayCursor == after
        && forall i :: 0 <= i < start - 1 ==> recs[i].replayCursor != after)
  }

  /** A page is refused for a limit that is not positive or a cursor no record has; otherwise it holds the
      next records after the first one with the cursor, as many as there are up to the limit. */
  lemma PageExactly(recs: seq<LedgerRecord>, after: string, limit: int)
    ensures var page := Page(recs, after, limit);
      && (page.Err? ==> page.kind == ReplayCursorFailed)
      && (page.Err? <==>
            limit <= 0 || (after != "" && forall i :: 0 <= i < |recs| ==> recs[i].replayCursor != after))
      && (page.Ok? ==> forall start: nat :: StartsAfter(recs, after, start) ==>
            page.value == recs[start..if start + limit < |recs| then start + limit else |recs|])
  {
    if limit > 0 && after != "" && After(recs, after).Some? {
      forall start: nat | StartsAfter(recs, after, start)
        ensures start == After(recs, after).value
      {
      }
    }
    hide After;
  }

  /** Asking for the page after the last record of the previous page, until a page is empty. */
  function Follow(recs: seq<LedgerRecord>, after: string, limit: int): (all: seq<LedgerRecord>)
    requires limit > 0 && DistinctCursors(recs) && NamedCursors(recs)
    requires after != "" ==> After(recs, after).Some?
    decreases |recs| - StartOf(recs, after)
  {
    PageEnd(recs, after, limit);
    var page := Page(recs, after, limit).value;
    if page == [] then [] else page + Follow(recs, page[|page| - 1].replayCursor, limit)
  }

  lemma SlicesJoin<T>(recs: seq<T>, start: nat, mid: nat)
    requires start <= mid <= |recs|
    ensures recs[start..mid] + recs[mid..] == recs[start..]
  {
  }

  /** One step of the walk: the page, and where the next one starts. */
  lemma FollowStep(recs: seq<LedgerRecord>, after: string, limit: int)
    requires limit > 0 && DistinctCursors(recs) && NamedCursors(recs)
    requires after != "" ==> After(recs, after).Some?
    ensures Page(recs, after, limit).Ok?
    ensures var start, page := StartOf(recs, after), Page(recs, after, limit).value;
      && start + |page| <= |recs| && page == recs[start..start + |page|]
      && (page == [] ==> start == |recs| && Follow(recs, after, limit) == [])
      && (page != [] ==>
        var cursor := page[|page| - 1].replayCursor;
        && cursor != "" && After(recs, cursor).Some? && StartOf(recs, cursor) == start + |page|
        && Follow(recs, after, limit) == page + Follow(recs, cursor, limit))
  {
    PageEnd(recs, after, limit);
    hide After, DistinctCursors, Page;
    var start, page := StartOf(recs, after), Page(recs, after, limit).value;
    if page != [] {
      assert page[|page| - 1] == recs[start + |page| - 1];
    }
  }

  lemma {:induction false} FollowReadsRest(recs: seq<LedgerRecord>, after: string, limit: int)
    requires limit > 0 && DistinctCursors(recs) && NamedCursors(recs)
    requires after != "" ==> After(recs, after).Some?
    ensures Follow(recs, after, limit) == recs[StartOf(recs, after)..]
    decreases |recs| - StartOf(recs, after)
  {
    hide After, DistinctCursors, NamedCursors, Follow, Page, StartOf;
    FollowStep(recs, after, limit);
    var start, page := StartOf(recs, after), Page(recs, after, limit).value;
    if page == [] {
    } else {
      FollowReadsRest(recs, page[|page| - 1].replayCursor, limit);
      SlicesJoin(recs, start, start + |page|);
    }
  }

  /** Paging through a ledger whose replay cursors are pairwise distinct returns every accepted
      record once, in order, whatever the page size. */
  lemma FollowReadsAll(recs: seq<LedgerRecord>, limit: int)
    requires limit > 0 && DistinctCursors(recs) && NamedCursors(recs)
    ensures Follow(recs, "", limit) == recs
  {
    FollowReadsRest(recs, "", limit);
  }

  lemma SliceGrows<T>(s: seq<T>, from: nat, to: nat)
    requires from <= to < |s|
    ensures s[from..to] + [s[to]] == s[from..to + 1]
  {
  }

  lemma PageOf(recs: seq<LedgerRecord>, after: string, limit: int, out: seq<LedgerRecord>)
    requires limit > 0 && |out| <= limit && (after != "" ==> After(recs, after).Some?)
    requires var from := StartOf(recs, after);
      from + |out| <= |recs| && out == recs[from..from + |out|] && (|out| < limit ==> from + |out| == |recs|)
    ensures Page(recs, after, limit) == Ok(out)
  {
    hide After;
    var from := StartOf(recs, after);
    assert recs[from..|recs|] == recs[from..];
  }

  lemma {:induction false} FindDedupeAppend(recs: seq<LedgerRecord>, rec: LedgerRecord, key: string)
    ensures FindDedupe(recs + [rec], key)
            == if FindDedupe(recs, key).Some? then FindDedupe(recs, key)
               else if rec.dedupeKey == key then Some(rec) else None
  {
    if recs == [] {
    } else {
      assert (recs + [rec])[1..] == recs[1..] + [rec];
      FindDedupeAppend(recs[1..], rec, key);
    }
  }

  // ---------- what accepting means ----------

  /** A record is newly accepted exactly for a named principal of the source's own kind, under an
      active lease that is the activation's, under a fresh key, within its hops, beyond the source's
      last cursor, and with both writes confirmed. */
  lemma AcceptedExactly(s: State, act: Activation, lease: Lease, first: Link, second: Link)
    ensures var r := Accept(s, act, lease, first, second).1;
      var who, source := act.sourcePrincipal, act.source;
      (r.Ok? && r.value.status == Accepted) <==>
        && who.sourceID != "" && who.principalID != "" && who.sourceKind == source.kind != ""
        && act.sourceLease.leaseStatus == lease.status == "active" && act.sourceLease.leaseID == lease.id != ""
        && act.dedupeKey != "" && FindDedupe(s.accepted, act.dedupeKey).None?
        && !(act.chain.maxHops > 0 && act.chain.hop >= act.chain.maxHops)
        && SourcePosition(source).Ok?
        && (Latest(s, who.sourceID).Some? ==>
              !Stale(Latest(s, who.sourceID).value,
                     MakeRecord(act, SourcePosition(source).value.0, SourcePosition(source).value.1)))
        && first == Delivered && second == Delivered
  {
    hide SourcePosition, ReplayCursor, FindDedupe, Stale;
  }

  // ---------- what accepting keeps ----------

  /** One record per dedupe key, whatever the faults. */
  lemma AcceptKeepsDistinct(s: State, act: Activation, lease: Lease, first: Link, second: Link)
    requires DistinctDedupe(s.accepted)
    ensures var t := Accept(s, act, lease, first, second).0;
      && s.accepted <= t.accepted && |t.accepted| <= |s.accepted| + 1
      && DistinctDedupe(t.accepted)
  {
    hide SourcePosition, ReplayCursor;
  }

  /** Two records of one source share a replay cursor only if their source cursors are the same. */
  lemma CursorsTellRecordsApart(a: LedgerRecord, b: LedgerRecord)
    requires a.replayCursor == ReplayCursor(a.sourceID, a.sourceCursor)
    requires b.replayCursor == ReplayCursor(b.sourceID, b.sourceCursor)
    ensures a.replayCursor == b.replayCursor <==> a.sourceID == b.sourceID && a.sourceCursor == b.sourceCursor
  {
    hide ReplayCursor;
    if a.replayCursor == b.replayCursor {
      ReplayCursorInjective(a.sourceID, a.sourceCursor, b.sourceID, b.sourceCursor);
    }
  }
}
