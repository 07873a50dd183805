/** The in-memory ledger store: four indexes over the accepted records. */
module MemoryLedger {
  import opened Records
  import opened KeyValue
  import opened Ledger

  /** The last record with this replay cursor; meaningful only when there is one. */
  function LastWithCursor(recs: seq<LedgerRecord>, cursor: string): (r: Option<LedgerRecord>)
    ensures r.None? <==> forall i :: 0 <= i < |recs| ==> recs[i].replayCursor != cursor
    ensures r.Some? ==> r.value.replayCursor == cursor
  {
    if recs == [] then None
    else
      var last := recs[|recs| - 1];
      if last.replayCursor == cursor then Some(last) else LastWithCursor(recs[..|recs| - 1], cursor)
  }

  /** What replay walks over: each accepted record's cursor, looked up in the cursor index. */
  function Listed(recs: seq<LedgerRecord>): (r: seq<LedgerRecord>)
    ensures |r| == |recs| && forall i :: 0 <= i < |r| ==> r[i].replayCursor == recs[i].replayCursor
  {
    seq(|recs|, i requires 0 <= i < |recs| => LastWithCursor(recs, recs[i].replayCursor).value)
  }

  lemma {:induction false} LastWithCursorIndex(recs: seq<LedgerRecord>, cursor: string, i: nat)
    requires i < |recs| && recs[i].replayCursor == cursor
    requires forall j :: i < j < |recs| ==> recs[j].replayCursor != cursor
    ensures LastWithCursor(recs, cursor) == Some(recs[i])
  {
    if i >= |recs| - 1 {
    } else {
      assert recs[|recs| - 1].replayCursor != cursor;
      LastWithCursorIndex(recs[..|recs| - 1], cursor, i);
    }
  }

  /** Replay lists the accepted history if and only if no two records share a replay cursor. */
  lemma ListedIsFaithful(recs: seq<LedgerRecord>)
    requires DistinctDedupe(recs)
    ensures Listed(recs) == recs <==> DistinctCursors(recs)
  {
    hide LastWithCursor;
    if DistinctCursors(recs) {
      forall i | 0 <= i < |recs|
        ensures Listed(recs)[i] == recs[i]
      {
        LastWithCursorIndex(recs, recs[i].replayCursor, i);
      }
    } else {
      var i, j :| 0 <= i < j < |recs| && recs[i].replayCursor == recs[j].replayCursor;
      assert Listed(recs)[i] == Listed(recs)[j];
      assert recs[i].dedupeKey != recs[j].dedupeKey;
    }
  }

  predicate InOrder(order: seq<string>, recs: seq<LedgerRecord>) {
    |order| == |recs| && forall i :: 0 <= i < |order| ==> order[i] == recs[i].replayCursor
  }

  ghost predicate IndexedByDedupe(m: map<string, LedgerRecord>, recs: seq<LedgerRecord>) {
    && (forall k :: k in m <==> FindDedupe(recs, k).Some?)
    && forall k :: k in m ==> Some(m[k]) == FindDedupe(recs, k)
  }

  ghost predicate IndexedByCursor(m: map<string, LedgerRecord>, recs: seq<LedgerRecord>) {
    && (forall c :: c in m <==> LastWithCursor(recs, c).Some?)
    && forall c :: c in m ==> Some(m[c]) == LastWithCursor(recs, c)
  }

  lemma DedupeIndexAppend(m: map<string, LedgerRecord>, recs: seq<LedgerRecord>, rec: LedgerRecord)
    requires IndexedByDedupe(m, recs) && rec.dedupeKey !in m
    ensures IndexedByDedupe(m[rec.dedupeKey := rec], recs + [rec])
  {
    hide FindDedupe;
    forall k
      ensures FindDedupe(recs + [rec], k)
              == if FindDedupe(recs, k).Some? then FindDedupe(recs, k)
                 else if rec.dedupeKey == k then Some(rec) else None
    {
      FindDedupeAppend(recs, rec, k);
    }
  }

  lemma DistinctAppend(recs: seq<LedgerRecord>, rec: LedgerRecord)
    requires DistinctDedupe(recs) && FindDedupe(recs, rec.dedupeKey).None?
    ensures DistinctDedupe(recs + [rec])
  {
  }

  lemma InOrderAppend(order: seq<string>, recs: seq<LedgerRecord>, rec: LedgerRecord)
    requires InOrder(order, recs)
    ensures InOrder(order + [rec.replayCursor], recs + [rec])
  {
  }

  lemma CursorIndexAppend(m: map<string, LedgerRecord>, recs: seq<LedgerRecord>, rec: LedgerRecord)
    requires IndexedByCursor(m, recs)
    ensures IndexedByCursor(m[rec.replayCursor := rec], recs + [rec])
  {
    hide LastWithCursor;
    forall c
      ensures LastWithCursor(recs + [rec], c) == if rec.replayCursor == c then Some(rec) else LastWithCursor(recs, c)
    {
      LastWithCursorAppend(recs, rec, c);
    }
  }

  class MemoryLedgerStore {
    var byDedupe: map<string, LedgerRecord>
    var byCursor: map<string, LedgerRecord>
    var bySource: map<string, LedgerRecord>
    var order: seq<string>
    var suppressed: seq<LedgerRecord>
    var writeConflict: bool
    var cursorFailed: bool
    ghost var state: State

    ghost predicate Valid()
      reads this
    {
      && DistinctDedupe(state.accepted)
      && bySource == state.latest
      && InOrder(order, state.accepted)
      && IndexedByDedupe(byDedupe, state.accepted)
      && IndexedByCursor(byCursor, state.accepted)
    }

    constructor ()
      ensures Valid() && state == EMPTY && !writeConflict && !cursorFailed && suppressed == []
    {
      byDedupe, byCursor, bySource, order, suppressed := map[], map[], map[], [], [];
      writeConflict, cursorFailed := false, false;
      state := EMPTY;
    }

    method Dedupe(key: string) returns (r: Option<LedgerRecord>)
      requires Valid()
      ensures r == FindDedupe(state.accepted, key)
    {
      r := if key in byDedupe then Some(byDedupe[key]) else None;
    }

    method Source(id: string) returns (r: Option<LedgerRecord>)
      requires Valid()
      ensures r == Latest(state, id)
    {
      r := if id in bySource then Some(bySource[id]) else None;
    }

    /** All four indexes change together, or none. */
    method SaveAccepted(rec: LedgerRecord) returns (ok: bool)
      requires Valid()
      modifies this
      ensures Valid() && suppressed == old(suppressed)
      ensures (state, ok) == Save(old(state), rec, if old(writeConflict) then Dropped else Delivered, Delivered)
      ensures writeConflict == old(writeConflict) && cursorFailed == old(cursorFailed)
    {
      DedupeIndexed(rec.dedupeKey);
      hide IndexedByDedupe, IndexedByCursor, FindDedupe, DistinctDedupe, InOrder;
      if writeConflict || rec.dedupeKey in byDedupe {
        return false;
      }
      Insert(rec);
      ok := true;
    }

    method Insert(rec: LedgerRecord)
      requires Valid() && FindDedupe(state.accepted, rec.dedupeKey).None? && rec.dedupeKey !in byDedupe
      modifies this`byDedupe, this`byCursor, this`bySource, this`order, this`state
      ensures Valid()
      ensures state == State(old(state.accepted) + [rec], old(state.latest)[rec.sourceID := rec])
    {
      hide IndexedByDedupe, IndexedByCursor, FindDedupe, DistinctDedupe, InOrder, LastWithCursor;
      DistinctAppend(state.accepted, rec);
      DedupeIndexAppend(byDedupe, state.accepted, rec);
      CursorIndexAppend(byCursor, state.accepted, rec);
      InOrderAppend(order, state.accepted, rec);
      byDedupe := byDedupe[rec.dedupeKey := rec];
      byCursor := byCursor[rec.replayCursor := rec];
      bySource := bySource[rec.sourceID := rec];
      order := order + [rec.replayCursor];
      state := State(state.accepted + [rec], state.latest[rec.sourceID := rec]);
    }

    lemma DedupeIndexed(key: string)
      requires Valid()
      ensures key in byDedupe <==> FindDedupe(state.accepted, key).Some?
    {
    }

    method SaveSuppressed(rec: LedgerRecord)
      requires Valid()
      modifies this`suppressed
      ensures Valid() && suppressed == old(suppressed) + [rec]
    {
      suppressed := suppressed + [rec];
    }

    method Replay(after: string, limit: int) returns (r: Result<seq<LedgerRecord>>)
      requires Valid()
      ensures r == if cursorFailed then Err(ReplayCursorFailed) else Page(Listed(state.accepted), after, limit)
    {
      hide After, Listed, Take, IndexedByDedupe, IndexedByCursor;
      if cursorFailed || limit <= 0 {
        return Err(ReplayCursorFailed);
      }
      ghost var recs := Listed(state.accepted);
      CursorsIndexed(after);
      if after != "" && after !in byCursor {
        return Err(ReplayCursorFailed);
      }
      var start := after == "";
      ghost var from := StartOf(recs, after);
      var out: seq<LedgerRecord> := [];
      var i := 0;
      while i < |order|
        invariant 0 <= i <= |order| == |recs| && from <= |recs|
        invariant start <==> i >= from
        invariant out == if start then recs[from..i] else []
        invariant |out| < limit
      {
        var cur := order[i];
        IndexedRecord(i);
        i := i + 1;
        if !start {
          start := cur == after;
          continue;
        }
        if cur in byCursor {
          SliceGrows(recs, from, i - 1);
          out := out + [byCursor[cur]];
          if |out| == limit {
            PageOf(recs, after, limit, out);
            return Ok(out);
          }
        }
      }
      PageOf(recs, after, limit, out);
      return Ok(out);
    }

    lemma CursorsIndexed(after: string)
      requires Valid()
      ensures after in byCursor <==> After(Listed(state.accepted), after).Some?
    {
    }

    lemma IndexedRecord(i: nat)
      requires Valid() && i < |order|
      ensures order[i] in byCursor && byCursor[order[i]] == Listed(state.accepted)[i]
    {
    }
  }

  lemma LastWithCursorAppend(recs: seq<LedgerRecord>, rec: LedgerRecord, cursor: string)
    ensures LastWithCursor(recs + [rec], cursor)
            == if rec.replayCursor == cursor then Some(rec) else LastWithCursor(recs, cursor)
  {
    assert (recs + [rec])[..|recs|] == recs;
  }
}
