/** The activation ledger over its key-value store. */
module DurableLedgers {
  import opened Records
  import opened KeyValue
  import opened Ledger
  import opened KVLedger

  class DurableLedger {
    const store: KVLedgerStore

    constructor (s: KVLedgerStore)
      ensures store == s
    {
      store := s;
    }

    /** The method runs the checks, reads and writes in turn and does what `Ledger.Accept` says. */
    method Accept(act: Activation, lease: Lease, first: Link, second: Link) returns (r: Result<LedgerRecord>)
      requires store.Valid()
      modifies store`state, store.kv
      ensures store.Valid()
      ensures (store.state, r) == Ledger.Accept(old(store.state), act, lease, first, second)
      ensures store.kv.history == old(store.kv.history) + AcceptWrites(old(store.state), act, lease, first, second)
    {
      hide FindDedupe, Represents, SourcePosition, Stale, Save, SaveWrites, Precheck, Latest;
      var bad := Precheck(act, lease);
      if bad.Some? {
        return Err(bad.value);
      }
      var dup := store.Dedupe(act.dedupeKey);
      if dup.Some? {
        return Ok(dup.value.(status := Duplicate));
      }
      var position := SourcePosition(act.source);
      if position.Err? {
        return Err(position.kind);
      }
      var rec := MakeRecord(act, position.value.0, position.value.1);
      if HopsExhausted(act.chain) {
        var noted := store.SaveSuppressed(rec.(status := Suppressed), first);
        return Err(if noted then LoopSuppressed else WriteConflict);
      }
      var prev := store.Source(act.sourcePrincipal.sourceID);
      if prev.Some? && Stale(prev.value, rec) {
        return Err(StaleCursor);
      }
      var ok := store.SaveAccepted(rec, first, second);
      return if ok then Ok(rec) else Err(WriteConflict);
    }

    method Replay(keys: seq<string>, after: string, limit: int) returns (r: Result<seq<LedgerRecord>>)
      requires store.Valid() && Lists(keys, store.kv.history)
      ensures r == Page(store.state.accepted, after, limit)
    {
      r := store.Replay(keys, after, limit);
    }
  }
}
