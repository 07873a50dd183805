/** The ledger kept in a key-value bucket, and the ledger that uses it. */
module KVLedger {
  import opened Records
  import opened Encoding
  import opened KeyValue
  import opened Ledger

  type History = seq<Write<LedgerRecord>>

  datatype KVRec = KVRec(rev: nat, rec: LedgerRecord)

  const ACCEPTED_PREFIX := "a."

  function Recs(items: seq<KVRec>): seq<LedgerRecord> {
    seq(|items|, i requires 0 <= i < |items| => items[i].rec)
  }

  // ---------- the accepted history inside the bucket's history ----------

  function AcceptedRevs(h: History): seq<KVRec> {
    if h == [] then []
    else
      var w := h[|h| - 1];
      AcceptedRevs(h[..|h| - 1]) + if ACCEPTED_PREFIX <= w.key then [KVRec(|h|, w.value)] else []
  }

  /** Accepted records are created once under their dedupe key; nothing else uses that family. */
  ghost predicate KeysOk(h: History) {
    forall i :: 0 <= i < |h| && ACCEPTED_PREFIX <= h[i].key ==>
      h[i].key == AcceptedKey(h[i].value.dedupeKey) && LastRevision(h[..i], h[i].key) == 0
  }

  ghost predicate Represents(h: History, s: State) {
    && KeysOk(h)
    && s.accepted == Recs(AcceptedRevs(h))
    && IndexOk(h, s)
  }

  ghost predicate IndexOk(h: History, s: State) {
    forall id :: Latest(s, id) == ValueAt(h, SourceKey(id))
  }

  function ValueAt(h: History, key: string): Option<LedgerRecord> {
    match Lookup(h, key)
    case Missing => None
    case Found(e) => Some(e.value)
  }

  predicate StrictlySorted(items: seq<KVRec>) {
    forall i, j :: 0 <= i < j < |items| ==> items[i].rev < items[j].rev
  }

  predicate IsAcceptedAt(h: History, r: KVRec) {
    0 < r.rev <= |h| && ACCEPTED_PREFIX <= h[r.rev - 1].key && r.rec == h[r.rev - 1].value
  }

  lemma {:induction false} AcceptedRevsMeaning(h: History)
    ensures StrictlySorted(AcceptedRevs(h))
    ensures forall r :: r in AcceptedRevs(h) <==> IsAcceptedAt(h, r)
  {
    hide ACCEPTED_PREFIX;
    if h == [] {
    } else {
      var h0 := h[..|h| - 1];
      AcceptedRevsMeaning(h0);
      var old0 := AcceptedRevs(h0);
      forall i | 0 <= i < |old0|
        ensures old0[i].rev <= |h0|
      {
        assert old0[i] in old0;
      }
      forall r
        ensures r in AcceptedRevs(h) <==> IsAcceptedAt(h, r)
      {
        assert r.rev <= |h0| ==> (IsAcceptedAt(h, r) <==> IsAcceptedAt(h0, r));
      }
    }
  }

  lemma AcceptedRevsAppend(h: History, w: Write<LedgerRecord>)
    ensures AcceptedRevs(h + [w])
            == AcceptedRevs(h) + if ACCEPTED_PREFIX <= w.key then [KVRec(|h| + 1, w.value)] else []
  {
    assert (h + [w])[..|h|] == h;
  }

  /** The dedupe lookup by key finds what a search of the accepted history finds. */
  lemma {:induction false} DedupeIsLookup(h: History, key: string)
    requires KeysOk(h)
    ensures FindDedupe(Recs(AcceptedRevs(h)), key) == ValueAt(h, AcceptedKey(key))
  {
    hide FindDedupe, KeyEnc;
    if h == [] {
      assert FindDedupe([], key).None?;
    } else {
      var h0, w := h[..|h| - 1], h[|h| - 1];
      assert h == h0 + [w];
      KeysOkFront(h0, w);
      DedupeIsLookup(h0, key);
      AcceptedRevsAppend(h0, w);
      LastRevisionAppend(h0, w, AcceptedKey(key));
      if ACCEPTED_PREFIX <= w.key {
        LedgerKeysDistinct(w.value.dedupeKey, key);
        FindDedupeAppend(Recs(AcceptedRevs(h0)), w.value, key);
        assert Recs(AcceptedRevs(h)) == Recs(AcceptedRevs(h0)) + [w.value];
      } else {
        assert ACCEPTED_PREFIX <= AcceptedKey(key);
        assert AcceptedRevs(h) == AcceptedRevs(h0);
      }
    }
  }

  lemma KeysOkFront(h0: History, w: Write<LedgerRecord>)
    requires KeysOk(h0 + [w])
    ensures KeysOk(h0)
    ensures ACCEPTED_PREFIX <= w.key ==> w.key == AcceptedKey(w.value.dedupeKey) && LastRevision(h0, w.key) == 0
  {
    hide ACCEPTED_PREFIX, AcceptedKey, LastRevision;
    var h := h0 + [w];
    assert h[..|h0|] == h0 && h[|h0|] == w;
    forall i | 0 <= i < |h0|
      ensures h[i] == h0[i] && h[..i] == h0[..i]
    {
    }
  }

  lemma KeysOkAppend(h: History, w: Write<LedgerRecord>)
    requires KeysOk(h)
    requires ACCEPTED_PREFIX <= w.key ==> w.key == AcceptedKey(w.value.dedupeKey) && LastRevision(h, w.key) == 0
    ensures KeysOk(h + [w])
  {
    hide ACCEPTED_PREFIX, AcceptedKey, LastRevision;
    var t := h + [w];
    assert t[..|h|] == h;
    forall i | 0 <= i < |h|
      ensures t[i] == h[i] && t[..i] == h[..i]
    {
    }
  }

  lemma KeyFamilies(s: string)
    ensures ACCEPTED_PREFIX <= AcceptedKey(s)
    ensures !(ACCEPTED_PREFIX <= SourceKey(s)) && !(ACCEPTED_PREFIX <= SuppressedKey(s))
  {
    hide KeyEnc;
    assert SourceKey(s)[0] == 's' && SuppressedKey(s)[0] == 'x' && ACCEPTED_PREFIX[0] == 'a';
  }

  lemma ValueAppend(h: History, w: Write<LedgerRecord>, key: string)
    ensures ValueAt(h + [w], key) == if w.key == key then Some(w.value) else ValueAt(h, key)
  {
    LastRevisionAppend(h, w, key);
  }

  lemma IndexKept(h: History, s: State, w: Write<LedgerRecord>, accepted: seq<LedgerRecord>)
    requires IndexOk(h, s) && forall id :: SourceKey(id) != w.key
    ensures IndexOk(h + [w], s.(accepted := accepted))
  {
    hide ValueAt, SourceKey;
    forall id
      ensures ValueAt(h + [w], SourceKey(id)) == ValueAt(h, SourceKey(id))
    {
      ValueAppend(h, w, SourceKey(id));
    }
  }

  /** Creating the record appends it to the accepted history. */
  lemma RepresentsAccepted(h: History, s: State, rec: LedgerRecord)
    requires Represents(h, s) && LastRevision(h, AcceptedKey(rec.dedupeKey)) == 0
    ensures Represents(h + [Write(AcceptedKey(rec.dedupeKey), rec)], s.(accepted := s.accepted + [rec]))
  {
    hide AcceptedKey, SourceKey, KeysOk, IndexOk, AcceptedRevs, LastRevision, ACCEPTED_PREFIX;
    var w := Write(AcceptedKey(rec.dedupeKey), rec);
    KeyFamilies(rec.dedupeKey);
    KeysOkAppend(h, w);
    AcceptedRevsAppend(h, w);
    assert Recs(AcceptedRevs(h + [w])) == Recs(AcceptedRevs(h)) + [rec];
    forall id
      ensures SourceKey(id) != w.key
    {
      LedgerKeysDistinct(rec.dedupeKey, id);
    }
    IndexKept(h, s, w, s.accepted + [rec]);
  }

  /** Writing the index changes one source's latest record. */
  lemma RepresentsIndexed(h: History, s: State, rec: LedgerRecord)
    requires Represents(h, s)
    ensures Represents(h + [Write(SourceKey(rec.sourceID), rec)], s.(latest := s.latest[rec.sourceID := rec]))
  {
    hide AcceptedKey, SourceKey, KeysOk, AcceptedRevs, LastRevision, ACCEPTED_PREFIX, ValueAt;
    var w := Write(SourceKey(rec.sourceID), rec);
    KeyFamilies(rec.sourceID);
    KeysOkAppend(h, w);
    AcceptedRevsAppend(h, w);
    forall id
      ensures ValueAt(h + [w], SourceKey(id)) == if id == rec.sourceID then Some(rec) else ValueAt(h, SourceKey(id))
    {
      LedgerKeysDistinct(rec.sourceID, id);
      ValueAppend(h, w, SourceKey(id));
    }
  }

  lemma RepresentsSuppressed(h: History, s: State, rec: LedgerRecord)
    requires Represents(h, s)
    ensures Represents(h + [Write(SuppressedKey(rec.replayCursor), rec)], s)
  {
    hide AcceptedKey, SourceKey, SuppressedKey, KeysOk, IndexOk, AcceptedRevs, LastRevision, ACCEPTED_PREFIX;
    var w := Write(SuppressedKey(rec.replayCursor), rec);
    KeyFamilies(rec.replayCursor);
    KeysOkAppend(h, w);
    AcceptedRevsAppend(h, w);
    forall id
      ensures SourceKey(id) != w.key
    {
      LedgerKeysDistinct(id, rec.replayCursor);
    }
    IndexKept(h, s, w, s.accepted);
  }

  // ---------- sorting by revision ----------

  function Insert(items: seq<KVRec>, r: KVRec): seq<KVRec> {
    if items == [] then [r]
    else if r.rev < items[0].rev then [r] + items
    else [items[0]] + Insert(items[1..], r)
  }

  lemma ConsSorted(first: KVRec, rest: seq<KVRec>)
    requires StrictlySorted(rest) && forall x :: x in rest ==> first.rev < x.rev
    ensures StrictlySorted([first] + rest)
  {
    forall i | 0 <= i < |rest|
      ensures first.rev < rest[i].rev
    {
      assert rest[i] in rest;
    }
  }

  lemma TailMembers(items: seq<KVRec>)
    requires items != [] && StrictlySorted(items)
    ensures StrictlySorted(items[1..])
    ensures forall x :: x in items[1..] <==> x in items && x != items[0]
    ensures forall x :: x in items ==> items[0].rev <= x.rev && (x.rev == items[0].rev ==> x == items[0])
  {
    forall i | 0 < i < |items|
      ensures items[i] == items[1..][i - 1]
    {
    }
  }

  lemma {:induction false} InsertSorts(items: seq<KVRec>, r: KVRec)
    requires StrictlySorted(items) && forall x :: x in items ==> x.rev != r.rev
    ensures StrictlySorted(Insert(items, r))
    ensures forall x :: x in Insert(items, r) <==> x == r || x in items
  {
    hide StrictlySorted;
    if items == [] {
      ConsSorted(r, items);
      assert [r] + items == [r];
    } else {
      TailMembers(items);
      assert items[0] in items;
      if r.rev < items[0].rev {
        ConsSorted(r, items);
      } else {
        InsertSorts(items[1..], r);
        ConsSorted(items[0], Insert(items[1..], r));
      }
    }
  }

  /** A strictly sorted list is determined by its elements. */
  lemma {:induction false} SortedUnique(a: seq<KVRec>, b: seq<KVRec>)
    requires StrictlySorted(a) && StrictlySorted(b)
    requires forall x :: x in a <==> x in b
    ensures a == b
  {
    hide StrictlySorted;
    assert a != [] ==> a[0] in a;
    assert b != [] ==> b[0] in b;
    if a == [] {
    } else {
      TailMembers(a);
      TailMembers(b);
      assert a[0] == b[0];
      SortedUnique(a[1..], b[1..]);
      assert a == [a[0]] + a[1..] && b == [b[0]] + b[1..];
    }
  }

  // ---------- what accepting writes ----------

  function SaveWrites(s: State, rec: LedgerRecord, first: Link, second: Link): History {
    if first == Dropped || FindDedupe(s.accepted, rec.dedupeKey).Some? then []
    else [Write(AcceptedKey(rec.dedupeKey), rec)]
         + if first == Delivered && second != Dropped then [Write(SourceKey(rec.sourceID), rec)] else []
  }

  /** The writes of one call of `Ledger.Accept`, in turn. */
  function AcceptWrites(s: State, act: Activation, lease: Lease, first: Link, second: Link): History {
    if Precheck(act, lease).Some? || FindDedupe(s.accepted, act.dedupeKey).Some? || SourcePosition(act.source).Err?
    then []
    else
      var (pos, cursor) := SourcePosition(act.source).value;
      var rec := MakeRecord(act, pos, cursor);
      if HopsExhausted(act.chain) then
        if first == Dropped then [] else [Write(SuppressedKey(rec.replayCursor), rec.(status := Suppressed))]
      else
        var prev := Latest(s, rec.sourceID);
        if prev.Some? && Stale(prev.value, rec) then [] else SaveWrites(s, rec, first, second)
  }

  // ---------- the stores ----------

  class KVLedgerStore {
    const kv: Bucket<LedgerRecord>
    ghost var state: State

    ghost predicate Valid()
      reads this, kv
    {
      kv.Valid() && Represents(kv.history, state)
    }

    constructor (bucket: Bucket<LedgerRecord>)
      requires bucket.Valid() && bucket.history == []
      ensures Valid() && kv == bucket && state == EMPTY
    {
      kv := bucket;
      state := EMPTY;
    }

    method Get(key: string) returns (r: Option<LedgerRecord>)
      requires kv.Valid()
      ensures r == ValueAt(kv.history, key)
    {
      var found := kv.Get(key);
      r := if found.Missing? then None else Some(found.entry.value);
    }

    method Dedupe(key: string) returns (r: Option<LedgerRecord>)
      requires Valid()
      ensures r == FindDedupe(state.accepted, key)
    {
      hide FindDedupe, KeysOk, IndexOk, AcceptedRevs, AcceptedKey;
      r := Get(AcceptedKey(key));
      DedupeIsLookup(kv.history, key);
    }

    method Source(id: string) returns (r: Option<LedgerRecord>)
      requires Valid()
      ensures r == Latest(state, id)
    {
      hide KeysOk, AcceptedRevs, SourceKey;
      r := Get(SourceKey(id));
    }

    lemma CreateMeansNew(rec: LedgerRecord)
      requires Valid()
      ensures LastRevision(kv.history, AcceptedKey(rec.dedupeKey)) == 0
              <==> FindDedupe(state.accepted, rec.dedupeKey).None?
    {
      hide FindDedupe, KeysOk, IndexOk, AcceptedRevs, AcceptedKey, LastRevision;
      DedupeIsLookup(kv.history, rec.dedupeKey);
    }

    method CreateRecord(rec: LedgerRecord, link: Link) returns (ok: bool)
      requires Valid()
      modifies this`state, kv
      ensures Valid() && ok == (link == Delivered && FindDedupe(old(state.accepted), rec.dedupeKey).None?)
      ensures state == if link != Dropped && FindDedupe(old(state.accepted), rec.dedupeKey).None?
                       then State(old(state.accepted) + [rec], old(state.latest)) else old(state)
      ensures kv.history
              == old(kv.history) + if state == old(state) then [] else [Write(AcceptedKey(rec.dedupeKey), rec)]
    {
      hide FindDedupe, Represents, AcceptedKey, LastRevision;
      CreateMeansNew(rec);
      ghost var h := kv.history;
      var ack := kv.Update(AcceptedKey(rec.dedupeKey), rec, 0, link);
      ok := ack.Wrote?;
      if LastRevision(h, AcceptedKey(rec.dedupeKey)) == 0 && link != Dropped {
        RepresentsAccepted(h, state, rec);
        state := state.(accepted := state.accepted + [rec]);
      }
    }

    method PutIndex(rec: LedgerRecord, link: Link) returns (ok: bool)
      requires Valid()
      modifies this`state, kv
      ensures Valid() && ok == (link == Delivered)
      ensures state == if link == Dropped then old(state)
                       else State(old(state.accepted), old(state.latest)[rec.sourceID := rec])
      ensures kv.history == old(kv.history) + if link == Dropped then [] else [Write(SourceKey(rec.sourceID), rec)]
    {
      hide Represents, SourceKey;
      ghost var h := kv.history;
      ok := kv.Put(SourceKey(rec.sourceID), rec, link);
      if link != Dropped {
        RepresentsIndexed(h, state, rec);
        state := state.(latest := state.latest[rec.sourceID := rec]);
      } else {
        assert kv.history == h;
      }
    }

    /** Two key writes in turn: the abstract two-write save. */
    method SaveAccepted(rec: LedgerRecord, first: Link, second: Link) returns (ok: bool)
      requires Valid()
      modifies this`state, kv
      ensures Valid()
      ensures (state, ok) == Save(old(state), rec, first, second)
      ensures kv.history == old(kv.history) + SaveWrites(old(state), rec, first, second)
    {
      hide FindDedupe, Represents, AcceptedKey, SourceKey;
      ok := CreateRecord(rec, first);
      if ok {
        ok := PutIndex(rec, second);
      }
    }

    method SaveSuppressed(rec: LedgerRecord, link: Link) returns (ok: bool)
      requires Valid()
      modifies this`state, kv
      ensures Valid() && state == old(state) && ok == (link == Delivered)
      ensures kv.history
              == old(kv.history) + if link == Dropped then [] else [Write(SuppressedKey(rec.replayCursor), rec)]
    {
      hide Represents, SuppressedKey;
      ghost var h := kv.history;
      ok := kv.Put(SuppressedKey(rec.replayCursor), rec, link);
      if link != Dropped {
        RepresentsSuppressed(h, state, rec);
      } else {
        assert kv.history == h;
      }
    }

    /** Reads one key and, if it holds an accepted record, puts it at its place by revision. */
    method Gather(key: string, items: seq<KVRec>) returns (next: seq<KVRec>)
      requires kv.Valid() && LastRevision(kv.history, key) > 0
      ensures next == WithKey(kv.history, key, items)
    {
      hide ACCEPTED_PREFIX, LastRevision, Insert;
      next := items;
      if ACCEPTED_PREFIX <= key {
        var found := kv.Get(key);
        next := Insert(items, KVRec(found.entry.revision, found.entry.value));
      }
    }

    /** The accepted records, whatever order the bucket lists its keys in. */
    method Records(keys: seq<string>) returns (recs: seq<LedgerRecord>)
      requires Valid() && Lists(keys, kv.history)
      ensures recs == state.accepted
    {
      hide Represents, LastRevision, Gathered, WithKey, ACCEPTED_PREFIX, KeysOk, AcceptedRevs;
      var items: seq<KVRec> := [];
      GatheredNone(kv.history);
      for i := 0 to |keys|
        invariant Gathered(kv.history, keys[..i], items)
      {
        GatherNext(kv.history, keys, i, items);
        items := Gather(keys[i], items);
      }
      assert keys[..|keys|] == keys;
      RepresentsMeans(kv.history, state);
      GatheredAll(kv.history, keys, items);
      recs := Recs(items);
    }

    method Replay(keys: seq<string>, after: string, limit: int) returns (r: Result<seq<LedgerRecord>>)
      requires Valid() && Lists(keys, kv.history)
      ensures r == Page(state.accepted, after, limit)
    {
      hide Represents, After, Take, Lists;
      if limit <= 0 {
        return Err(ReplayCursorFailed);
      }
      var recs := Records(keys);
      var start := after == "";
      ghost var known := after == "" || After(recs, after).Some?;
      ghost var from := StartOf(recs, after);
      var out: seq<LedgerRecord> := [];
      for i := 0 to |recs|
        invariant known ==> (start <==> i >= from) && from <= |recs|
        invariant !known ==> !start
        invariant out == if start then recs[from..i] else []
        invariant |out| < limit
      {
        if !start {
          start := recs[i].replayCursor == after;
        } else {
          SliceGrows(recs, from, i);
          out := out + [recs[i]];
          if |out| == limit {
            PageOf(recs, after, limit, out);
            return Ok(out);
          }
        }
      }
      if after != "" && !start {
        return Err(ReplayCursorFailed);
      }
      PageOf(recs, after, limit, out);
      return Ok(out);
    }
  }

  lemma RepresentsMeans(h: History, s: State)
    requires Represents(h, s)
    ensures KeysOk(h) && s.accepted == Recs(AcceptedRevs(h))
  {
  }

  /** `keys` lists every key ever written, once. */
  predicate Lists(keys: seq<string>, h: History) {
    && (forall i, j :: 0 <= i < j < |keys| ==> keys[i] != keys[j])
    && (forall i :: 0 <= i < |keys| ==> LastRevision(h, keys[i]) > 0)
    && forall i :: 0 <= i < |h| ==> h[i].key in keys
  }

  /** `items` are, in revision order, the current entries of the accepted keys among `keys`. */
  ghost predicate Gathered(h: History, keys: seq<string>, items: seq<KVRec>) {
    && StrictlySorted(items)
    && forall r :: r in items <==> IsCurrent(h, r) && h[r.rev - 1].key in keys && ACCEPTED_PREFIX <= h[r.rev - 1].key
  }

  predicate IsCurrent(h: History, r: KVRec) {
    0 < r.rev <= |h| && LastRevision(h, h[r.rev - 1].key) == r.rev && r.rec == h[r.rev - 1].value
  }

  /** `items` with the current entry of `key`, when that is an accepted key. */
  function WithKey(h: History, key: string, items: seq<KVRec>): seq<KVRec>
    requires LastRevision(h, key) > 0
  {
    var rev := LastRevision(h, key);
    if ACCEPTED_PREFIX <= key then Insert(items, KVRec(rev, h[rev - 1].value)) else items
  }

  lemma GatheredNone(h: History)
    ensures Gathered(h, [], [])
  {
  }

  lemma GatherNext(h: History, keys: seq<string>, i: nat, items: seq<KVRec>)
    requires Lists(keys, h) && i < |keys| && Gathered(h, keys[..i], items)
    ensures Gathered(h, keys[..i + 1], WithKey(h, keys[i], items))
  {
    hide ACCEPTED_PREFIX, StrictlySorted, LastRevision, Insert;
    var rev := LastRevision(h, keys[i]);
    var r := KVRec(rev, h[rev - 1].value);
    assert forall k :: k in keys[..i + 1] <==> k in keys[..i] || k == keys[i];
    assert keys[i] !in keys[..i];
    if ACCEPTED_PREFIX <= keys[i] {
      InsertSorts(items, r);
    }
    assert forall x :: IsCurrent(h, x) && h[x.rev - 1].key == keys[i] <==> x == r;
  }

  /** Accepted keys are written once, so the current entries are the whole accepted history. */
  lemma GatheredAll(h: History, keys: seq<string>, items: seq<KVRec>)
    requires KeysOk(h) && Lists(keys, h) && Gathered(h, keys, items)
    ensures items == AcceptedRevs(h)
  {
    hide ACCEPTED_PREFIX, StrictlySorted, LastRevision, KeysOk, AcceptedRevs;
    AcceptedRevsMeaning(h);
    forall r
      ensures r in items <==> r in AcceptedRevs(h)
    {
      if IsAcceptedAt(h, r) {
        WrittenOnce(h, r.rev);
      }
    }
    SortedUnique(items, AcceptedRevs(h));
  }

  lemma WrittenOnce(h: History, rev: nat)
    requires KeysOk(h) && 0 < rev <= |h| && ACCEPTED_PREFIX <= h[rev - 1].key
    ensures LastRevision(h, h[rev - 1].key) == rev
  {
    hide ACCEPTED_PREFIX, AcceptedKey;
    var last := LastRevision(h, h[rev - 1].key);
    var earlier := h[..last - 1];
    assert LastRevision(earlier, h[last - 1].key) == 0;
    assert forall k :: 0 <= k < |earlier| ==> earlier[k].key != h[rev - 1].key && earlier[k] == h[k];
  }
}
