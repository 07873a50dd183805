/** The revisioned key-value bucket every store of the system is built on: a stream of writes,
    numbered from 1, of which readers see the last one per key. */
module KeyValue {

  datatype Write<+V> = Write(key: string, value: V)

  datatype Entry<+V> = Entry(value: V, revision: nat)

  datatype Found<+V> = Missing | Found(entry: Entry<V>)

  /** What a conditional write reports. `Unknown` is any error other than a lost comparison. */
  datatype Ack = Wrote(revision: nat) | Conflict | Unknown

  /** What the connection does to one conditional write: delivers it and its reply, drops it, or
      delivers it and loses the reply. */
  datatype Link = Delivered | Dropped | ReplyLost

  /** The revision of the last write to `key`, 0 when it was never written. */
  function LastRevision<V>(h: seq<Write<V>>, key: string): (rev: nat)
    ensures rev <= |h|
    ensures rev > 0 ==> h[rev - 1].key == key
    ensures forall i :: rev <= i < |h| ==> h[i].key != key
  {
    if h == [] then 0
    else if h[|h| - 1].key == key then |h|
    else LastRevision(h[..|h| - 1], key)
  }

  function Lookup<V>(h: seq<Write<V>>, key: string): (r: Found<V>) {
    var rev := LastRevision(h, key);
    if rev == 0 then Missing else Found(Entry(h[rev - 1].value, rev))
  }

  /** Compare-and-set: the write happens only when the key's last revision is `expected`;
      `expected == 0` asks for an absent key, which is what Create does. */
  function CompareAndSet<V>(h: seq<Write<V>>, key: string, value: V, expected: nat, link: Link)
    : (r: (seq<Write<V>>, Ack))
  {
    var lands := link != Dropped && LastRevision(h, key) == expected;
    (if lands then h + [Write(key, value)] else h,
     if link != Delivered then Unknown else if lands then Wrote(|h| + 1) else Conflict)
  }

  lemma LastRevisionAppend<V>(h: seq<Write<V>>, w: Write<V>, key: string)
    ensures LastRevision(h + [w], key) == if w.key == key then |h| + 1 else LastRevision(h, key)
  {
    assert (h + [w])[..|h|] == h;
  }

  /** Of two compare-and-sets against the same revision of one key, at most one lands. */
  lemma SameRevisionWritesOnce<V>(h: seq<Write<V>>, i: nat, j: nat)
    requires i < j < |h| && h[i].key == h[j].key
    ensures LastRevision(h[..i], h[i].key) < LastRevision(h[..j], h[j].key)
  {
    assert h[..j][i].key == h[j].key;
  }

  /** The live bucket: the current entries, and the write history they come from. */
  class Bucket<V> {
    var entries: map<string, Entry<V>>
    var lastSeq: nat
    ghost var history: seq<Write<V>>

    ghost predicate Valid()
      reads this
    {
      && lastSeq == |history|
      && (forall k :: k in entries <==> LastRevision(history, k) > 0)
      && (forall k :: k in entries ==> Found(entries[k]) == Lookup(history, k))
    }

    constructor ()
      ensures Valid() && history == []
    {
      entries, lastSeq, history := map[], 0, [];
    }

    method Get(key: string) returns (r: Found<V>)
      requires Valid()
      ensures r == Lookup(history, key)
    {
      r := if key in entries then Found(entries[key]) else Missing;
    }

    method Append(key: string, value: V) returns (revision: nat)
      requires Valid()
      modifies this
      ensures Valid() && history == old(history) + [Write(key, value)] && revision == |history|
    {
      lastSeq := lastSeq + 1;
      entries := entries[key := Entry(value, lastSeq)];
      ghost var before := history;
      history := history + [Write(key, value)];
      forall k {
        LastRevisionAppend(before, Write(key, value), k);
      }
      revision := lastSeq;
    }

    /** Unconditional. */
    method Put(key: string, value: V, link: Link) returns (ok: bool)
      requires Valid()
      modifies this
      ensures Valid() && ok == (link == Delivered)
      ensures history == old(history) + if link == Dropped then [] else [Write(key, value)]
    {
      if link != Dropped {
        var rev := Append(key, value);
      }
      ok := link == Delivered;
    }

    /** Update sends `expected`; Create is the same call with 0. */
    method Update(key: string, value: V, expected: nat, link: Link) returns (ack: Ack)
      requires Valid()
      modifies this
      ensures Valid()
      ensures (history, ack) == CompareAndSet(old(history), key, value, expected, link)
    {
      var current := if key in entries then entries[key].revision else 0;
      ack := Unknown;
      if link != Dropped && current == expected {
        var rev := Append(key, value);
        if link == Delivered {
          ack := Wrote(rev);
        }
      } else if link == Delivered {
        ack := Conflict;
      }
    }
  }
}
