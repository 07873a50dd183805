/** The raw-authority check over frame messages: a depth-first walk of an object graph that may be
    cyclic, with a mutable set of objects already seen. */
module DenyRaw {
  import opened Text
  import opened Numbers

  // ---------- names ----------

  const RAW: seq<string> := [
    "allow", "allowresponses", "bearer", "cred", "credential", "credentials", "deny", "headers", "jwt", "nats",
    "nkey", "permission", "permissions", "publish", "reply", "replysubject", "secret", "seed", "subject",
    "subjects", "subscribe", "password", "token", "tokens"]

  /** Lower case as far as it bears on RAW: besides the capitals, only the Kelvin sign and the dotted
      capital I become text with letters of ASCII in it. */
  function Lowered(c: char): string {
    if c == '\U{212A}' then "k" else if c == '\U{0130}' then "i\U{0307}" else [LowerChar(c)]
  }

  /** Lower case, without dashes and underscores. */
  function Plain(key: string): string {
    if key == "" then ""
    else (if key[0] == '-' || key[0] == '_' then "" else Lowered(key[0])) + Plain(key[1..])
  }

  predicate RawKey(key: string) {
    exists i :: 0 <= i < |RAW| && Contains(Plain(key), RAW[i])
  }

  /** The words that matter: every other one of the list contains one of these. */
  const ROOTS: seq<string> := [
    "allow", "bearer", "cred", "deny", "headers", "jwt", "nats", "nkey", "permission", "publish", "reply", "secret",
    "seed", "subject", "subscribe", "password", "token"]

  predicate HasRoot(plain: string) {
    exists i :: 0 <= i < |ROOTS| && Contains(plain, ROOTS[i])
  }

  lemma ContainsStart(s: string, word: string, part: string)
    requires Contains(s, word) && part <= word
    ensures Contains(s, part)
  {
    var i :| 0 <= i <= |s| && word <= s[i..];
    assert part <= s[i..];
  }

  /** Which of the roots each word of the list starts with, and where the list has each root. */
  function RootOf(i: nat): nat
    requires i < 24
  {
    [0, 0, 1, 2, 2, 2, 3, 4, 5, 6, 7, 8, 8, 9, 10, 10, 11, 12, 13, 13, 14, 15, 16, 16][i]
  }

  function WordOf(i: nat): nat
    requires i < 17
  {
    [0, 2, 3, 6, 7, 8, 9, 10, 11, 13, 14, 16, 17, 18, 20, 21, 22][i]
  }

  lemma RootStarts(i: nat)
    requires i < 24
    ensures |RAW| == 24 && |ROOTS| == 17 && RootOf(i) < 17 && ROOTS[RootOf(i)] <= RAW[i]
  {
  }

  lemma RootListed(i: nat)
    requires i < 17
    ensures |RAW| == 24 && |ROOTS| == 17 && WordOf(i) < 24 && RAW[WordOf(i)] == ROOTS[i]
  {
    if i < 8 {
      RootListedLow(i);
    } else {
      RootListedHigh(i);
    }
    hide RAW, ROOTS, WordOf;
  }

  lemma RootListedLow(i: nat)
    requires i < 8
    ensures |RAW| == 24 && |ROOTS| == 17 && WordOf(i) < 24 && RAW[WordOf(i)] == ROOTS[i]
  {
  }

  lemma RootListedHigh(i: nat)
    requires 8 <= i < 17
    ensures |RAW| == 24 && |ROOTS| == 17 && WordOf(i) < 24 && RAW[WordOf(i)] == ROOTS[i]
  {
  }

  /** A key names raw authority if and only if, stripped and lower-cased, it contains one of 17 words. */
  lemma RawExactly(key: string)
    ensures RawKey(key) <==> HasRoot(Plain(key))
  {
    RootStarts(0);
    hide RAW, ROOTS, Contains, Plain;
    if RawKey(key) {
      var i :| 0 <= i < |RAW| && Contains(Plain(key), RAW[i]);
      RootStarts(i);
      ContainsStart(Plain(key), RAW[i], ROOTS[RootOf(i)]);
    }
    if HasRoot(Plain(key)) {
      var i :| 0 <= i < |ROOTS| && Contains(Plain(key), ROOTS[i]);
      RootListed(i);
      assert Contains(Plain(key), RAW[WordOf(i)]);
    }
  }

  lemma {:induction false} PlainAppend(a: string, b: string)
    ensures Plain(a + b) == Plain(a) + Plain(b)
  {
    hide Lowered;
    if a == "" {
      assert a + b == b;
    } else {
      assert (a + b)[1..] == a[1..] + b;
      PlainAppend(a[1..], b);
    }
  }

  /** Dashes, underscores and capitals, those outside ASCII included, do not disguise a name. */
  lemma DisguisesAreSeenThrough(a: string, c: char, b: string)
    ensures c == '-' || c == '_' ==> (RawKey(a + [c] + b) <==> RawKey(a + b))
    ensures RawKey(a + [c] + b) <==> RawKey(a + Lowered(c) + b)
  {
    PlainAppend(a + [c], b);
    PlainAppend(a, [c]);
    PlainAppend(a, b);
    PlainAppend(a + Lowered(c), b);
    PlainAppend(a, Lowered(c));
    PlainOne(c);
    assert c == '-' || c == '_' ==> Plain(a) + [] == Plain(a);
    hide Plain;
  }

  lemma PlainOne(c: char)
    ensures Plain([c]) == Plain(Lowered(c)) == if c == '-' || c == '_' then [] else Lowered(c)
  {
    if c == '\U{0130}' {
      PlainAppend("i", "\U{0307}");
    }
  }

  lemma {:induction false} PlainDigits(s: string)
    requires AllDigits(s)
    ensures Plain(s) == s
  {
    if s == "" {
    } else {
      assert IsDigit(s[0]);
      forall i | 0 <= i < |s[1..]|
        ensures IsDigit(s[1..][i])
      {
        assert s[1..][i] == s[i + 1];
      }
      PlainDigits(s[1..]);
      assert s == [s[0]] + s[1..];
    }
  }

  lemma WordsStartWithLetters(i: nat)
    requires i < |RAW|
    ensures RAW[i] != "" && !IsDigit(RAW[i][0])
  {
  }

  /** The label of a map entry whose key is not text never names raw authority. */
  lemma IndexLabelIsClean(i: nat)
    ensures !RawKey(Itoa(i))
  {
    var s := Itoa(i);
    PlainDigits(s);
    forall w, k | 0 <= w < |RAW| && 0 <= k <= |s|
      ensures !(RAW[w] <= s[k..])
    {
      WordsStartWithLetters(w);
      if k < |s| {
        assert s[k..][0] == s[k] && IsDigit(s[k]);
      }
    }
  }

  // ---------- object graphs ----------

  datatype Value = Prim | Ref(id: nat)

  datatype Key = Text(text: string) | Other(value: Value)

  datatype Node =
    | Arr(items: seq<Value>)
    | MapOf(entries: seq<(Key, Value)>)
    | SetOf(members: seq<Value>)
    | Obj(fields: seq<(string, Value)>)

  type Heap = map<nat, Node>

  function Refs(v: Value): set<nat> {
    if v.Ref? then {v.id} else {}
  }

  function KeyRefs(k: Key): set<nat> {
    if k.Other? then Refs(k.value) else {}
  }

  predicate Points(node: Node, to: nat) {
    match node
    case Arr(items) => exists i :: 0 <= i < |items| && to in Refs(items[i])
    case SetOf(members) => exists i :: 0 <= i < |members| && to in Refs(members[i])
    case MapOf(entries) => exists i :: 0 <= i < |entries| && (to in KeyRefs(entries[i].0) || to in Refs(entries[i].1))
    case Obj(fields) => exists i :: 0 <= i < |fields| && to in Refs(fields[i].1)
  }

  /** A key of the node names raw authority. */
  predicate Offends(node: Node) {
    match node
    case MapOf(entries) => exists i :: 0 <= i < |entries| && entries[i].0.Text? && RawKey(entries[i].0.text)
    case Obj(fields) => exists i :: 0 <= i < |fields| && RawKey(fields[i].0)
    case _ => false
  }

  ghost predicate WellFormed(heap: Heap) {
    forall n, m :: n in heap && Points(heap[n], m) ==> m in heap
  }

  ghost predicate IsPath(heap: Heap, path: seq<nat>) {
    && path != [] && (forall i :: 0 <= i < |path| ==> path[i] in heap)
    && forall i :: 0 <= i < |path| - 1 ==> Points(heap[path[i]], path[i + 1])
  }

  ghost predicate PathTo(heap: Heap, from: nat, to: nat, path: seq<nat>) {
    IsPath(heap, path) && path[0] == from && path[|path| - 1] == to
  }

  ghost predicate Reaches(heap: Heap, from: nat, to: nat) {
    exists path :: PathTo(heap, from, to, path)
  }

  /** Some object reachable from the value has a key that names raw authority. */
  ghost predicate ReachesRaw(heap: Heap, v: Value) {
    v.Ref? && exists r :: Reaches(heap, v.id, r) && r in heap && Offends(heap[r])
  }

  lemma ReachesSelf(heap: Heap, n: nat)
    requires n in heap
    ensures Reaches(heap, n, n)
  {
    assert PathTo(heap, n, n, [n]);
  }

  lemma RawBelow(heap: Heap, n: nat, child: Value)
    requires n in heap && (child.Ref? ==> Points(heap[n], child.id)) && ReachesRaw(heap, child)
    ensures ReachesRaw(heap, Ref(n))
  {
    hide Points, Offends;
    var r :| Reaches(heap, child.id, r) && r in heap && Offends(heap[r]);
    var path :| PathTo(heap, child.id, r, path);
    assert PathTo(heap, n, r, [n] + path);
  }

  /** A set of clean nodes that is closed under pointing contains everything reachable from inside. */
  lemma {:induction false} ClosedIsClean(heap: Heap, seen: set<nat>, path: seq<nat>)
    requires Explored(heap, {}, seen) && IsPath(heap, path) && path[0] in seen
    ensures path[|path| - 1] in seen
    decreases |path|
  {
    hide Points, Offends;
    if |path| <= 1 {
    } else {
      assert Points(heap[path[0]], path[1]);
      assert IsPath(heap, path[1..]);
      ClosedIsClean(heap, seen, path[1..]);
    }
  }

  // ---------- the walk ----------

  /** Every node seen since `before` is clean and all it points to is seen. */
  ghost predicate Explored(heap: Heap, before: set<nat>, seen: set<nat>) {
    before <= seen && forall r :: r in seen && r !in before ==> Settled(heap, seen, r)
  }

  ghost predicate Settled(heap: Heap, seen: set<nat>, r: nat) {
    r in heap && !Offends(heap[r]) && forall m :: Points(heap[r], m) ==> m in seen
  }

  class Walk {
    const heap: Heap
    var seen: set<nat>

    constructor (h: Heap)
      ensures heap == h && seen == {}
    {
      heap, seen := h, {};
    }

    /** True when the check returns normally, false when it throws. */
    method Deny(v: Value) returns (ok: bool)
      requires WellFormed(heap) && Refs(v) <= heap.Keys
      modifies this`seen
      ensures old(seen) <= seen
      ensures ok ==> Explored(heap, old(seen), seen) && Refs(v) <= seen
      ensures !ok ==> ReachesRaw(heap, v)
      decreases heap.Keys - seen, 1
    {
      hide WellFormed, Points, Offends, Reaches;
      ghost var before := seen;
      if v.Prim? || v.id in seen {
        return true;
      }
      seen := seen + {v.id};
      match heap[v.id] {
        case Arr(items) => ok := DenyItems(v.id, items);
        case SetOf(members) => ok := DenyItems(v.id, members);
        case MapOf(entries) => ok := DenyMap(v.id, entries);
        case Obj(fields) => ok := DenyObject(v.id, fields);
      }
      if ok {
        ExploredOne(heap, before, seen, v.id);
      }
    }

    method DenyItems(n: nat, items: seq<Value>) returns (ok: bool)
      requires WellFormed(heap) && n in heap && n in seen
      requires heap[n] == Arr(items) || heap[n] == SetOf(items)
      modifies this`seen
      ensures old(seen) <= seen
      ensures ok ==> Explored(heap, old(seen), seen) && Settled(heap, seen, n)
      ensures !ok ==> ReachesRaw(heap, Ref(n))
      decreases heap.Keys - seen, 2
    {
      hide WellFormed, ReachesRaw, Explored;
      ExploredNone(heap, seen);
      for i := 0 to |items|
        invariant old(seen) <= seen && Explored(heap, old(seen), seen)
        invariant forall k :: 0 <= k < i ==> Refs(items[k]) <= seen
      {
        ghost var before := seen;
        PointsInside(heap, n, items[i]);
        ok := Deny(items[i]);
        if !ok {
          RawBelow(heap, n, items[i]);
          return;
        }
        ExploredMore(heap, old(seen), before, seen);
      }
      ok := true;
    }

    method DenyMap(n: nat, entries: seq<(Key, Value)>) returns (ok: bool)
      requires WellFormed(heap) && n in heap && n in seen && heap[n] == MapOf(entries)
      modifies this`seen
      ensures old(seen) <= seen
      ensures ok ==> Explored(heap, old(seen), seen) && Settled(heap, seen, n)
      ensures !ok ==> ReachesRaw(heap, Ref(n))
      decreases heap.Keys - seen, 2
    {
      hide WellFormed, ReachesRaw, Explored, RawKey;
      ExploredNone(heap, seen);
      for i := 0 to |entries|
        invariant old(seen) <= seen && Explored(heap, old(seen), seen)
        invariant forall k :: 0 <= k < i ==> KeyRefs(entries[k].0) <= seen && Refs(entries[k].1) <= seen
        invariant forall k :: 0 <= k < i && entries[k].0.Text? ==> !RawKey(entries[k].0.text)
      {
        var (key, item) := entries[i];
        var name := if key.Text? then key.text else Itoa(i);
        if RawKey(name) {
          IndexLabelIsClean(i);
          RawHere(heap, n);
          return false;
        }
        if key.Other? {
          ghost var before := seen;
          PointsInside(heap, n, key.value);
          ok := Deny(key.value);
          if !ok {
            RawBelow(heap, n, key.value);
            return;
          }
          ExploredMore(heap, old(seen), before, seen);
        }
        ghost var before := seen;
        PointsInside(heap, n, item);
        ok := Deny(item);
        if !ok {
          RawBelow(heap, n, item);
          return;
        }
        ExploredMore(heap, old(seen), before, seen);
      }
      ok := true;
    }

    method DenyObject(n: nat, fields: seq<(string, Value)>) returns (ok: bool)
      requires WellFormed(heap) && n in heap && n in seen && heap[n] == Obj(fields)
      modifies this`seen
      ensures old(seen) <= seen
      ensures ok ==> Explored(heap, old(seen), seen) && Settled(heap, seen, n)
      ensures !ok ==> ReachesRaw(heap, Ref(n))
      decreases heap.Keys - seen, 2
    {
      hide WellFormed, ReachesRaw, Explored, RawKey;
      ExploredNone(heap, seen);
      for i := 0 to |fields|
        invariant old(seen) <= seen && Explored(heap, old(seen), seen)
        invariant forall k :: 0 <= k < i ==> Refs(fields[k].1) <= seen && !RawKey(fields[k].0)
      {
        var (key, item) := fields[i];
        if RawKey(key) {
          RawHere(heap, n);
          return false;
        }
        ghost var before := seen;
        PointsInside(heap, n, item);
        ok := Deny(item);
        if !ok {
          RawBelow(heap, n, item);
          return;
        }
        ExploredMore(heap, old(seen), before, seen);
      }
      ok := true;
    }
  }

  lemma ExploredNone(heap: Heap, seen: set<nat>)
    ensures Explored(heap, seen, seen)
  {
  }

  lemma ExploredMore(heap: Heap, start: set<nat>, before: set<nat>, seen: set<nat>)
    requires Explored(heap, start, before) && Explored(heap, before, seen)
    ensures Explored(heap, start, seen)
  {
    hide Points, Offends;
    forall r | r in seen && r !in start
      ensures Settled(heap, seen, r)
    {
      assert r in before ==> Settled(heap, before, r);
    }
  }

  lemma ExploredOne(heap: Heap, before: set<nat>, seen: set<nat>, n: nat)
    requires Explored(heap, before + {n}, seen) && Settled(heap, seen, n)
    ensures Explored(heap, before, seen)
  {
    hide Points, Offends;
  }

  lemma PointsInside(heap: Heap, n: nat, v: Value)
    requires WellFormed(heap) && n in heap && (v.Ref? ==> Points(heap[n], v.id))
    ensures Refs(v) <= heap.Keys
  {
    hide Points;
  }

  lemma RawHere(heap: Heap, n: nat)
    requires n in heap && Offends(heap[n])
    ensures ReachesRaw(heap, Ref(n))
  {
    hide Points, Offends;
    ReachesSelf(heap, n);
  }

  /** The check terminates on every finite graph, cycles included, and returns normally if and only
      if no reachable object or map key, stripped and lower-cased, contains a raw word. */
  method Check(heap: Heap, v: Value) returns (ok: bool)
    requires WellFormed(heap) && Refs(v) <= heap.Keys
    ensures ok <==> !ReachesRaw(heap, v)
  {
    hide WellFormed, Points, Offends, Explored;
    var walk := new Walk(heap);
    ok := walk.Deny(v);
    if ok {
      ExploredIsClean(heap, walk.seen, v);
    }
  }

  lemma ExploredIsClean(heap: Heap, seen: set<nat>, v: Value)
    requires Explored(heap, {}, seen) && Refs(v) <= seen
    ensures !ReachesRaw(heap, v)
  {
    hide Points, Offends;
    if v.Ref? {
      forall r | Reaches(heap, v.id, r)
        ensures r in seen && Settled(heap, seen, r)
      {
        var path :| PathTo(heap, v.id, r, path);
        ClosedIsClean(heap, seen, path);
      }
    }
  }
}
