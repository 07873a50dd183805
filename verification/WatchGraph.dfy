/** Bundles of scripts whose filters watch each other's projections: loading accepts exactly the
    bundles whose reactions cannot run in a circle. */
module WatchGraph {
  import opened Records
  import opened Text

  /** The parts of a manifest entry the graph passes look at; `sound` stands for the entry's own
      name, file and cadence checks. */
  datatype Script = Script(
    name: string, sound: bool, projections: seq<string>, boot: bool, everyNs: int, watches: string)

  type Edges = map<string, string>

  // ---------- chains and cycles ----------

  /** Where `n` watch edges lead from `x`, if they all exist. */
  function Follow(edges: Edges, x: string, n: nat): Option<string>
    decreases n
  {
    if n == 0 then Some(x) else if x in edges then Follow(edges, edges[x], n - 1) else None
  }

  ghost predicate HasCycle(edges: Edges) {
    exists x, n: nat :: n > 0 && Follow(edges, x, n) == Some(x)
  }

  ghost predicate Terminates(edges: Edges, x: string) {
    exists n: nat :: Follow(edges, x, n).None?
  }

  lemma {:induction false} FollowAdds(edges: Edges, x: string, m: nat, n: nat)
    ensures Follow(edges, x, m + n)
            == if Follow(edges, x, m).None? then None else Follow(edges, Follow(edges, x, m).value, n)
    decreases m
  {
    if m == 0 || x !in edges {
    } else {
      FollowAdds(edges, edges[x], m - 1, n);
    }
  }

  lemma {:induction false} CycleGoesOn(edges: Edges, x: string, k: nat, n: nat)
    requires k > 0 && Follow(edges, x, k) == Some(x)
    ensures Follow(edges, x, n).Some?
    decreases n
  {
    if n <= k {
      FollowAdds(edges, x, n, k - n);
    } else {
      CycleGoesOn(edges, x, k, n - k);
      FollowAdds(edges, x, k, n - k);
    }
  }

  /** A graph has no cycle if and only if every chain ends. */
  lemma TerminatingMeansAcyclic(edges: Edges)
    requires forall x :: x in edges ==> Terminates(edges, x)
    ensures !HasCycle(edges)
  {
    hide Follow;
    if HasCycle(edges) {
      var x, k: nat :| k > 0 && Follow(edges, x, k) == Some(x);
      OnEdge(edges, x, k);
      var n: nat :| Follow(edges, x, n).None?;
      CycleGoesOn(edges, x, k, n);
    }
  }

  lemma OnEdge(edges: Edges, x: string, k: nat)
    requires k > 0 && Follow(edges, x, k).Some?
    ensures x in edges
  {
  }

  // ---------- the bound on chains ----------

  function Visited(edges: Edges, x: string, n: nat): set<string>
    requires Follow(edges, x, n).Some?
    decreases n
  {
    if n == 0 then {x} else Visited(edges, edges[x], n - 1) + {x}
  }

  lemma {:induction false} VisitedMembers(edges: Edges, x: string, n: nat, y: string)
    requires Follow(edges, x, n).Some? && y in Visited(edges, x, n)
    ensures exists i: nat :: i <= n && Follow(edges, x, i) == Some(y)
    decreases n
  {
    if y == x {
      assert Follow(edges, x, 0) == Some(y);
    } else {
      VisitedMembers(edges, edges[x], n - 1, y);
      var i: nat :| i <= n - 1 && Follow(edges, edges[x], i) == Some(y);
      assert Follow(edges, x, i + 1) == Some(y);
    }
  }

  lemma {:induction false} VisitedDistinct(edges: Edges, x: string, n: nat)
    requires !HasCycle(edges) && Follow(edges, x, n).Some?
    ensures |Visited(edges, x, n)| == n + 1
    decreases n
  {
    if n == 0 {
    } else {
      VisitedDistinct(edges, edges[x], n - 1);
      if x in Visited(edges, edges[x], n - 1) {
        BackToStart(edges, x, n);
      }
    }
  }

  lemma BackToStart(edges: Edges, x: string, n: nat)
    requires n > 0 && Follow(edges, x, n).Some? && x in Visited(edges, edges[x], n - 1)
    ensures HasCycle(edges)
  {
    VisitedMembers(edges, edges[x], n - 1, x);
    var i: nat :| i <= n - 1 && Follow(edges, edges[x], i) == Some(x);
    assert Follow(edges, x, i + 1) == Some(x);
  }

  ghost predicate Inside(edges: Edges, names: set<string>) {
    forall x :: x in edges ==> x in names && edges[x] in names
  }

  lemma {:induction false} VisitedInside(edges: Edges, names: set<string>, x: string, n: nat)
    requires Inside(edges, names) && x in names && Follow(edges, x, n).Some?
    ensures Visited(edges, x, n) <= names
    decreases n
  {
    if n == 0 {
    } else {
      VisitedInside(edges, names, edges[x], n - 1);
    }
  }

  lemma SubsetSmaller<T>(a: set<T>, b: set<T>)
    requires a <= b
    ensures |a| <= |b|
    decreases a
  {
    if a == {} {
    } else {
      var x :| x in a;
      SubsetSmaller(a - {x}, b - {x});
    }
  }

  /** Without a cycle, a chain of `n` edges needs more than `n` scripts. */
  lemma ChainsAreShort(edges: Edges, names: set<string>, x: string, n: nat)
    requires !HasCycle(edges) && Inside(edges, names) && x in names && Follow(edges, x, n).Some?
    ensures n < |names|
  {
    hide HasCycle, Follow, Visited;
    VisitedDistinct(edges, x, n);
    VisitedInside(edges, names, x, n);
    SubsetSmaller(Visited(edges, x, n), names);
  }

  // ---------- the search ----------

  class Search {
    const edges: Edges
    const nodes: set<string>
    var visited: set<string>
    var inStack: set<string>

    constructor (e: Edges, n: set<string>)
      requires Inside(e, n)
      ensures edges == e && nodes == n && visited == {} && inStack == {}
    {
      edges, nodes, visited, inStack := e, n, {}, {};
    }

    ghost predicate Valid()
      reads this
    {
      && Inside(edges, nodes) && inStack <= visited <= nodes
      && forall x :: x in visited && x !in inStack ==> Terminates(edges, x)
    }

    /** Everything on the stack leads here. */
    ghost predicate StackLeadsTo(name: string)
      reads this
    {
      forall x :: x in inStack ==> LeadsTo(edges, x, name)
    }

    /** True when a cycle was found. */
    method Visit(name: string) returns (cycle: bool)
      requires Valid() && StackLeadsTo(name) && name in nodes
      modifies this`visited, this`inStack
      ensures cycle ==> HasCycle(edges)
      ensures !cycle ==> Valid() && inStack == old(inStack) && old(visited) <= visited && Terminates(edges, name)
      decreases nodes - visited
    {
      hide Follow, HasCycle, Terminates, LeadsTo, Inside;
      if name in inStack {
        StackClosesCycle(edges, name);
        return true;
      }
      if name in visited {
        return false;
      }
      ghost var stack := inStack;
      visited := visited + {name};
      inStack := inStack + {name};
      if name in edges {
        EdgeInside(edges, nodes, name);
        forall x | x in inStack
          ensures LeadsTo(edges, x, edges[name])
        {
          LeadsOn(edges, x, name);
        }
        var found := Visit(edges[name]);
        if found {
          return true;
        }
        TerminatesBefore(edges, name);
      } else {
        EndsHere(edges, name);
      }
      inStack := inStack - {name};
      assert inStack == stack;
      cycle := false;
    }
  }

  ghost predicate LeadsTo(edges: Edges, x: string, y: string) {
    exists k: nat :: k > 0 && Follow(edges, x, k) == Some(y)
  }

  lemma StackClosesCycle(edges: Edges, x: string)
    requires LeadsTo(edges, x, x)
    ensures HasCycle(edges)
  {
  }

  lemma EdgeInside(edges: Edges, names: set<string>, x: string)
    requires Inside(edges, names) && x in edges
    ensures edges[x] in names
  {
  }

  lemma LeadsOn(edges: Edges, x: string, y: string)
    requires y in edges && (x == y || LeadsTo(edges, x, y))
    ensures LeadsTo(edges, x, edges[y])
  {
    if x == y {
      assert Follow(edges, x, 1) == Some(edges[y]);
    } else {
      var k: nat :| k > 0 && Follow(edges, x, k) == Some(y);
      FollowAdds(edges, x, k, 1);
      assert Follow(edges, y, 1) == Some(edges[y]);
      assert Follow(edges, x, k + 1) == Some(edges[y]);
    }
  }

  lemma TerminatesBefore(edges: Edges, x: string)
    requires x in edges && Terminates(edges, edges[x])
    ensures Terminates(edges, x)
  {
    var n: nat :| Follow(edges, edges[x], n).None?;
    assert Follow(edges, x, n + 1).None?;
  }

  lemma EndsHere(edges: Edges, x: string)
    requires x !in edges
    ensures Terminates(edges, x)
  {
    assert Follow(edges, x, 1).None?;
  }

  // ---------- the watches graph of a manifest ----------

  function Names(scripts: seq<Script>): set<string> {
    set i | 0 <= i < |scripts| :: scripts[i].name
  }

  lemma {:induction false} NamesBound(scripts: seq<Script>)
    ensures |Names(scripts)| <= |scripts|
  {
    if scripts == [] {
    } else {
      var front := scripts[..|scripts| - 1];
      NamesBound(front);
      assert Names(scripts) == Names(front) + {scripts[|scripts| - 1].name} by {
        forall i | 0 <= i < |scripts|
          ensures scripts[i].name in Names(front) + {scripts[|scripts| - 1].name}
        {
          assert i < |front| ==> front[i] == scripts[i];
        }
        forall i | 0 <= i < |front|
          ensures front[i].name in Names(scripts)
        {
          assert front[i] == scripts[i];
        }
      }
    }
  }

  function WatchEdges(scripts: seq<Script>, owners: map<string, string>): Edges {
    if scripts == [] then map[]
    else
      var e := scripts[|scripts| - 1];
      var rest := WatchEdges(scripts[..|scripts| - 1], owners);
      if e.watches != "" && e.watches in owners then rest[e.name := owners[e.watches]] else rest
  }

  lemma {:induction false} EdgesInside(scripts: seq<Script>, owners: map<string, string>, names: set<string>)
    requires Names(scripts) <= names && forall p :: p in owners ==> owners[p] in names
    ensures Inside(WatchEdges(scripts, owners), names)
    ensures WatchEdges(scripts, owners).Keys <= Names(scripts)
  {
    if scripts == [] {
    } else {
      var front, e := scripts[..|scripts| - 1], scripts[|scripts| - 1];
      assert e.name in Names(scripts);
      forall i | 0 <= i < |front|
        ensures front[i].name in Names(scripts)
      {
        assert front[i] == scripts[i];
      }
      EdgesInside(front, owners, names);
    }
  }

  /** The check fails if and only if the watches graph has a cycle. */
  method CheckWatchDAG(scripts: seq<Script>, owners: map<string, string>) returns (ok: bool)
    requires forall p :: p in owners ==> owners[p] in Names(scripts)
    ensures ok <==> !HasCycle(WatchEdges(scripts, owners))
  {
    hide HasCycle, Terminates, LeadsTo, Inside, Follow;
    var edges: Edges := map[];
    for i := 0 to |scripts|
      invariant edges == WatchEdges(scripts[..i], owners)
    {
      var e := scripts[i];
      assert scripts[..i + 1][..i] == scripts[..i];
      if e.watches != "" && e.watches in owners {
        edges := edges[e.name := owners[e.watches]];
      }
    }
    assert scripts[..|scripts|] == scripts;
    EdgesInside(scripts, owners, Names(scripts));
    var search := new Search(edges, Names(scripts));
    for i := 0 to |scripts|
      invariant search.Valid() && search.inStack == {}
      invariant forall k :: 0 <= k < i ==> Terminates(edges, scripts[k].name)
    {
      var cycle := search.Visit(scripts[i].name);
      if cycle {
        return false;
      }
    }
    AllTerminate(scripts, edges);
    TerminatingMeansAcyclic(edges);
    ok := true;
  }

  lemma AllTerminate(scripts: seq<Script>, edges: Edges)
    requires edges.Keys <= Names(scripts)
    requires forall k :: 0 <= k < |scripts| ==> Terminates(edges, scripts[k].name)
    ensures forall x :: x in edges ==> Terminates(edges, x)
  {
    hide Terminates;
    forall x | x in edges
      ensures Terminates(edges, x)
    {
      assert x in Names(scripts);
    }
  }

  // ---------- loading ----------

  predicate NoRepeats(s: seq<string>) {
    forall i, j :: 0 <= i < j < |s| ==> s[i] != s[j]
  }

  function Listed(scripts: seq<Script>): seq<string> {
    if scripts == [] then [] else Listed(scripts[..|scripts| - 1]) + scripts[|scripts| - 1].projections
  }

  function WithOwner(owners: map<string, string>, projections: seq<string>, name: string): map<string, string> {
    if projections == [] then owners
    else WithOwner(owners, projections[..|projections| - 1], name)[projections[|projections| - 1] := name]
  }

  function Owners(scripts: seq<Script>): map<string, string> {
    if scripts == [] then map[]
    else
      var e := scripts[|scripts| - 1];
      WithOwner(Owners(scripts[..|scripts| - 1]), e.projections, e.name)
  }

  function NameList(scripts: seq<Script>): seq<string> {
    seq(|scripts|, i requires 0 <= i < |scripts| => scripts[i].name)
  }

  predicate EntryOk(e: Script) {
    ValidToken(e.name) && e.sound && forall i :: 0 <= i < |e.projections| ==> ValidToken(e.projections[i])
  }

  predicate EntriesOk(scripts: seq<Script>) {
    && (forall i :: 0 <= i < |scripts| ==> EntryOk(scripts[i]))
    && NoRepeats(NameList(scripts)) && NoRepeats(Listed(scripts))
  }

  predicate FilterOk(e: Script, owners: map<string, string>) {
    e.watches != "" ==>
      && ValidToken(e.watches) && !e.boot && e.everyNs <= 0 && e.projections != []
      && e.watches in owners && owners[e.watches] != e.name
  }

  ghost predicate Acceptable(scripts: seq<Script>) {
    && scripts != [] && EntriesOk(scripts)
    && (forall i :: 0 <= i < |scripts| ==> FilterOk(scripts[i], Owners(scripts)))
    && !HasCycle(WatchEdges(scripts, Owners(scripts)))
  }

  function Elems(s: seq<string>): set<string> {
    set x | x in s
  }

  lemma RepeatsAppend(s: seq<string>, x: string)
    requires NoRepeats(s)
    ensures NoRepeats(s + [x]) <==> x !in s
  {
    var t := s + [x];
    if x in s {
      var i :| 0 <= i < |s| && s[i] == x;
      assert t[i] == t[|s|];
    }
  }

  lemma RepeatsFront(s: seq<string>, t: seq<string>)
    requires NoRepeats(s + t)
    ensures NoRepeats(s)
  {
    forall i, j | 0 <= i < j < |s|
      ensures s[i] != s[j]
    {
      assert (s + t)[i] == s[i] && (s + t)[j] == s[j];
    }
  }

  /** One entry's projections: all well named, and none listed before. */
  method TakeProjections(e: Script, seen: set<string>, owners: map<string, string>, ghost listed: seq<string>)
    returns (ok: bool, seen2: set<string>, owners2: map<string, string>)
    requires seen == Elems(listed) && NoRepeats(listed)
    ensures ok <==> NoRepeats(listed + e.projections)
                    && forall i :: 0 <= i < |e.projections| ==> ValidToken(e.projections[i])
    ensures ok ==> seen2 == Elems(listed + e.projections) && owners2 == WithOwner(owners, e.projections, e.name)
  {
    hide ValidToken, NoRepeats;
    seen2, owners2 := seen, owners;
    assert listed + e.projections[..0] == listed;
    for i := 0 to |e.projections|
      invariant seen2 == Elems(listed + e.projections[..i]) && NoRepeats(listed + e.projections[..i])
      invariant owners2 == WithOwner(owners, e.projections[..i], e.name)
      invariant forall k :: 0 <= k < i ==> ValidToken(e.projections[k])
    {
      var p := e.projections[i];
      if !ValidToken(p) {
        return false, seen2, owners2;
      }
      var before := listed + e.projections[..i];
      assert before + [p] == listed + e.projections[..i + 1];
      RepeatsAppend(before, p);
      if p in seen2 {
        assert listed + e.projections == listed + e.projections[..i + 1] + e.projections[i + 1..];
        if NoRepeats(listed + e.projections) {
          RepeatsFront(listed + e.projections[..i + 1], e.projections[i + 1..]);
        }
        return false, seen2, owners2;
      }
      assert e.projections[..i + 1][..i] == e.projections[..i];
      seen2, owners2 := seen2 + {p}, owners2[p := e.name];
      assert seen2 == Elems(before + [p]);
    }
    assert e.projections[..|e.projections|] == e.projections;
    ok := true;
  }

  /** The first pass: every entry sound, no name and no projection twice; it also learns the owners. */
  method TakeEntries(scripts: seq<Script>) returns (ok: bool, owners: map<string, string>)
    ensures ok <==> EntriesOk(scripts)
    ensures ok ==> owners == Owners(scripts)
  {
    hide EntriesOk, ValidToken, NoRepeats, WithOwner;
    var seenNames: set<string>, seenProjections: set<string> := {}, {};
    owners := map[];
    NothingListed();
    for i := 0 to |scripts|
      invariant EntriesOk(scripts[..i]) && owners == Owners(scripts[..i])
      invariant seenNames == Elems(NameList(scripts[..i])) && seenProjections == Elems(Listed(scripts[..i]))
    {
      var e := scripts[i];
      EntriesNext(scripts, i);
      assert EntryOk(e) <==> ValidToken(e.name) && e.sound
                             && forall k :: 0 <= k < |e.projections| ==> ValidToken(e.projections[k]);
      if !(ValidToken(e.name) && e.sound) || e.name in seenNames {
        return false, owners;
      }
      var listed: bool;
      ListedUnique(scripts[..i]);
      listed, seenProjections, owners := TakeProjections(e, seenProjections, owners, Listed(scripts[..i]));
      if !listed {
        return false, owners;
      }
      seenNames := seenNames + {e.name};
      assert scripts[..i + 1][..i] == scripts[..i];
      assert seenNames == Elems(NameList(scripts[..i]) + [e.name]);
    }
    assert scripts[..|scripts|] == scripts;
    ok := true;
  }

  lemma ListedUnique(scripts: seq<Script>)
    requires EntriesOk(scripts)
    ensures NoRepeats(Listed(scripts))
  {
  }

  lemma NothingListed()
    ensures EntriesOk([])
  {
  }

  /** Adding entry `i` keeps the entries sound exactly when the pass lets it through. */
  lemma EntriesNext(scripts: seq<Script>, i: nat)
    requires i < |scripts| && EntriesOk(scripts[..i])
    ensures var e := scripts[i];
      && NameList(scripts[..i + 1]) == NameList(scripts[..i]) + [e.name]
      && Listed(scripts[..i + 1]) == Listed(scripts[..i]) + e.projections
      && (EntriesOk(scripts[..i + 1]) <==>
            EntryOk(e) && e.name !in NameList(scripts[..i]) && NoRepeats(Listed(scripts[..i]) + e.projections))
      && (EntriesOk(scripts) ==> EntriesOk(scripts[..i + 1]))
  {
    hide EntryOk, NoRepeats;
    var e, now, next := scripts[i], scripts[..i], scripts[..i + 1];
    assert next[..i] == now && next[i] == e;
    assert NameList(next) == NameList(now) + [e.name];
    RepeatsAppend(NameList(now), e.name);
    EntriesPrefix(scripts, i + 1);
  }

  lemma EntriesPrefix(scripts: seq<Script>, n: nat)
    requires n <= |scripts|
    ensures EntriesOk(scripts) ==> EntriesOk(scripts[..n])
  {
    hide EntryOk, NoRepeats;
    var front := scripts[..n];
    if EntriesOk(scripts) {
      var more := ListedPrefix(scripts, n);
      RepeatsFront(Listed(front), more);
      assert NameList(scripts) == NameList(front) + NameList(scripts[n..]);
      RepeatsFront(NameList(front), NameList(scripts[n..]));
    }
  }

  lemma {:induction false} ListedPrefix(scripts: seq<Script>, n: nat) returns (more: seq<string>)
    requires n <= |scripts|
    ensures Listed(scripts) == Listed(scripts[..n]) + more
    decreases |scripts|
  {
    if n == |scripts| {
      more := [];
      assert scripts[..n] == scripts;
    } else {
      var front := scripts[..|scripts| - 1];
      more := ListedPrefix(front, n);
      assert front[..n] == scripts[..n];
      more := more + scripts[|scripts| - 1].projections;
    }
  }

  /** Loading succeeds exactly on the acceptable bundles. */
  method LoadBundle(scripts: seq<Script>) returns (ok: bool)
    ensures ok <==> Acceptable(scripts)
  {
    hide EntriesOk, FilterOk, HasCycle, Owners, WatchEdges;
    if scripts == [] {
      return false;
    }
    var owners: map<string, string>;
    ok, owners := TakeEntries(scripts);
    if !ok {
      return;
    }
    for i := 0 to |scripts|
      invariant forall k :: 0 <= k < i ==> FilterOk(scripts[k], owners)
    {
      if !FilterOk(scripts[i], owners) {
        return false;
      }
    }
    OwnersAreNames(scripts);
    ok := CheckWatchDAG(scripts, owners);
  }

  lemma {:induction false} WithOwnerMeans(owners: map<string, string>, projections: seq<string>, name: string)
    ensures forall p :: p in WithOwner(owners, projections, name) <==> p in owners || p in projections
    ensures forall p :: p in WithOwner(owners, projections, name) ==>
      WithOwner(owners, projections, name)[p] == if p in projections then name else owners[p]
  {
    if projections == [] {
    } else {
      WithOwnerMeans(owners, projections[..|projections| - 1], name);
      assert projections == projections[..|projections| - 1] + [projections[|projections| - 1]];
    }
  }

  /** Owners are scripts of the bundle, and each owner lists its projection. */
  lemma {:induction false} OwnersMean(scripts: seq<Script>)
    ensures forall p :: p in Owners(scripts) <==> p in Listed(scripts)
    ensures forall p :: p in Owners(scripts) ==>
      exists i :: 0 <= i < |scripts| && scripts[i].name == Owners(scripts)[p] && p in scripts[i].projections
  {
    hide WithOwner;
    if scripts == [] {
    } else {
      var front, e := scripts[..|scripts| - 1], scripts[|scripts| - 1];
      OwnersMean(front);
      WithOwnerMeans(Owners(front), e.projections, e.name);
      forall p | p in Owners(scripts)
        ensures exists i :: 0 <= i < |scripts| && scripts[i].name == Owners(scripts)[p] && p in scripts[i].projections
      {
        if p in e.projections {
          assert scripts[|scripts| - 1].name == Owners(scripts)[p];
        } else {
          var i :| 0 <= i < |front| && front[i].name == Owners(front)[p] && p in front[i].projections;
          assert scripts[i] == front[i];
        }
      }
    }
  }

  lemma OwnersAreNames(scripts: seq<Script>)
    ensures forall p :: p in Owners(scripts) ==> Owners(scripts)[p] in Names(scripts)
  {
    hide Owners, Listed;
    OwnersMean(scripts);
  }

  /** In a loaded bundle every chain of filter reactions has fewer steps than there are scripts. */
  lemma ReactionsEnd(scripts: seq<Script>, x: string, n: nat)
    requires Acceptable(scripts) && x in Names(scripts)
    requires Follow(WatchEdges(scripts, Owners(scripts)), x, n).Some?
    ensures n < |scripts|
  {
    hide HasCycle, Follow, Owners, WatchEdges, EntriesOk, FilterOk, Names;
    OwnersAreNames(scripts);
    EdgesInside(scripts, Owners(scripts), Names(scripts));
    ChainsAreShort(WatchEdges(scripts, Owners(scripts)), Names(scripts), x, n);
    NamesBound(scripts);
  }

  // ---------- acceptable, read off the scripts ----------

  /** One or more of a-z (97 to 122), 0-9 (48 to 57) and the dash (45). */
  predicate NameText(s: string) {
    |s| > 0 && forall i :: 0 <= i < |s| ==>
      97 <= s[i] as int <= 122 || 48 <= s[i] as int <= 57 || s[i] as int == 45
  }

  /** Script `i` is a filter on a projection of script `j`. */
  predicate Watching(scripts: seq<Script>, i: nat, j: nat)
    requires i < |scripts| && j < |scripts|
  {
    scripts[i].watches != "" && scripts[i].watches in scripts[j].projections
  }

  /** Scripts each watching the next one, and the last one the first. */
  ghost predicate Circle(scripts: seq<Script>, path: seq<nat>) {
    && path != [] && (forall k :: 0 <= k < |path| ==> path[k] < |scripts|)
    && forall k :: 0 <= k < |path| ==> Watching(scripts, path[k], path[if k + 1 == |path| then 0 else k + 1])
  }

  /** The `k`-th projection of script `i` and the `l`-th of script `j` have one name. */
  predicate SameProjection(scripts: seq<Script>, i: int, k: int, j: int, l: int) {
    && 0 <= i < |scripts| && 0 <= k < |scripts[i].projections|
    && 0 <= j < |scripts| && 0 <= l < |scripts[j].projections|
    && scripts[i].projections[k] == scripts[j].projections[l]
  }

  predicate NamesOnce(scripts: seq<Script>) {
    forall i, j :: 0 <= i < |scripts| && 0 <= j < |scripts| && scripts[i].name == scripts[j].name ==> i == j
  }

  ghost predicate EntriesSound(scripts: seq<Script>) {
    && (forall i :: 0 <= i < |scripts| ==> NameText(scripts[i].name) && scripts[i].sound)
    && (forall i, k :: 0 <= i < |scripts| && 0 <= k < |scripts[i].projections| ==> NameText(scripts[i].projections[k]))
    && NamesOnce(scripts)
    && forall i, j, k, l :: SameProjection(scripts, i, k, j, l) ==> i == j && k == l
  }

  /** A filter has no other trigger, projects something, and watches another script. */
  ghost predicate FilterSound(scripts: seq<Script>, i: nat)
    requires i < |scripts|
  {
    scripts[i].watches != "" ==>
      && !scripts[i].boot && scripts[i].everyNs <= 0 && |scripts[i].projections| > 0
      && exists j :: 0 <= j < |scripts| && j != i && Watching(scripts, i, j)
  }

  lemma NamesAgree(s: string)
    ensures ValidToken(s) <==> NameText(s)
  {
    TokenExactly(s);
  }

  /** Where the `k`-th projection of script `i` stands in the list of all. */
  lemma {:induction false} ListedAt(scripts: seq<Script>, i: nat, k: nat) returns (at: nat)
    requires i < |scripts| && k < |scripts[i].projections|
    ensures at == |Listed(scripts[..i])| + k < |Listed(scripts)| && Listed(scripts)[at] == scripts[i].projections[k]
    decreases |scripts|
  {
    var front := scripts[..|scripts| - 1];
    if i == |scripts| - 1 {
      at := |Listed(front)| + k;
    } else {
      at := ListedAt(front, i, k);
      assert front[..i] == scripts[..i];
    }
  }

  lemma {:induction false} ListedWhere(scripts: seq<Script>, at: nat) returns (i: nat, k: nat)
    requires at < |Listed(scripts)|
    ensures i < |scripts| && k < |scripts[i].projections| && at == |Listed(scripts[..i])| + k
    ensures Listed(scripts)[at] == scripts[i].projections[k]
    decreases |scripts|
  {
    var front := scripts[..|scripts| - 1];
    if at >= |Listed(front)| {
      i, k := |scripts| - 1, at - |Listed(front)|;
    } else {
      i, k := ListedWhere(front, at);
      assert front[..i] == scripts[..i];
    }
  }

  lemma {:induction false} ListedGrows(scripts: seq<Script>, i: nat, j: nat)
    requires i < j <= |scripts|
    ensures |Listed(scripts[..i])| + |scripts[i].projections| <= |Listed(scripts[..j])|
    decreases j
  {
    assert scripts[..j][..j - 1] == scripts[..j - 1];
    if i < j - 1 {
      ListedGrows(scripts, i, j - 1);
    }
  }

  lemma ListedOnce(scripts: seq<Script>)
    ensures NoRepeats(Listed(scripts)) <==>
      forall i, j, k, l :: SameProjection(scripts, i, k, j, l) ==> i == j && k == l
  {
    hide Listed;
    if NoRepeats(Listed(scripts)) {
      forall i, j, k, l | SameProjection(scripts, i, k, j, l)
        ensures i == j && k == l
      {
        var a := ListedAt(scripts, i, k);
        var b := ListedAt(scripts, j, l);
        if i < j {
          ListedGrows(scripts, i, j);
        } else if j < i {
          ListedGrows(scripts, j, i);
        }
      }
    } else {
      var a, b :| 0 <= a < b < |Listed(scripts)| && Listed(scripts)[a] == Listed(scripts)[b];
      var i, k := ListedWhere(scripts, a);
      var j, l := ListedWhere(scripts, b);
      assert SameProjection(scripts, i, k, j, l);
    }
  }

  lemma EntriesExactly(scripts: seq<Script>)
    ensures EntriesOk(scripts) <==> EntriesSound(scripts)
  {
    ListedOnce(scripts);
    forall s: string
      ensures ValidToken(s) <==> NameText(s)
    {
      NamesAgree(s);
    }
    hide ValidToken, NameText, Listed;
    assert forall i :: 0 <= i < |scripts| ==> NameList(scripts)[i] == scripts[i].name;
  }

  /** In sound entries the owner of a projection is the one script that lists it. */
  lemma OwnerIs(scripts: seq<Script>, p: string, j: nat)
    requires EntriesSound(scripts) && j < |scripts| && p in scripts[j].projections
    ensures p in Owners(scripts) && Owners(scripts)[p] == scripts[j].name
  {
    hide EntriesSound, Owners, Listed;
    OwnersMean(scripts);
    var k :| 0 <= k < |scripts[j].projections| && scripts[j].projections[k] == p;
    var at := ListedAt(scripts, j, k);
    var i :| 0 <= i < |scripts| && scripts[i].name == Owners(scripts)[p] && p in scripts[i].projections;
    var l :| 0 <= l < |scripts[i].projections| && scripts[i].projections[l] == p;
    ProjectedOnce(scripts, i, l, j, k);
  }

  lemma ProjectedOnce(scripts: seq<Script>, i: nat, k: nat, j: nat, l: nat)
    requires EntriesSound(scripts) && SameProjection(scripts, i, k, j, l)
    ensures i == j && k == l
  {
    hide NameText;
  }

  lemma OwnedBySome(scripts: seq<Script>, p: string) returns (j: nat)
    requires p in Owners(scripts)
    ensures j < |scripts| && p in scripts[j].projections && Owners(scripts)[p] == scripts[j].name
  {
    hide Owners, Listed;
    OwnersMean(scripts);
    j :| 0 <= j < |scripts| && scripts[j].name == Owners(scripts)[p] && p in scripts[j].projections;
  }

  lemma FilterExactly(scripts: seq<Script>, i: nat)
    requires EntriesSound(scripts) && i < |scripts|
    ensures FilterOk(scripts[i], Owners(scripts)) <==> FilterSound(scripts, i)
  {
    hide Owners, NameText, ValidToken;
    var e := scripts[i];
    if e.watches in Owners(scripts) {
      var j := OwnedBySome(scripts, e.watches);
      assert Watching(scripts, i, j) || e.watches == "";
      var l :| 0 <= l < |scripts[j].projections| && scripts[j].projections[l] == e.watches;
      NamesAgree(e.watches);
    }
    if FilterSound(scripts, i) && e.watches != "" {
      var j :| 0 <= j < |scripts| && j != i && Watching(scripts, i, j);
      OwnerIs(scripts, e.watches, j);
    }
  }

  /** Edges are the watch relation, by name. */
  lemma {:induction false} EdgesMean(scripts: seq<Script>, owners: map<string, string>)
    ensures forall x :: x in WatchEdges(scripts, owners) ==>
      exists i :: 0 <= i < |scripts| && scripts[i].name == x && scripts[i].watches != "" && scripts[i].watches in owners
    ensures NamesOnce(scripts) ==>
      forall i :: 0 <= i < |scripts| && scripts[i].watches != "" && scripts[i].watches in owners ==>
        scripts[i].name in WatchEdges(scripts, owners)
        && WatchEdges(scripts, owners)[scripts[i].name] == owners[scripts[i].watches]
  {
    if scripts == [] {
    } else {
      var front := scripts[..|scripts| - 1];
      EdgesMean(front, owners);
      assert forall i :: 0 <= i < |front| ==> front[i] == scripts[i];
      forall x | x in WatchEdges(scripts, owners)
        ensures exists i :: 0 <= i < |scripts| && scripts[i].name == x && scripts[i].watches != ""
                            && scripts[i].watches in owners
      {
        if x in WatchEdges(front, owners) {
          var i :| 0 <= i < |front| && front[i].name == x && front[i].watches != "" && front[i].watches in owners;
          assert scripts[i].name == x;
        } else {
          assert scripts[|scripts| - 1].name == x;
        }
      }
    }
  }

  lemma StepExactly(scripts: seq<Script>, i: nat)
    requires EntriesSound(scripts) && i < |scripts|
    ensures var edges := WatchEdges(scripts, Owners(scripts));
      && (scripts[i].name in edges ==>
            exists j :: 0 <= j < |scripts| && Watching(scripts, i, j) && edges[scripts[i].name] == scripts[j].name)
      && forall j :: 0 <= j < |scripts| && Watching(scripts, i, j) ==>
           scripts[i].name in edges && edges[scripts[i].name] == scripts[j].name
  {
    hide NameText, Owners, WatchEdges;
    var owners := Owners(scripts);
    EdgesMean(scripts, owners);
    if scripts[i].name in WatchEdges(scripts, owners) {
      var k :| 0 <= k < |scripts| && scripts[k].name == scripts[i].name && scripts[k].watches != ""
               && scripts[k].watches in owners;
      var j := OwnedBySome(scripts, scripts[i].watches);
      assert Watching(scripts, i, j);
    }
    forall j | 0 <= j < |scripts| && Watching(scripts, i, j)
      ensures scripts[i].name in WatchEdges(scripts, owners)
      ensures WatchEdges(scripts, owners)[scripts[i].name] == scripts[j].name
    {
      OwnerIs(scripts, scripts[i].watches, j);
    }
  }

  /** A chain of edges is a chain of watching scripts. */
  lemma {:induction false} ChainOf(scripts: seq<Script>, i: nat, n: nat) returns (path: seq<nat>)
    requires EntriesSound(scripts) && i < |scripts|
    requires Follow(WatchEdges(scripts, Owners(scripts)), scripts[i].name, n).Some?
    ensures |path| == n + 1 && path[0] == i && (forall k :: 0 <= k <= n ==> path[k] < |scripts|)
    ensures forall k :: 0 <= k < n ==> Watching(scripts, path[k], path[k + 1])
    ensures Follow(WatchEdges(scripts, Owners(scripts)), scripts[i].name, n).value == scripts[path[n]].name
    decreases n
  {
    hide EntriesSound, Watching, WatchEdges, Owners;
    if n == 0 {
      path := [i];
    } else {
      StepExactly(scripts, i);
      var edges := WatchEdges(scripts, Owners(scripts));
      var j :| 0 <= j < |scripts| && Watching(scripts, i, j) && edges[scripts[i].name] == scripts[j].name;
      var rest := ChainOf(scripts, j, n - 1);
      path := [i] + rest;
    }
  }

  lemma {:induction false} ChainLeads(scripts: seq<Script>, path: seq<nat>)
    requires EntriesSound(scripts) && path != [] && forall k :: 0 <= k < |path| ==> path[k] < |scripts|
    requires forall k :: 0 <= k < |path| - 1 ==> Watching(scripts, path[k], path[k + 1])
    ensures Follow(WatchEdges(scripts, Owners(scripts)), scripts[path[0]].name, |path| - 1)
            == Some(scripts[path[|path| - 1]].name)
    decreases |path|
  {
    hide EntriesSound, Watching, WatchEdges, Owners;
    if |path| == 1 {
    } else {
      StepExactly(scripts, path[0]);
      assert Watching(scripts, path[0], path[1]);
      ChainLeads(scripts, path[1..]);
    }
  }

  lemma CirclesExactly(scripts: seq<Script>)
    requires EntriesSound(scripts)
    ensures HasCycle(WatchEdges(scripts, Owners(scripts))) <==> exists path :: Circle(scripts, path)
  {
    hide EntriesSound, Watching, WatchEdges, Owners, Follow;
    var edges := WatchEdges(scripts, Owners(scripts));
    if HasCycle(edges) {
      var x, n: nat :| n > 0 && Follow(edges, x, n) == Some(x);
      var i := CycleStart(scripts, x, n);
      var chain := ChainOf(scripts, i, n);
      NamedOnce(scripts, i, chain[n]);
      assert Circle(scripts, chain[..n]) by {
        forall k | 0 <= k < n
          ensures Watching(scripts, chain[..n][k], chain[..n][if k + 1 == n then 0 else k + 1])
        {
          assert Watching(scripts, chain[k], chain[k + 1]);
        }
      }
    }
    if path :| Circle(scripts, path) {
      var n := |path|;
      var closed := path + [path[0]];
      forall k | 0 <= k < n
        ensures Watching(scripts, closed[k], closed[k + 1])
      {
        assert Watching(scripts, path[k], path[if k + 1 == n then 0 else k + 1]);
      }
      ChainLeads(scripts, closed);
    }
  }

  lemma NamedOnce(scripts: seq<Script>, i: nat, j: nat)
    requires EntriesSound(scripts) && i < |scripts| && j < |scripts| && scripts[i].name == scripts[j].name
    ensures i == j
  {
  }

  lemma CycleStart(scripts: seq<Script>, x: string, n: nat) returns (i: nat)
    requires n > 0 && Follow(WatchEdges(scripts, Owners(scripts)), x, n).Some?
    ensures i < |scripts| && scripts[i].name == x
  {
    hide WatchEdges, Owners;
    EdgesMean(scripts, Owners(scripts));
    i :| 0 <= i < |scripts| && scripts[i].name == x;
  }

  /** A bundle loads if and only if it has scripts, all soundly named and complete, no name and no
      projection twice, every filter watches another script and has no other trigger, and no scripts
      watch each other in a circle. */
  lemma AcceptableExactly(scripts: seq<Script>)
    ensures Acceptable(scripts) <==>
      && scripts != [] && EntriesSound(scripts)
      && (forall i :: 0 <= i < |scripts| ==> FilterSound(scripts, i))
      && !exists path :: Circle(scripts, path)
  {
    hide EntriesOk, EntriesSound, FilterOk, FilterSound, HasCycle, Circle, WatchEdges, Owners;
    EntriesExactly(scripts);
    if EntriesSound(scripts) {
      CirclesExactly(scripts);
      forall i | 0 <= i < |scripts|
        ensures FilterOk(scripts[i], Owners(scripts)) <==> FilterSound(scripts, i)
      {
        FilterExactly(scripts, i);
      }
    }
  }
}
