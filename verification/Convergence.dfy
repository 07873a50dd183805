/** Materialized views keep, per id, the message with the highest sequence: they converge whatever
    the order and however often messages arrive. */
module Convergence {
  import opened Records
  import opened KeyValue

  datatype Message =
    | State(projectionID: string, revision: string, number: int, value: string)
    | Status(commandID: string, status: string, number: int, observedAt: string)
    | Failure(error: string)

  datatype Topic = Projection(id: string) | Command(id: string)

  /** What a message is about; failures are about nothing that is kept. */
  function TopicOf(m: Message): Option<Topic> {
    match m
    case State(id, _, _, _) => Some(Projection(id))
    case Status(id, _, _, _) => Some(Command(id))
    case Failure(_) => None
  }

  predicate About(m: Message, t: Topic) {
    TopicOf(m) == Some(t)
  }

  function Number(m: Message): int {
    if m.Failure? then 0 else m.number
  }

  type View = map<Topic, Message>

  function Merge(view: View, m: Message): View {
    match TopicOf(m)
    case None => view
    case Some(t) => if t in view && Number(m) <= Number(view[t]) then view else view[t := m]
  }

  function Fold(ms: seq<Message>): View {
    if ms == [] then map[] else Merge(Fold(ms[..|ms| - 1]), ms[|ms| - 1])
  }

  function Errors(ms: seq<Message>): seq<string> {
    if ms == [] then []
    else
      var m := ms[|ms| - 1];
      Errors(ms[..|ms| - 1]) + if m.Failure? then [m.error] else []
  }

  // ---------- the stores ----------

  datatype ProjectionEntry = ProjectionEntry(revision: string, number: int, value: string)

  datatype CommandEntry = CommandEntry(status: string, number: int, observedAt: string)

  /** The browser's store. */
  class MaterializerStore {
    var projections: map<string, ProjectionEntry>
    var commands: map<string, CommandEntry>
    var errors: seq<string>
    ghost var received: seq<Message>

    ghost predicate Valid()
      reads this
    {
      var view := Fold(received);
      && ShowsProjections(view, projections) && ShowsCommands(view, commands) && errors == Errors(received)
    }

    constructor ()
      ensures Valid() && received == []
    {
      projections, commands, errors, received := map[], map[], [], [];
    }

    method Apply(m: Message)
      requires Valid()
      modifies this
      ensures Valid() && received == old(received) + [m]
    {
      hide Fold, Errors, ShowsProjections, ShowsCommands, Merge;
      Received(received, m);
      Applied(Fold(received), projections, commands, m);
      received := received + [m];
      if m.State? {
        if m.projectionID in projections && m.number <= projections[m.projectionID].number {
          return;
        }
        projections := projections[m.projectionID := ProjectionEntry(m.revision, m.number, m.value)];
      } else if m.Status? {
        if m.commandID in commands && m.number <= commands[m.commandID].number {
          return;
        }
        commands := commands[m.commandID := CommandEntry(m.status, m.number, m.observedAt)];
      } else {
        errors := errors + [m.error];
      }
    }
  }

  function StateShown(projections: map<string, ProjectionEntry>, m: Message): map<string, ProjectionEntry> {
    if !m.State? || (m.projectionID in projections && m.number <= projections[m.projectionID].number) then projections
    else projections[m.projectionID := ProjectionEntry(m.revision, m.number, m.value)]
  }

  function StatusShown(commands: map<string, CommandEntry>, m: Message): map<string, CommandEntry> {
    if !m.Status? || (m.commandID in commands && m.number <= commands[m.commandID].number) then commands
    else commands[m.commandID := CommandEntry(m.status, m.number, m.observedAt)]
  }

  lemma Applied(view: View, projections: map<string, ProjectionEntry>, commands: map<string, CommandEntry>, m: Message)
    requires ShowsProjections(view, projections) && ShowsCommands(view, commands)
    ensures ShowsProjections(Merge(view, m), StateShown(projections, m))
    ensures ShowsCommands(Merge(view, m), StatusShown(commands, m))
  {
  }

  ghost predicate ShowsProjections(view: View, projections: map<string, ProjectionEntry>) {
    && (forall id :: id in projections <==> Projection(id) in view)
    && (forall id :: id in projections ==> Shows(view[Projection(id)], projections[id]))
  }

  predicate Shows(m: Message, e: ProjectionEntry) {
    m.State? && e == ProjectionEntry(m.revision, m.number, m.value)
  }

  ghost predicate ShowsCommands(view: View, commands: map<string, CommandEntry>) {
    && (forall id :: id in commands <==> Command(id) in view)
    && (forall id :: id in commands ==> ShowsStatus(view[Command(id)], commands[id]))
  }

  predicate ShowsStatus(m: Message, e: CommandEntry) {
    m.Status? && e == CommandEntry(m.status, m.number, m.observedAt)
  }

  lemma Received(ms: seq<Message>, m: Message)
    ensures Fold(ms + [m]) == Merge(Fold(ms), m)
    ensures Errors(ms + [m]) == Errors(ms) + if m.Failure? then [m.error] else []
  {
    assert (ms + [m])[..|ms|] == ms;
  }

  /** The server's memory store: the same rule, with refusals reported. */
  class MaterialStore {
    var projections: map<string, Message>
    ghost var offered: seq<Message>

    ghost predicate Valid()
      reads this
    {
      forall id :: (if id in projections then Some(projections[id]) else None)
                   == if Projection(id) in Fold(offered) then Some(Fold(offered)[Projection(id)]) else None
    }

    constructor ()
      ensures Valid() && offered == []
    {
      projections, offered := map[], [];
    }

    /** Offers without an id count for nothing; stale ones are refused, and refusing them is what
        keeps the view. */
    method SaveProjection(m: Message) returns (ok: bool)
      requires Valid() && m.State?
      modifies this
      ensures Valid() && offered == old(offered) + if m.projectionID == "" then [] else [m]
      ensures ok <==> m.projectionID != ""
                      && forall k :: k in old(offered) && About(k, Projection(m.projectionID)) ==> Number(k) < m.number
    {
      hide Fold;
      if m.projectionID == "" {
        assert offered + [] == offered;
        return false;
      }
      FoldTop(offered, Projection(m.projectionID));
      Received(offered, m);
      offered := offered + [m];
      if m.projectionID in projections && m.number <= Number(projections[m.projectionID]) {
        return false;
      }
      projections := projections[m.projectionID := m];
      ok := true;
    }
  }

  // ---------- what a view shows ----------

  /** The view has a topic exactly when a message is about it, and shows one with the highest number. */
  lemma {:induction false} FoldTop(ms: seq<Message>, t: Topic)
    ensures t in Fold(ms) <==> exists m :: m in ms && About(m, t)
    ensures t in Fold(ms) ==> Fold(ms)[t] in ms && About(Fold(ms)[t], t)
    ensures t in Fold(ms) ==> forall m :: m in ms && About(m, t) ==> Number(m) <= Number(Fold(ms)[t])
  {
    hide TopicOf, Number;
    if ms == [] {
    } else {
      var front, last := ms[..|ms| - 1], ms[|ms| - 1];
      FoldTop(front, t);
      assert ms == front + [last];
      assert forall m :: m in ms <==> m in front || m == last;
      assert Fold(ms) == Merge(Fold(front), last);
      if t in Fold(front) {
        assert Fold(front)[t] in ms && About(Fold(front)[t], t);
      } else if About(last, t) {
        assert last in ms;
      }
    }
  }

  /** Topic and number determine the message. */
  ghost predicate Consistent(ms: seq<Message>) {
    forall m, n, t :: m in ms && n in ms && About(m, t) && About(n, t) && Number(m) == Number(n) ==> m == n
  }

  /** Any reordering and duplication of one consistent set of messages gives the same view. */
  lemma Converges(a: seq<Message>, b: seq<Message>)
    requires Consistent(a) && forall m :: m in a <==> m in b
    ensures Fold(a) == Fold(b)
  {
    hide Fold, About, Number;
    forall t
      ensures t in Fold(a) <==> t in Fold(b)
      ensures t in Fold(a) ==> Fold(a)[t] == Fold(b)[t]
    {
      FoldTop(a, t);
      FoldTop(b, t);
    }
  }

  /** Two different messages under the highest number of their topic, among these messages. */
  ghost predicate Tied(ms: seq<Message>, x: Message, y: Message, t: Topic) {
    && x in ms && y in ms && x != y && About(x, t) && About(y, t) && Number(x) == Number(y)
    && forall m :: m in ms && About(m, t) ==> Number(m) <= Number(x)
  }

  ghost predicate NoTies(ms: seq<Message>) {
    forall x, y, t :: !Tied(ms, x, y, t)
  }

  lemma {:induction false} FirstTopWins(ms: seq<Message>, x: Message, t: Topic)
    requires ms != [] && ms[0] == x && About(x, t)
    requires forall m :: m in ms && About(m, t) ==> Number(m) <= Number(x)
    ensures t in Fold(ms) && Fold(ms)[t] == x
  {
    hide TopicOf, Number;
    var front, last := ms[..|ms| - 1], ms[|ms| - 1];
    if |ms| > 1 {
      FirstTopWins(front, x, t);
      assert last in ms;
    } else {
      assert front == [];
    }
  }

  /** A message set converges in every order if and only if no topic has two different messages
      under its highest number. */
  lemma ConvergesExactly(ms: seq<Message>)
    ensures (forall a, b :: SameElements(a, ms) && SameElements(b, ms) ==> Fold(a) == Fold(b)) <==> NoTies(ms)
  {
    hide Fold, About, Number;
    if NoTies(ms) {
      forall a, b | SameElements(a, ms) && SameElements(b, ms)
        ensures Fold(a) == Fold(b)
      {
        UntiedConverge(ms, a, b);
      }
    } else {
      var x, y, t :| Tied(ms, x, y, t);
      var a, b := [x] + ms, [y] + ms;
      assert SameElements(a, ms) && SameElements(b, ms);
      FirstTopWins(a, x, t);
      FirstTopWins(b, y, t);
    }
  }

  ghost predicate SameElements(a: seq<Message>, b: seq<Message>) {
    forall m :: m in a <==> m in b
  }

  lemma UntiedConverge(ms: seq<Message>, a: seq<Message>, b: seq<Message>)
    requires NoTies(ms) && SameElements(a, ms) && SameElements(b, ms)
    ensures Fold(a) == Fold(b)
  {
    hide Fold, About, Number;
    forall t
      ensures t in Fold(a) <==> t in Fold(b)
      ensures t in Fold(a) ==> Fold(a)[t] == Fold(b)[t]
    {
      FoldTop(a, t);
      FoldTop(b, t);
      if t in Fold(a) {
        assert !Tied(ms, Fold(a)[t], Fold(b)[t], t);
      }
    }
  }

  // ---------- the bucket-backed store ----------

  function ProjectionKey(id: string): string {
    "p." + id
  }

  /** The read half of a save: is the stored projection, if any, older? */
  predicate MaySave(h: seq<Write<Message>>, m: Message)
    requires m.State?
  {
    match Lookup(h, ProjectionKey(m.projectionID))
    case Missing => true
    case Found(e) => Number(e.value) < m.number
  }

  class KVMaterialStore {
    const kv: Bucket<Message>

    constructor (bucket: Bucket<Message>)
      ensures kv == bucket
    {
      kv := bucket;
    }

    /** Read, compare, put: two separate calls to the bucket. */
    method SaveProjection(m: Message, link: Link) returns (ok: bool)
      requires kv.Valid() && m.State?
      modifies kv
      ensures kv.Valid()
      ensures kv.history == if MaySave(old(kv.history), m) && link != Dropped
                            then old(kv.history) + [Write("p." + m.projectionID, m)] else old(kv.history)
      ensures ok <==> MaySave(old(kv.history), m) && link == Delivered
    {
      var found := kv.Get(ProjectionKey(m.projectionID));
      if found.Found? && m.number <= Number(found.entry.value) {
        return false;
      }
      ok := kv.Put(ProjectionKey(m.projectionID), m, link);
    }
  }
}
