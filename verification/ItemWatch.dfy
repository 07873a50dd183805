/** The resumable item watch: a cursor file between runs, and what the runs print together. */
module ItemWatch {
  import opened Records
  import opened KeyValue

  const CURSOR_KIND := "tinkalet.cursor.item.v1"
  const ITEM_KIND := "tinkabot.item.v1"

  datatype Request = Request(scope: string, target: string, cursor: string)

  datatype Profile = Profile(name: string, source: string)

  datatype Cursor = Cursor(
    kind: string, name: string, profile: string, source: string, scope: string, target: string, revision: nat)

  /** A cursor file is missing, unreadable (as after a torn write), or whole. */
  datatype File = Absent | Broken | Saved(cursor: Cursor)

  datatype Item = Garbled | Item(kind: string, key: string, status: string, value: string)

  datatype Event = Event(revision: nat, key: string, item: Item)

  datatype Reason = CursorRefused | EventMalformed

  /** How a run ends: limit reached, refused, out of updates (timeout or lost connection), or killed. */
  datatype End = Finished | Denied(reason: Reason) | Ended | Killed

  /** `killAfter` many effects (saving a cursor, printing an event) the process is killed; a save
      that is cut short may leave the file torn. */
  datatype Fate = Fate(killAfter: Option<nat>, torn: bool)

  const CLEAN := Fate(None, false)

  function FreshCursor(req: Request, prof: Profile, revision: nat): Cursor {
    Cursor(CURSOR_KIND, req.cursor, prof.name, prof.source, req.scope, req.target, revision)
  }

  /** The revision to resume after. */
  function LoadCursor(req: Request, prof: Profile, file: File): Option<nat> {
    if req.cursor == "" then Some(0)
    else
      match file
      case Absent => Some(0)
      case Broken => None
      case Saved(cur) => if cur == FreshCursor(req, prof, cur.revision) then Some(cur.revision) else None
  }

  predicate WatchMatches(req: Request, key: string) {
    match req.scope
    case "item" => key == req.target
    case "prefix" => req.target <= key
    case _ => false
  }

  predicate WellFormed(e: Event) {
    e.item.Item? && e.item.kind == ITEM_KIND && e.item.key == e.key
  }

  /** Neither skipped as foreign nor as already seen. */
  predicate Wanted(req: Request, after: nat, e: Event) {
    WatchMatches(req, e.key) && e.revision > after
  }

  datatype Run = Run(file: File, printed: seq<Event>, end: End)

  function Dies(fate: Fate): bool {
    fate.killAfter == Some(0)
  }

  function Spent(fate: Fate): Fate {
    if fate.killAfter.Some? && fate.killAfter.value > 0 then fate.(killAfter := Some(fate.killAfter.value - 1))
    else fate
  }

  function Stored(req: Request, prof: Profile, file: File, revision: nat): File {
    if req.cursor == "" then file else Saved(FreshCursor(req, prof, revision))
  }

  /** From the updates on: save the cursor, then print, for each wanted event until the limit. */
  function WatchFrom(req: Request, prof: Profile, file: File, after: nat, updates: seq<Event>, left: int, fate: Fate)
    : (r: Run)
    decreases |updates|
  {
    if updates == [] then Run(file, [], Ended)
    else
      var e := updates[0];
      if !Wanted(req, after, e) then WatchFrom(req, prof, file, after, updates[1..], left, fate)
      else if !WellFormed(e) then Run(file, [], Denied(EventMalformed))
      else if Dies(fate) then Run(if fate.torn && req.cursor != "" then Broken else file, [], Killed)
      else
        var saved := Stored(req, prof, file, e.revision);
        if Dies(Spent(fate)) then Run(saved, [], Killed)
        else if left <= 1 then Run(saved, [e], Finished)
        else
          var rest := WatchFrom(req, prof, saved, e.revision, updates[1..], left - 1, Spent(Spent(fate)));
          rest.(printed := [e] + rest.printed)
  }

  function Watch(req: Request, prof: Profile, file: File, lastSeq: nat, updates: seq<Event>,
                 limit: int, fate: Fate): Run {
    match LoadCursor(req, prof, file)
    case None => Run(file, [], Denied(CursorRefused))
    case Some(after) =>
      if after > lastSeq then Run(file, [], Denied(CursorRefused))
      else WatchFrom(req, prof, file, after, updates, limit, fate)
  }

  /** The running command. */
  class Cli {
    var files: map<string, File>
    var printed: seq<Event>

    function FileOf(name: string): File
      reads this
    {
      if name in files then files[name] else Absent
    }

    method SaveCursor(req: Request, prof: Profile, revision: nat)
      modifies this`files
      ensures FileOf(req.cursor) == Stored(req, prof, old(FileOf(req.cursor)), revision)
      ensures forall name :: name != req.cursor ==> FileOf(name) == old(FileOf(name))
    {
      if req.cursor != "" {
        files := files[req.cursor := Saved(FreshCursor(req, prof, revision))];
      }
    }

    /** One run over the updates it gets to see before it ends. */
    method ItemWatch(req: Request, prof: Profile, lastSeq: nat, updates: seq<Event>, limit: int, fate: Fate)
      returns (end: End)
      modifies this
      ensures var run := Watch(req, prof, old(FileOf(req.cursor)), lastSeq, updates, limit, fate);
        FileOf(req.cursor) == run.file && printed == old(printed) + run.printed && end == run.end
      ensures forall name :: name != req.cursor ==> FileOf(name) == old(FileOf(name))
    {
      hide LoadCursor, WatchMatches, WellFormed;
      var loaded := LoadCursor(req, prof, FileOf(req.cursor));
      if loaded.None? || loaded.value > lastSeq {
        assert printed == old(printed) + [];
        return Denied(CursorRefused);
      }
      var after: nat := loaded.value;
      var seen, rest, life := 0, updates, fate;
      ghost var whole := WatchFrom(req, prof, FileOf(req.cursor), after, updates, limit, fate);
      ghost var out: seq<Event> := [];
      WholeStarts(whole);
      while rest != []
        invariant printed == old(printed) + out
        invariant whole == Joined(out, WatchFrom(req, prof, FileOf(req.cursor), after, rest, limit - seen, life))
        invariant forall name :: name != req.cursor ==> FileOf(name) == old(FileOf(name))
        decreases |rest|
      {
        var e := rest[0];
        rest := rest[1..];
        if !Wanted(req, after, e) {
          continue;
        }
        if !WellFormed(e) {
          JoinedEnd(out, FileOf(req.cursor), Denied(EventMalformed));
          return Denied(EventMalformed);
        }
        if Dies(life) {
          if life.torn && req.cursor != "" {
            files := files[req.cursor := Broken];
          }
          JoinedEnd(out, FileOf(req.cursor), Killed);
          return Killed;
        }
        life := Spent(life);
        SaveCursor(req, prof, e.revision);
        after := e.revision;
        if Dies(life) {
          JoinedEnd(out, FileOf(req.cursor), Killed);
          return Killed;
        }
        life := Spent(life);
        printed := printed + [e];
        seen := seen + 1;
        JoinedNext(out, e, if seen >= limit then Run(FileOf(req.cursor), [], Finished)
                           else WatchFrom(req, prof, FileOf(req.cursor), after, rest, limit - seen, life));
        out := out + [e];
        if seen >= limit {
          JoinedEnd(out, FileOf(req.cursor), Finished);
          return Finished;
        }
      }
      JoinedEnd(out, FileOf(req.cursor), Ended);
      return Ended;
    }
  }

  ghost function Joined(out: seq<Event>, rest: Run): Run {
    rest.(printed := out + rest.printed)
  }

  lemma WholeStarts(whole: Run)
    ensures whole == Joined([], whole)
  {
    assert [] + whole.printed == whole.printed;
  }

  lemma JoinedEnd(out: seq<Event>, file: File, end: End)
    ensures Joined(out, Run(file, [], end)) == Run(file, out, end)
  {
    assert out + [] == out;
  }

  lemma JoinedNext(out: seq<Event>, e: Event, rest: Run)
    ensures Joined(out + [e], rest) == Joined(out, rest.(printed := [e] + rest.printed))
  {
    assert out + [e] + rest.printed == out + ([e] + rest.printed);
  }

  // ---------- never twice, always forward ----------

  ghost predicate InOrder(updates: seq<Event>) {
    forall i, j :: 0 <= i < j < |updates| ==> updates[i].revision < updates[j].revision
  }

  ghost predicate Beyond(after: nat, entries: seq<Event>) {
    forall i :: 0 <= i < |entries| ==> after < entries[i].revision
  }

  /** The file is the one `after` came from, or a cursor at or past everything printed, or torn. */
  ghost predicate Covers(req: Request, prof: Profile, before: File, after: nat, run: Run) {
    || (run.file == before && run.printed == [])
    || run.file.Broken?
    || (&& run.file.Saved? && run.file.cursor == FreshCursor(req, prof, run.file.cursor.revision)
        && after <= run.file.cursor.revision
        && forall i :: 0 <= i < |run.printed| ==> run.printed[i].revision <= run.file.cursor.revision)
  }

  lemma ConsInOrder(e: Event, rest: seq<Event>, after: nat)
    requires InOrder(rest) && Beyond(e.revision, rest) && after < e.revision
    ensures InOrder([e] + rest) && Beyond(after, [e] + rest)
  {
  }

  lemma TailInOrder(updates: seq<Event>)
    requires InOrder(updates) && updates != []
    ensures InOrder(updates[1..]) && Beyond(updates[0].revision, updates[1..])
  {
  }

  lemma CoversMore(req: Request, prof: Profile, before: File, after: nat, e: Event, rest: Run)
    requires req.cursor != "" && after < e.revision
    requires Covers(req, prof, Stored(req, prof, before, e.revision), e.revision, rest)
    ensures Covers(req, prof, before, after, rest.(printed := [e] + rest.printed))
  {
  }

  /** What one run prints is beyond its cursor and in order, and the file covers it, killed or not. */
  lemma {:induction false} RunGoesForward(req: Request, prof: Profile, file: File, after: nat, updates: seq<Event>,
                                          left: int, fate: Fate)
    requires req.cursor != "" && InOrder(updates)
    ensures var run := WatchFrom(req, prof, file, after, updates, left, fate);
      InOrder(run.printed) && Beyond(after, run.printed) && Covers(req, prof, file, after, run)
    decreases |updates|
  {
    NothingPrinted();
    hide WatchMatches, WellFormed, InOrder, Beyond;
    if updates == [] {
    } else {
      var e, rest := updates[0], updates[1..];
      TailInOrder(updates);
      if Wanted(req, after, e) && WellFormed(e) {
        var saved, life := Stored(req, prof, file, e.revision), Spent(Spent(fate));
        RunGoesForward(req, prof, saved, e.revision, rest, left - 1, life);
        ConsInOrder(e, WatchFrom(req, prof, saved, e.revision, rest, left - 1, life).printed, after);
        CoversMore(req, prof, file, after, e, WatchFrom(req, prof, saved, e.revision, rest, left - 1, life));
        ConsInOrder(e, [], after);
        CoversMore(req, prof, file, after, e, Run(saved, [], Finished));
        assert [e] + [] == [e];
      } else {
        RunGoesForward(req, prof, file, after, rest, left, fate);
      }
    }
  }

  /** Everything printed is a requested, well-formed update beyond the cursor, within the limit. */
  lemma {:induction false} PrintedAreWanted(req: Request, prof: Profile, file: File, after: nat, updates: seq<Event>,
                                            left: int, fate: Fate)
    ensures var run := WatchFrom(req, prof, file, after, updates, left, fate);
      && |run.printed| <= (if left <= 1 then 1 else left)
      && forall e :: e in run.printed ==> e in updates && Wanted(req, after, e) && WellFormed(e)
    decreases |updates|
  {
    hide WatchMatches, WellFormed;
    if updates == [] {
    } else {
      var e, rest := updates[0], updates[1..];
      if Wanted(req, after, e) && WellFormed(e) {
        PrintedAreWanted(req, prof, Stored(req, prof, file, e.revision), e.revision, rest, left - 1,
                         Spent(Spent(fate)));
      } else {
        PrintedAreWanted(req, prof, file, after, rest, left, fate);
      }
    }
  }

  /** One run's circumstances: the bucket's last revision, the updates it sees, its limit and fate. */
  datatype Session = Session(lastSeq: nat, updates: seq<Event>, limit: int, fate: Fate)

  function RunAll(req: Request, prof: Profile, file: File, sessions: seq<Session>): Run
    decreases |sessions|
  {
    if sessions == [] then Run(file, [], Ended)
    else
      var s := sessions[0];
      var run := Watch(req, prof, file, s.lastSeq, s.updates, s.limit, s.fate);
      var rest := RunAll(req, prof, run.file, sessions[1..]);
      rest.(printed := run.printed + rest.printed)
  }

  ghost predicate AllInOrder(sessions: seq<Session>) {
    forall i :: 0 <= i < |sessions| ==> InOrder(sessions[i].updates)
  }

  /** Any runs sharing a cursor, one after the other, with any limits and killed anywhere, together
      print in increasing revision order, so never one revision twice. */
  lemma {:induction false} NeverTwice(req: Request, prof: Profile, file: File, sessions: seq<Session>)
    requires req.cursor != "" && AllInOrder(sessions)
    ensures InOrder(RunAll(req, prof, file, sessions).printed)
    ensures LoadCursor(req, prof, file).Some? ==>
      Beyond(LoadCursor(req, prof, file).value, RunAll(req, prof, file, sessions).printed)
    ensures LoadCursor(req, prof, file).None? ==> RunAll(req, prof, file, sessions).printed == []
    decreases |sessions|
  {
    hide WatchFrom, InOrder, Beyond;
    if sessions == [] {
      NothingPrinted();
    } else {
      var s := sessions[0];
      var run := Watch(req, prof, file, s.lastSeq, s.updates, s.limit, s.fate);
      var loaded := LoadCursor(req, prof, file);
      NothingPrinted();
      if loaded.Some? {
        RunGoesForward(req, prof, file, loaded.value, s.updates, s.limit, s.fate);
      }
      NeverTwice(req, prof, run.file, sessions[1..]);
      var rest := RunAll(req, prof, run.file, sessions[1..]).printed;
      assert run.printed == [] ==> run.printed + rest == rest;
      if loaded.Some? && rest != [] {
        RestBeyond(req, prof, file, loaded.value, run, rest);
      }
      assert rest == [] ==> run.printed + rest == run.printed;
    }
  }

  lemma NothingPrinted()
    ensures InOrder([]) && forall n: nat :: Beyond(n, [])
  {
  }

  lemma RestBeyond(req: Request, prof: Profile, file: File, after: nat, run: Run, rest: seq<Event>)
    requires req.cursor != ""
    requires LoadCursor(req, prof, file) == Some(after) && Covers(req, prof, file, after, run)
    requires InOrder(run.printed) && Beyond(after, run.printed)
    requires LoadCursor(req, prof, run.file).Some?
    requires Beyond(LoadCursor(req, prof, run.file).value, rest) && InOrder(rest)
    ensures InOrder(run.printed + rest) && Beyond(after, run.printed + rest)
  {
  }

  // ---------- nothing left out ----------

  type Log = seq<Write<Item>>

  function EventAt(log: Log, revision: nat): Event
    requires 0 < revision <= |log|
  {
    Event(revision, log[revision - 1].key, log[revision - 1].value)
  }

  /** The events the request asks for, among the revisions after `from` up to `to`. */
  function Events(log: Log, req: Request, from: nat, to: nat): seq<Event>
    requires from <= to <= |log|
  {
    if from == to then []
    else Events(log, req, from, to - 1)
         + if WatchMatches(req, log[to - 1].key) then [EventAt(log, to)] else []
  }

  lemma {:induction false} EventsSplit(log: Log, req: Request, a: nat, b: nat, c: nat)
    requires a <= b <= c <= |log|
    ensures Events(log, req, a, c) == Events(log, req, a, b) + Events(log, req, b, c)
  {
    hide WatchMatches;
    if b >= c {
    } else {
      EventsSplit(log, req, a, b, c - 1);
    }
  }

  lemma {:induction false} EventsNone(log: Log, req: Request, a: nat, b: nat)
    requires a <= b <= |log|
    requires forall n :: a < n <= b ==> !WatchMatches(req, EventAt(log, n).key)
    ensures Events(log, req, a, b) == []
  {
    hide WatchMatches;
    if a >= b {
    } else {
      assert !WatchMatches(req, EventAt(log, b).key);
      EventsNone(log, req, a, b - 1);
    }
  }

  /** The updates come from the log, in order, and none of the requested ones after `from` and up to
      `to` is missing. Older ones may have been trimmed from the history. */
  ghost predicate Serves(log: Log, req: Request, from: nat, to: nat, updates: seq<Event>) {
    && InOrder(updates) && to <= |log|
    && (forall i :: 0 <= i < |updates| ==>
          0 < updates[i].revision <= to && updates[i] == EventAt(log, updates[i].revision))
    && (forall n :: from < n <= to && WatchMatches(req, EventAt(log, n).key) ==> EventAt(log, n) in updates)
  }

  lemma ServesTail(log: Log, req: Request, from: nat, to: nat, updates: seq<Event>)
    requires Serves(log, req, from, to, updates) && updates != []
    ensures Serves(log, req, if from < updates[0].revision then updates[0].revision else from, to, updates[1..])
    ensures from < updates[0].revision ==>
      forall n :: from < n < updates[0].revision ==> !WatchMatches(req, EventAt(log, n).key)
  {
    hide WatchMatches;
    var e, rest := updates[0], updates[1..];
    forall n | from < n <= to && WatchMatches(req, EventAt(log, n).key)
      ensures n >= e.revision && (n > e.revision ==> EventAt(log, n) in rest)
    {
      var i :| 0 <= i < |updates| && updates[i] == EventAt(log, n);
      assert i > 0 ==> rest[i - 1] == EventAt(log, n);
    }
  }

  lemma EventsStep(log: Log, req: Request, from: nat, to: nat)
    requires from < to <= |log|
    ensures Events(log, req, from, to)
            == Events(log, req, from, to - 1) + if WatchMatches(req, log[to - 1].key) then [EventAt(log, to)] else []
  {
    hide WatchMatches;
  }

  /** Looking at the next update, which is beyond `at`, tells the events up to it. */
  lemma EventsUpTo(log: Log, req: Request, after: nat, at: nat, e: Event)
    requires after <= at < e.revision <= |log| && e == EventAt(log, e.revision)
    requires Events(log, req, after, at) == []
    requires forall n :: at < n < e.revision ==> !WatchMatches(req, EventAt(log, n).key)
    ensures Events(log, req, after, e.revision) == if WatchMatches(req, e.key) then [e] else []
  {
    hide WatchMatches, Events;
    EventsNone(log, req, at, e.revision - 1);
    EventsSplit(log, req, after, at, e.revision - 1);
    EventsStep(log, req, after, e.revision);
  }

  lemma CleanStep(req: Request, prof: Profile, file: File, after: nat, updates: seq<Event>, left: int)
    requires updates != []
    ensures var e, run := updates[0], WatchFrom(req, prof, file, after, updates, left, CLEAN);
      if !Wanted(req, after, e) then run == WatchFrom(req, prof, file, after, updates[1..], left, CLEAN)
      else if !WellFormed(e) then run == Run(file, [], Denied(EventMalformed))
      else
        var saved := Stored(req, prof, file, e.revision);
        if left <= 1 then run == Run(saved, [e] + [], Finished)
        else
          var rest := WatchFrom(req, prof, saved, e.revision, updates[1..], left - 1, CLEAN);
          run == rest.(printed := [e] + rest.printed)
  {
    hide WatchMatches, WellFormed;
  }

  lemma StoredLoads(req: Request, prof: Profile, file: File, revision: nat)
    requires req.cursor != ""
    ensures LoadCursor(req, prof, Stored(req, prof, file, revision)) == Some(revision)
  {
  }

  /** A run that is not killed prints exactly the requested events between the cursor it loaded and
      the cursor it leaves. `at` is how far the updates have been looked at. */
  lemma {:induction false} CleanRunPrintsAll(log: Log, req: Request, prof: Profile, file: File, after: nat, at: nat,
                                             to: nat, updates: seq<Event>, left: int)
    requires req.cursor != "" && after <= at <= |log| && (at == after || Beyond(at, updates))
    requires Serves(log, req, at, to, updates) && Events(log, req, after, at) == []
    requires LoadCursor(req, prof, file) == Some(after)
    ensures Between(log, req, prof, after, WatchFrom(req, prof, file, after, updates, left, CLEAN))
    decreases |updates|
  {
    hide WatchMatches, WellFormed, Serves, Beyond, Between, InOrder, LoadCursor, Stored, Events, WatchFrom;
    if updates == [] {
      NothingToWatch(req, prof, file, after, left);
      PrintsNothing(log, req, prof, file, after, Ended);
    } else {
      var e, rest := updates[0], updates[1..];
      CleanStep(req, prof, file, after, updates, left);
      ServesHead(log, req, at, to, updates);
      ServesTail(log, req, at, to, updates);
      if e.revision <= at {
        BeyondHead(at, updates);
        CleanRunPrintsAll(log, req, prof, file, after, at, to, rest, left);
      } else {
        EventsUpTo(log, req, after, at, e);
        if !WatchMatches(req, e.key) {
          CleanRunPrintsAll(log, req, prof, file, after, e.revision, to, rest, left);
        } else if !WellFormed(e) {
          PrintsNothing(log, req, prof, file, after, Denied(EventMalformed));
        } else {
          var saved := Stored(req, prof, file, e.revision);
          StoredLoads(req, prof, file, e.revision);
          if left <= 1 {
            PrintsNothing(log, req, prof, saved, e.revision, Finished);
            PrintsOneMore(log, req, prof, after, e, Run(saved, [], Finished));
          } else {
            EventsNone(log, req, e.revision, e.revision);
            CleanRunPrintsAll(log, req, prof, saved, e.revision, e.revision, to, rest, left - 1);
            PrintsOneMore(log, req, prof, after, e, WatchFrom(req, prof, saved, e.revision, rest, left - 1, CLEAN));
          }
        }
      }
    }
  }

  lemma NothingToWatch(req: Request, prof: Profile, file: File, after: nat, left: int)
    ensures WatchFrom(req, prof, file, after, [], left, CLEAN) == Run(file, [], Ended)
  {
  }

  /** The run printed the requested events from `after` to the cursor it leaves. */
  ghost predicate Between(log: Log, req: Request, prof: Profile, after: nat, run: Run) {
    match LoadCursor(req, prof, run.file)
    case None => false
    case Some(now) => after <= now <= |log| && run.printed == Events(log, req, after, now)
  }

  lemma PrintsNothing(log: Log, req: Request, prof: Profile, file: File, after: nat, end: End)
    requires LoadCursor(req, prof, file) == Some(after) && after <= |log|
    ensures Between(log, req, prof, after, Run(file, [], end))
  {
  }

  lemma PrintsOneMore(log: Log, req: Request, prof: Profile, after: nat, e: Event, rest: Run)
    requires after < e.revision <= |log| && Events(log, req, after, e.revision) == [e]
    requires Between(log, req, prof, e.revision, rest)
    ensures Between(log, req, prof, after, rest.(printed := [e] + rest.printed))
  {
    hide LoadCursor, WatchMatches;
    EventsSplit(log, req, after, e.revision, LoadCursor(req, prof, rest.file).value);
  }

  lemma ServesHead(log: Log, req: Request, from: nat, to: nat, updates: seq<Event>)
    requires Serves(log, req, from, to, updates) && updates != []
    ensures updates[0].revision <= |log| && 0 < updates[0].revision && updates[0] == EventAt(log, updates[0].revision)
    ensures InOrder(updates[1..]) && Beyond(updates[0].revision, updates[1..])
  {
  }

  lemma BeyondHead(at: nat, updates: seq<Event>)
    requires updates != [] && updates[0].revision <= at
    ensures !Beyond(at, updates)
  {
  }

  /** No session is killed, and each sees every requested event after the cursor it finds. */
  ghost predicate CleanSessions(log: Log, req: Request, prof: Profile, file: File, sessions: seq<Session>)
    decreases |sessions|
  {
    sessions != [] ==>
      var s := sessions[0];
      var loaded := LoadCursor(req, prof, file);
      && s.fate == CLEAN && s.lastSeq <= |log|
      && (loaded.Some? ==> exists to :: Serves(log, req, loaded.value, to, s.updates))
      && CleanSessions(log, req, prof, Watch(req, prof, file, s.lastSeq, s.updates, s.limit, s.fate).file,
                       sessions[1..])
  }

  lemma Joins(log: Log, req: Request, prof: Profile, after: nat, run: Run, rest: Run)
    requires Between(log, req, prof, after, run)
    requires Between(log, req, prof, LoadCursor(req, prof, run.file).value, rest)
    ensures Between(log, req, prof, after, rest.(printed := run.printed + rest.printed))
  {
    hide LoadCursor, WatchMatches;
    EventsSplit(log, req, after, LoadCursor(req, prof, run.file).value, LoadCursor(req, prof, rest.file).value);
  }

  /** Runs that are not killed together print exactly the requested events from the first cursor to
      the last, whatever their limits, and even when a malformed event stops them. */
  lemma {:induction false} RunsPrintEverything(log: Log, req: Request, prof: Profile, file: File, after: nat,
                                               sessions: seq<Session>)
    requires req.cursor != "" && LoadCursor(req, prof, file) == Some(after) && after <= |log|
    requires CleanSessions(log, req, prof, file, sessions)
    ensures Between(log, req, prof, after, RunAll(req, prof, file, sessions))
    decreases |sessions|
  {
    hide WatchFrom, WatchMatches, Serves, Between, LoadCursor, Events;
    if sessions == [] {
      PrintsNothing(log, req, prof, file, after, Ended);
    } else {
      var s := sessions[0];
      var run := Watch(req, prof, file, s.lastSeq, s.updates, s.limit, s.fate);
      OneSession(log, req, prof, file, after, s);
      NowAt(log, req, prof, after, run);
      RunsPrintEverything(log, req, prof, run.file, LoadCursor(req, prof, run.file).value, sessions[1..]);
      Joins(log, req, prof, after, run, RunAll(req, prof, run.file, sessions[1..]));
    }
  }

  lemma NowAt(log: Log, req: Request, prof: Profile, after: nat, run: Run)
    requires Between(log, req, prof, after, run)
    ensures LoadCursor(req, prof, run.file).Some? && LoadCursor(req, prof, run.file).value <= |log|
  {
  }

  lemma OneSession(log: Log, req: Request, prof: Profile, file: File, after: nat, s: Session)
    requires req.cursor != "" && LoadCursor(req, prof, file) == Some(after) && after <= |log|
    requires s.fate == CLEAN && exists to :: Serves(log, req, after, to, s.updates)
    ensures Between(log, req, prof, after, Watch(req, prof, file, s.lastSeq, s.updates, s.limit, s.fate))
  {
    hide WatchFrom, WatchMatches, Serves, Between;
    if after > s.lastSeq {
      PrintsNothing(log, req, prof, file, after, Denied(CursorRefused));
    } else {
      var to :| Serves(log, req, after, to, s.updates);
      EventsNone(log, req, after, after);
      CleanRunPrintsAll(log, req, prof, file, after, after, to, s.updates, s.limit);
    }
  }

  /** From a missing cursor file the output is a prefix of all requested events of the log. */
  lemma RunsPrintPrefix(log: Log, req: Request, prof: Profile, sessions: seq<Session>)
    requires req.cursor != "" && CleanSessions(log, req, prof, Absent, sessions)
    ensures RunAll(req, prof, Absent, sessions).printed <= Events(log, req, 0, |log|)
  {
    hide RunAll, WatchMatches, CleanSessions;
    RunsPrintEverything(log, req, prof, Absent, 0, sessions);
    var end := RunAll(req, prof, Absent, sessions);
    EventsSplit(log, req, 0, LoadCursor(req, prof, end.file).value, |log|);
  }

  // ---------- what a kill does ----------

  /** The cursor file after `n` of the printed events were saved. */
  function FileAfter(req: Request, prof: Profile, file: File, printed: seq<Event>, n: nat): File
    requires n <= |printed|
  {
    if n == 0 then file else Stored(req, prof, file, printed[n - 1].revision)
  }

  /** The kill comes before the run that is left alone would have ended: it saves and prints once per event. */
  predicate KillComes(fate: Fate, clean: Run) {
    fate.killAfter.Some? && fate.killAfter.value < 2 * |clean.printed|
  }

  /** The kill falls on a save rather than on a print. */
  predicate KillsSave(fate: Fate) {
    fate.killAfter.Some? && fate.killAfter.value % 2 == 0
  }

  /** What is left of the undisturbed run `clean` when the kill comes. */
  function Cut(req: Request, prof: Profile, file: File, clean: Run, fate: Fate): Run {
    if !KillComes(fate, clean) then clean
    else
      var k := fate.killAfter.value;
      Run(if KillsSave(fate) && fate.torn && req.cursor != "" then Broken
          else FileAfter(req, prof, file, clean.printed, (k + 1) / 2),
          clean.printed[..k / 2], Killed)
  }

  lemma CutTaken(req: Request, prof: Profile, file: File, e: Event, rest: Run, fate: Fate)
    requires fate.killAfter.Some? ==> fate.killAfter.value >= 2
    ensures var saved := Stored(req, prof, file, e.revision);
      var cut := Cut(req, prof, saved, rest, Spent(Spent(fate)));
      Cut(req, prof, file, rest.(printed := [e] + rest.printed), fate) == cut.(printed := [e] + cut.printed)
  {
    var whole := rest.(printed := [e] + rest.printed);
    if KillComes(fate, whole) {
      var k := fate.killAfter.value;
      assert whole.printed[..k / 2] == [e] + rest.printed[..(k - 2) / 2];
      assert (k + 1) / 2 == (k - 1) / 2 + 1;
    }
  }

  /** A killed run is the undisturbed one cut short: with `k` effects done, half of them prints, the
      output is its first k/2 events, and the file that of its last completed save, or torn. */
  lemma {:induction false} KilledExactly(req: Request, prof: Profile, file: File, after: nat, updates: seq<Event>,
                                         left: int, fate: Fate)
    ensures var clean := WatchFrom(req, prof, file, after, updates, left, CLEAN);
      WatchFrom(req, prof, file, after, updates, left, fate) == Cut(req, prof, file, clean, fate)
    decreases |updates|
  {
    hide WatchMatches, WellFormed, LoadCursor;
    if updates == [] {
    } else {
      var e, rest := updates[0], updates[1..];
      if !Wanted(req, after, e) {
        KilledExactly(req, prof, file, after, rest, left, fate);
      } else if WellFormed(e) {
        var saved := Stored(req, prof, file, e.revision);
        if fate.killAfter.Some? && fate.killAfter.value < 2 {
          KilledAtOnce(req, prof, file, after, updates, left, fate);
        } else if left <= 1 {
          CutTaken(req, prof, file, e, Run(saved, [], Finished), fate);
          assert [e] + [] == [e];
        } else {
          KilledExactly(req, prof, saved, e.revision, rest, left - 1, Spent(Spent(fate)));
          CutTaken(req, prof, file, e, WatchFrom(req, prof, saved, e.revision, rest, left - 1, CLEAN), fate);
        }
      }
    }
  }

  lemma KilledAtOnce(req: Request, prof: Profile, file: File, after: nat, updates: seq<Event>, left: int, fate: Fate)
    requires updates != [] && Wanted(req, after, updates[0]) && WellFormed(updates[0])
    requires fate.killAfter.Some? && fate.killAfter.value < 2
    ensures var clean := WatchFrom(req, prof, file, after, updates, left, CLEAN);
      WatchFrom(req, prof, file, after, updates, left, fate) == Cut(req, prof, file, clean, fate)
  {
    hide WatchMatches, WellFormed;
    var clean := WatchFrom(req, prof, file, after, updates, left, CLEAN);
    assert clean.printed != [] && clean.printed[0] == updates[0];
    assert clean.printed[..0] == [];
  }

  /** The undisturbed run leaves the file of its last printed event. */
  lemma {:induction false} CleanFile(req: Request, prof: Profile, file: File, after: nat, updates: seq<Event>,
                                     left: int)
    ensures var clean := WatchFrom(req, prof, file, after, updates, left, CLEAN);
      clean.file == FileAfter(req, prof, file, clean.printed, |clean.printed|)
    decreases |updates|
  {
    hide WatchMatches, WellFormed;
    if updates == [] {
    } else {
      var e, rest := updates[0], updates[1..];
      if Wanted(req, after, e) && WellFormed(e) {
        CleanFile(req, prof, Stored(req, prof, file, e.revision), e.revision, rest, left - 1);
      } else {
        CleanFile(req, prof, file, after, rest, left);
      }
    }
  }

  predicate Refused(req: Request, prof: Profile, file: File, s: Session) {
    Watch(req, prof, file, s.lastSeq, s.updates, s.limit, s.fate) == Run(file, [], Denied(CursorRefused))
  }

  /** A run breaks the cursor file exactly when the kill comes, falls on a save and tears it; then every
      later run refuses the file, prints nothing and leaves it as it is. */
  lemma BrokenExactly(req: Request, prof: Profile, file: File, after: nat, updates: seq<Event>, left: int, fate: Fate)
    requires req.cursor != "" && !file.Broken?
    ensures WatchFrom(req, prof, file, after, updates, left, fate).file.Broken? <==>
      KillComes(fate, WatchFrom(req, prof, file, after, updates, left, CLEAN)) && KillsSave(fate) && fate.torn
    ensures var torn := WatchFrom(req, prof, file, after, updates, left, fate).file;
      torn.Broken? ==> forall s: Session :: Refused(req, prof, torn, s)
  {
    hide WatchFrom;
    KilledExactly(req, prof, file, after, updates, left, fate);
    CleanFile(req, prof, file, after, updates, left);
  }

  lemma {:induction false} EventsPrefix(log: Log, req: Request, from: nat, to: nat, n: nat)
    requires from <= to <= |log| && 0 < n <= |Events(log, req, from, to)|
    ensures var all := Events(log, req, from, to);
      from < all[n - 1].revision <= to && Events(log, req, from, all[n - 1].revision) == all[..n]
  {
    hide WatchMatches;
    var all := Events(log, req, from, to);
    var front := Events(log, req, from, to - 1);
    if |front| >= n {
      EventsPrefix(log, req, from, to - 1, n);
      assert all[..n] == front[..n] && all[n - 1] == front[n - 1];
    } else {
      assert all[..n] == all;
    }
  }

  /** A run that has loaded its cursor: the file it read, the revision it starts after, the updates
      it is sent and how far they reach, and how many events it still prints. */
  datatype Watcher = Watcher(file: File, after: nat, updates: seq<Event>, to: nat, left: int)

  function RunOf(req: Request, prof: Profile, w: Watcher, fate: Fate): Run {
    WatchFrom(req, prof, w.file, w.after, w.updates, w.left, fate)
  }

  /** The run's cursor is the loaded one, and its updates leave out nothing requested after that. */
  ghost predicate OnLog(log: Log, req: Request, prof: Profile, w: Watcher) {
    && req.cursor != "" && w.after <= |log|
    && LoadCursor(req, prof, w.file) == Some(w.after) && Serves(log, req, w.after, w.to, w.updates)
  }

  lemma OnLogPrints(log: Log, req: Request, prof: Profile, w: Watcher)
    requires OnLog(log, req, prof, w)
    ensures Between(log, req, prof, w.after, RunOf(req, prof, w, CLEAN))
  {
    hide WatchFrom, WatchMatches, Serves, Between;
    EventsNone(log, req, w.after, w.after);
    CleanRunPrintsAll(log, req, prof, w.file, w.after, w.after, w.to, w.updates, w.left);
  }

  lemma SavedUpTo(log: Log, req: Request, prof: Profile, file: File, after: nat, clean: Run, n: nat)
    requires req.cursor != "" && LoadCursor(req, prof, file) == Some(after)
    requires Between(log, req, prof, after, clean) && n <= |clean.printed|
    ensures var saved := LoadCursor(req, prof, FileAfter(req, prof, file, clean.printed, n));
      && saved.Some? && after <= saved.value <= |log|
      && Events(log, req, after, saved.value) == clean.printed[..n]
  {
    hide WatchMatches, LoadCursor, Stored, Events;
    EventsNone(log, req, after, after);
    if n > 0 {
      EventsPrefix(log, req, after, LoadCursor(req, prof, clean.file).value, n);
      StoredLoads(req, prof, file, clean.printed[n - 1].revision);
    }
  }

  lemma SavedOrPrinted(all: seq<Event>, k: nat)
    requires k < 2 * |all|
    ensures (k + 1) / 2 <= |all|
    ensures all[..(k + 1) / 2] == all[..k / 2] + if k % 2 == 0 then [] else [all[k / 2]]
  {
  }

  /** After any kill that does not tear the file, what was printed, plus the one event saved but not
      yet printed when the kill fell on a print, are exactly the requested events between the cursors. */
  lemma KilledRunLosesAtMostOne(log: Log, req: Request, prof: Profile, w: Watcher, fate: Fate)
    requires OnLog(log, req, prof, w) && !(KillsSave(fate) && fate.torn)
    ensures var run, clean := RunOf(req, prof, w, fate), RunOf(req, prof, w, CLEAN);
      && (KillComes(fate, clean) ==> |run.printed| < |clean.printed|)
      && LoadCursor(req, prof, run.file).Some?
      && var now := LoadCursor(req, prof, run.file).value;
      && w.after <= now <= |log|
      && Events(log, req, w.after, now)
         == run.printed + if KillComes(fate, clean) && !KillsSave(fate) then [clean.printed[|run.printed|]] else []
  {
    hide WatchFrom, WatchMatches, Events, Serves, LoadCursor, FileAfter, Between;
    var clean := RunOf(req, prof, w, CLEAN);
    OnLogPrints(log, req, prof, w);
    KilledExactly(req, prof, w.file, w.after, w.updates, w.left, fate);
    if KillComes(fate, clean) {
      SavedOrPrinted(clean.printed, fate.killAfter.value);
      SavedUpTo(log, req, prof, w.file, w.after, clean, (fate.killAfter.value + 1) / 2);
    } else {
      CleanFile(req, prof, w.file, w.after, w.updates, w.left);
      SavedUpTo(log, req, prof, w.file, w.after, clean, |clean.printed|);
      assert clean.printed[..|clean.printed|] == clean.printed == clean.printed + [];
    }
  }

  // ---------- runs that overlap ----------

  /** A request for one item asks for its key, one for a prefix for every key that starts with it. */
  predicate Requested(req: Request, key: string) {
    (req.scope == "item" && req.target == key) || (req.scope == "prefix" && req.target <= key)
  }

  lemma RequestedExactly(req: Request, key: string)
    ensures WatchMatches(req, key) <==> Requested(req, key)
  {
  }

  /** The requested events between two revisions are exactly the versions in that range whose key the
      request asks for. */
  lemma {:induction false} EventsMembers(log: Log, req: Request, from: nat, to: nat, e: Event)
    requires from <= to <= |log|
    ensures e in Events(log, req, from, to) <==>
      from < e.revision <= to && e == EventAt(log, e.revision) && Requested(req, e.key)
  {
    RequestedExactly(req, e.key);
    if from < to {
      RequestedExactly(req, EventAt(log, to).key);
    }
    hide WatchMatches, Requested;
    if from == to {
    } else {
      EventsMembers(log, req, from, to - 1, e);
    }
  }

  ghost predicate PrintsRevision(run: Run, n: nat) {
    exists i :: 0 <= i < |run.printed| && run.printed[i].revision == n
  }

  function Later(a: nat, b: nat): nat {
    if a < b then b else a
  }

  function Earlier(a: nat, b: nat): nat {
    if a < b then a else b
  }

  lemma PrintsWithin(log: Log, req: Request, prof: Profile, after: nat, run: Run, n: nat)
    requires Between(log, req, prof, after, run)
    ensures PrintsRevision(run, n) <==>
      after < n <= LoadCursor(req, prof, run.file).value && WatchMatches(req, EventAt(log, n).key)
  {
    hide WatchMatches, LoadCursor;
    var now := LoadCursor(req, prof, run.file).value;
    if 0 < n <= |log| {
      RequestedExactly(req, EventAt(log, n).key);
    }
    if PrintsRevision(run, n) {
      var i :| 0 <= i < |run.printed| && run.printed[i].revision == n;
      EventsMembers(log, req, after, now, run.printed[i]);
    }
    if after < n <= now && WatchMatches(req, EventAt(log, n).key) {
      EventsMembers(log, req, after, now, EventAt(log, n));
      var i :| 0 <= i < |run.printed| && run.printed[i] == EventAt(log, n);
      assert run.printed[i].revision == n;
    }
  }

  lemma SharedRevisions(log: Log, req: Request, prof: Profile, a: nat, x: Run, b: nat, y: Run)
    requires Between(log, req, prof, a, x) && Between(log, req, prof, b, y)
    ensures var from := Later(a, b);
      var to := Earlier(LoadCursor(req, prof, x.file).value, LoadCursor(req, prof, y.file).value);
      (exists n: nat :: PrintsRevision(x, n) && PrintsRevision(y, n))
      <==> from <= to && Events(log, req, from, to) != []
  {
    var from := Later(a, b);
    var to := Earlier(LoadCursor(req, prof, x.file).value, LoadCursor(req, prof, y.file).value);
    assert to <= |log|;
    hide WatchMatches, LoadCursor, Between, PrintsRevision, Events;
    if n: nat :| PrintsRevision(x, n) && PrintsRevision(y, n) {
      PrintsWithin(log, req, prof, a, x, n);
      PrintsWithin(log, req, prof, b, y, n);
      EventsMembers(log, req, from, to, EventAt(log, n));
    }
    if from <= to && Events(log, req, from, to) != [] {
      var e := Events(log, req, from, to)[0];
      EventsMembers(log, req, from, to, e);
      PrintsWithin(log, req, prof, a, x, e.revision);
      PrintsWithin(log, req, prof, b, y, e.revision);
      assert PrintsRevision(x, e.revision) && PrintsRevision(y, e.revision);
    }
  }

  /** Two undisturbed runs of one request that loaded the cursors `a` and `b`, overlapping in any way,
      print a common revision if and only if some requested event lies after both cursors they loaded
      and no later than both they ended at. */
  lemma OverlappingRunsRepeat(log: Log, req: Request, prof: Profile, v: Watcher, w: Watcher)
    requires OnLog(log, req, prof, v) && OnLog(log, req, prof, w)
    ensures var x, y := RunOf(req, prof, v, CLEAN), RunOf(req, prof, w, CLEAN);
      && LoadCursor(req, prof, x.file).Some? && LoadCursor(req, prof, y.file).Some?
      && var from := Later(v.after, w.after);
      var to := Earlier(LoadCursor(req, prof, x.file).value, LoadCursor(req, prof, y.file).value);
      && to <= |log|
      && ((exists n: nat :: PrintsRevision(x, n) && PrintsRevision(y, n)) <==>
            from <= to && Events(log, req, from, to) != [])
  {
    hide WatchFrom, WatchMatches, Serves, PrintsRevision, Events;
    OnLogPrints(log, req, prof, v);
    OnLogPrints(log, req, prof, w);
    SharedRevisions(log, req, prof, v.after, RunOf(req, prof, v, CLEAN), w.after, RunOf(req, prof, w, CLEAN));
  }

  /** A run goes on to its next event: it skips what is not wanted, saves the cursor to the file it
      shares, and prints. */
  function Turn(req: Request, prof: Profile, file: File, w: Watcher): (r: (File, Watcher, seq<Event>))
    decreases |w.updates|
  {
    if w.updates == [] then (file, w, [])
    else
      var e, rest := w.updates[0], w.updates[1..];
      if !Wanted(req, w.after, e) then Turn(req, prof, file, w.(updates := rest))
      else if !WellFormed(e) then (file, w.(updates := []), [])
      else
        (Stored(req, prof, file, e.revision),
         w.(after := e.revision, updates := if w.left <= 1 then [] else rest, left := w.left - 1), [e])
  }

  /** Two runs on one file, and what each has printed. */
  datatype Pair = Pair(file: File, v: Watcher, w: Watcher, xs: seq<Event>, ys: seq<Event>)

  /** The two take turns as `order` tells, each saving to the file the other one saves to. */
  function Together(req: Request, prof: Profile, file: File, v: Watcher, w: Watcher, order: seq<bool>): Pair {
    if order == [] then Pair(file, v, w, [], [])
    else
      var t := Together(req, prof, file, v, w, order[..|order| - 1]);
      if order[|order| - 1] then
        var (f, next, es) := Turn(req, prof, t.file, t.v);
        t.(file := f, v := next, xs := t.xs + es)
      else
        var (f, next, es) := Turn(req, prof, t.file, t.w);
        t.(file := f, w := next, ys := t.ys + es)
  }

  /** A run reads the cursor file only when it starts, so what it prints does not depend on what other
      runs do to the file later. */
  lemma {:induction false} OutputIgnoresFile(req: Request, prof: Profile, f: File, g: File, after: nat,
                                             updates: seq<Event>, left: int, fate: Fate)
    ensures WatchFrom(req, prof, f, after, updates, left, fate).printed
            == WatchFrom(req, prof, g, after, updates, left, fate).printed
    decreases |updates|
  {
    hide WatchMatches, WellFormed;
    if updates == [] {
    } else {
      var e, rest := updates[0], updates[1..];
      if Wanted(req, after, e) && WellFormed(e) {
        OutputIgnoresFile(req, prof, Stored(req, prof, f, e.revision), Stored(req, prof, g, e.revision), e.revision,
                          rest, left - 1, Spent(Spent(fate)));
      } else {
        OutputIgnoresFile(req, prof, f, g, after, rest, left, fate);
      }
    }
  }

  lemma {:induction false} TurnIsNext(req: Request, prof: Profile, file: File, w: Watcher)
    requires RunOf(req, prof, w, CLEAN).printed != []
    ensures var all := RunOf(req, prof, w, CLEAN).printed;
      var (f, next, es) := Turn(req, prof, file, w);
      && es == [all[0]] && f == Stored(req, prof, file, all[0].revision)
      && RunOf(req, prof, next, CLEAN).printed == all[1..]
    decreases |w.updates|
  {
    hide WatchMatches, WellFormed, Stored;
    var e, rest := w.updates[0], w.updates[1..];
    if !Wanted(req, w.after, e) {
      TurnIsNext(req, prof, file, w.(updates := rest));
    } else {
      OutputIgnoresFile(req, prof, Stored(req, prof, w.file, e.revision), w.file, e.revision, rest, w.left - 1, CLEAN);
    }
  }

  /** A run that has nothing left to print touches nothing any more. */
  lemma {:induction false} TurnEnds(req: Request, prof: Profile, file: File, w: Watcher)
    requires RunOf(req, prof, w, CLEAN).printed == []
    ensures var (f, next, es) := Turn(req, prof, file, w);
      f == file && es == [] && RunOf(req, prof, next, CLEAN).printed == []
    decreases |w.updates|
  {
    hide WatchMatches, WellFormed, Stored;
    if w.updates == [] {
    } else if !Wanted(req, w.after, w.updates[0]) {
      TurnEnds(req, prof, file, w.(updates := w.updates[1..]));
    }
  }

  predicate EnoughLeft(xs: seq<Event>, ys: seq<Event>, order: seq<bool>) {
    Turns(order, true) <= |xs| && Turns(order, false) <= |ys|
  }

  /** After `n` turns a run has printed the first `n` of what it prints alone, or all, and has the rest left. */
  ghost predicate PrintedSoFar(req: Request, prof: Profile, all: seq<Event>, n: nat, out: seq<Event>, w: Watcher) {
    var k := Earlier(n, |all|);
    out == all[..k] && RunOf(req, prof, w, CLEAN).printed == all[k..]
  }

  lemma OneMore(req: Request, prof: Profile, file: File, w: Watcher, all: seq<Event>, n: nat, out: seq<Event>)
    requires PrintedSoFar(req, prof, all, n, out, w)
    ensures var (f, next, es) := Turn(req, prof, file, w);
      && PrintedSoFar(req, prof, all, n + 1, out + es, next)
      && f == if n < |all| then Stored(req, prof, file, all[n].revision) else file
  {
    hide RunOf, Turn, Stored;
    if n < |all| {
      TurnIsNext(req, prof, file, w);
      assert all[n..][1..] == all[n + 1..] && all[..n] + [all[n]] == all[..n + 1];
    } else {
      TurnEnds(req, prof, file, w);
    }
  }

  lemma {:induction false} TogetherPrints(req: Request, prof: Profile, file: File, v: Watcher, w: Watcher,
                                          order: seq<bool>)
    ensures var t := Together(req, prof, file, v, w, order);
      && PrintedSoFar(req, prof, RunOf(req, prof, v, CLEAN).printed, Turns(order, true), t.xs, t.v)
      && PrintedSoFar(req, prof, RunOf(req, prof, w, CLEAN).printed, Turns(order, false), t.ys, t.w)
  {
    hide RunOf, Turn, Stored, PrintedSoFar;
    if order == [] {
      NoneSoFar(req, prof, v);
      NoneSoFar(req, prof, w);
    } else {
      var front := order[..|order| - 1];
      TogetherPrints(req, prof, file, v, w, front);
      var t := Together(req, prof, file, v, w, front);
      if order[|order| - 1] {
        OneMore(req, prof, t.file, t.v, RunOf(req, prof, v, CLEAN).printed, Turns(front, true), t.xs);
      } else {
        OneMore(req, prof, t.file, t.w, RunOf(req, prof, w, CLEAN).printed, Turns(front, false), t.ys);
      }
    }
  }

  lemma NoneSoFar(req: Request, prof: Profile, w: Watcher)
    ensures PrintedSoFar(req, prof, RunOf(req, prof, w, CLEAN).printed, 0, [], w)
  {
    hide RunOf;
  }

  /** Runs that share their file and take turns in any order print what they would print alone, turn by
      turn and no more, and as long as no turn is in vain the file holds the event saved last. */
  lemma TogetherAsAlone(req: Request, prof: Profile, file: File, v: Watcher, w: Watcher, order: seq<bool>)
    requires req.cursor != ""
    ensures var xs, ys := RunOf(req, prof, v, CLEAN).printed, RunOf(req, prof, w, CLEAN).printed;
      var (n, m) := (Turns(order, true), Turns(order, false));
      var t := Together(req, prof, file, v, w, order);
      && PrintedSoFar(req, prof, xs, n, t.xs, t.v) && PrintedSoFar(req, prof, ys, m, t.ys, t.w)
      && (order != [] && EnoughLeft(xs, ys, order) ==>
            LoadCursor(req, prof, t.file)
            == Some(if order[|order| - 1] then xs[n - 1].revision else ys[m - 1].revision))
  {
    hide RunOf, Turn, LoadCursor, Stored, PrintedSoFar;
    var xs, ys := RunOf(req, prof, v, CLEAN).printed, RunOf(req, prof, w, CLEAN).printed;
    TogetherPrints(req, prof, file, v, w, order);
    if order != [] && EnoughLeft(xs, ys, order) {
      var front := order[..|order| - 1];
      TogetherPrints(req, prof, file, v, w, front);
      var t := Together(req, prof, file, v, w, front);
      if order[|order| - 1] {
        OneMore(req, prof, t.file, t.v, xs, Turns(front, true), t.xs);
        StoredLoads(req, prof, t.file, xs[Turns(front, true)].revision);
      } else {
        OneMore(req, prof, t.file, t.w, ys, Turns(front, false), t.ys);
        StoredLoads(req, prof, t.file, ys[Turns(front, false)].revision);
      }
    }
  }

  /** The next save moves the shared cursor back exactly if the other run saved just before it, and a
      higher revision. */
  lemma CursorMovesBackExactly(req: Request, prof: Profile, file: File, v: Watcher, w: Watcher, order: seq<bool>,
                               mine: bool)
    requires req.cursor != "" && order != [] && InOrder(v.updates) && InOrder(w.updates)
    requires EnoughLeft(RunOf(req, prof, v, CLEAN).printed, RunOf(req, prof, w, CLEAN).printed, order + [mine])
    ensures var xs, ys := RunOf(req, prof, v, CLEAN).printed, RunOf(req, prof, w, CLEAN).printed;
      var (n, m) := (Turns(order, true), Turns(order, false));
      var before := LoadCursor(req, prof, Together(req, prof, file, v, w, order).file);
      var now := LoadCursor(req, prof, Together(req, prof, file, v, w, order + [mine]).file);
      && n <= |xs| && m <= |ys| && before.Some? && now.Some?
      && (now.value < before.value <==>
            && order[|order| - 1] != mine
            && if mine then xs[n].revision < ys[m - 1].revision else ys[m].revision < xs[n - 1].revision)
  {
    hide RunOf, LoadCursor, Together, Turn, PrintedSoFar;
    var next := order + [mine];
    assert next[..|next| - 1] == order;
    TogetherAsAlone(req, prof, file, v, w, order);
    TogetherAsAlone(req, prof, file, v, w, next);
    PrintedInOrder(req, prof, v);
    PrintedInOrder(req, prof, w);
  }

  lemma PrintedInOrder(req: Request, prof: Profile, w: Watcher)
    requires req.cursor != "" && InOrder(w.updates)
    ensures InOrder(RunOf(req, prof, w, CLEAN).printed)
  {
    hide WatchFrom, InOrder;
    RunGoesForward(req, prof, w.file, w.after, w.updates, w.left, CLEAN);
  }

  /** When two undisturbed runs that share their file have ended, having taken turns in any order, the
      cursor is where the run that saved last ended: behind the furthest exactly if that one got less far. */
  lemma SharedCursorExactly(log: Log, req: Request, prof: Profile, file: File, v: Watcher, w: Watcher,
                            order: seq<bool>)
    requires OnLog(log, req, prof, v) && OnLog(log, req, prof, w) && order != []
    requires Turns(order, true) == |RunOf(req, prof, v, CLEAN).printed|
    requires Turns(order, false) == |RunOf(req, prof, w, CLEAN).printed|
    ensures var x, y := RunOf(req, prof, v, CLEAN), RunOf(req, prof, w, CLEAN);
      && LoadCursor(req, prof, x.file).Some? && LoadCursor(req, prof, y.file).Some?
      && var t := Together(req, prof, file, v, w, order);
      var now := LoadCursor(req, prof, t.file);
      var endX, endY := LoadCursor(req, prof, x.file).value, LoadCursor(req, prof, y.file).value;
      && t.xs == x.printed && t.ys == y.printed
      && now == Some(if order[|order| - 1] then endX else endY)
      && (now.value < Later(endX, endY) <==> if order[|order| - 1] then endX < endY else endY < endX)
  {
    hide WatchFrom, WatchMatches, Serves, LoadCursor, Stored, Events, Together;
    OnLogPrints(log, req, prof, v);
    OnLogPrints(log, req, prof, w);
    CleanFile(req, prof, v.file, v.after, v.updates, v.left);
    CleanFile(req, prof, w.file, w.after, w.updates, w.left);
    TogetherAsAlone(req, prof, file, v, w, order);
    var own := if order[|order| - 1] then v else w;
    var mine := RunOf(req, prof, own, CLEAN).printed;
    StoredLoads(req, prof, own.file, mine[|mine| - 1].revision);
  }
}
