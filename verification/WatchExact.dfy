/** One undisturbed run of the item watch, from what was asked: what it prints, why it ends, and the cursor
    it leaves. */
module WatchExact {
  import opened Records
  import opened ItemWatch

  predicate Asked(req: Request, after: nat, e: Event) {
    Requested(req, e.key) && after < e.revision
  }

  /** The updates asked for, beyond the cursor. */
  function Picks(req: Request, after: nat, updates: seq<Event>): seq<Event> {
    if updates == [] then []
    else (if Asked(req, after, updates[0]) then [updates[0]] else []) + Picks(req, after, updates[1..])
  }

  /** An item of the current form that is the one its key says. */
  predicate Whole(e: Event) {
    e.item.Item? && e.item.kind == "tinkabot.item.v1" && e.item.key == e.key
  }

  lemma WholeExactly(e: Event)
    ensures WellFormed(e) <==> Whole(e)
  {
  }

  lemma {:induction false} PicksLater(req: Request, after: nat, now: nat, updates: seq<Event>)
    requires after <= now && Beyond(now, updates)
    ensures Picks(req, now, updates) == Picks(req, after, updates)
  {
    hide Requested;
    if updates == [] {
    } else {
      assert updates[0].revision > now;
      assert forall i :: 0 <= i < |updates| - 1 ==> updates[1..][i] == updates[i + 1];
      PicksLater(req, after, now, updates[1..]);
    }
  }

  /** The run prints the first of the picks, up to its limit: it finishes when it has printed that many, is
      refused at the first pick that is not whole, and otherwise ends with the updates; its cursor is at the
      last pick printed. */
  ghost predicate RunsOver(req: Request, prof: Profile, file: File, picks: seq<Event>, limit: int, run: Run) {
    var n := |run.printed|;
    && n <= limit && run.printed <= picks && (forall i :: 0 <= i < n ==> Whole(picks[i]))
    && (n == limit ==> run.end == Finished)
    && (n < limit && n < |picks| ==> !Whole(picks[n]) && run.end == Denied(EventMalformed))
    && (n < limit && n == |picks| ==> run.end == Ended)
    && run.file == if n == 0 || req.cursor == "" then file else
         Saved(Cursor("tinkalet.cursor.item.v1", req.cursor, prof.name, prof.source, req.scope, req.target,
                      picks[n - 1].revision))
  }

  lemma {:induction false} CleanRunExactly(req: Request, prof: Profile, file: File, after: nat, updates: seq<Event>,
                                           limit: int)
    requires InOrder(updates) && limit > 0
    ensures RunsOver(req, prof, file, Picks(req, after, updates), limit,
                     WatchFrom(req, prof, file, after, updates, limit, CLEAN))
    decreases |updates|
  {
    hide WatchMatches, WellFormed, Requested, Whole, RunsOver, WatchFrom;
    if updates == [] {
      NothingPicked(req, prof, file, after, limit);
    } else {
      var e, rest := updates[0], updates[1..];
      RequestedExactly(req, e.key);
      WholeExactly(e);
      TailInOrder(updates);
      CleanStep(req, prof, file, after, updates, limit);
      if !Wanted(req, after, e) {
        assert Picks(req, after, updates) == Picks(req, after, rest);
        CleanRunExactly(req, prof, file, after, rest, limit);
      } else if !WellFormed(e) {
        StopsAt(req, prof, file, e, Picks(req, after, rest), limit);
      } else if limit <= 1 {
        assert [e] + [] == [e];
        LastPrinted(req, prof, file, e, Picks(req, after, rest), limit);
      } else {
        var saved := ItemWatch.Stored(req, prof, file, e.revision);
        CleanRunExactly(req, prof, saved, e.revision, rest, limit - 1);
        PicksLater(req, after, e.revision, rest);
        PrintedOver(req, prof, file, e, Picks(req, after, rest), limit,
                    WatchFrom(req, prof, saved, e.revision, rest, limit - 1, CLEAN));
      }
    }
  }

  lemma NothingPicked(req: Request, prof: Profile, file: File, after: nat, limit: int)
    requires limit > 0
    ensures Picks(req, after, []) == []
    ensures RunsOver(req, prof, file, [], limit, WatchFrom(req, prof, file, after, [], limit, CLEAN))
  {
  }

  lemma StopsAt(req: Request, prof: Profile, file: File, e: Event, rest: seq<Event>, limit: int)
    requires limit > 0 && !Whole(e)
    ensures RunsOver(req, prof, file, [e] + rest, limit, Run(file, [], Denied(EventMalformed)))
  {
    hide Whole;
  }

  lemma LastPrinted(req: Request, prof: Profile, file: File, e: Event, rest: seq<Event>, limit: int)
    requires limit == 1 && Whole(e)
    ensures RunsOver(req, prof, file, [e] + rest, limit,
                     Run(ItemWatch.Stored(req, prof, file, e.revision), [e], Finished))
  {
    hide Whole;
  }

  lemma PrintedOver(req: Request, prof: Profile, file: File, e: Event, rest: seq<Event>, limit: int, run: Run)
    requires limit > 1 && Whole(e)
    requires RunsOver(req, prof, ItemWatch.Stored(req, prof, file, e.revision), rest, limit - 1, run)
    ensures RunsOver(req, prof, file, [e] + rest, limit, run.(printed := [e] + run.printed))
  {
    hide Whole;
    var picks, n := [e] + rest, |run.printed|;
    assert forall i :: 0 <= i < |rest| ==> picks[i + 1] == rest[i];
    assert n < |rest| ==> picks[n + 1] == rest[n];
    assert n > 0 ==> picks[n] == rest[n - 1];
    forall i | 0 <= i < n + 1
      ensures Whole(picks[i])
    {
      if i > 0 {
        assert picks[i] == rest[i - 1];
      }
    }
  }

  /** The cursor a run may resume: none asked for or none saved yet, or one saved for this very request and
      profile, not past the end of the stream. */
  ghost predicate Resumable(req: Request, prof: Profile, file: File, lastSeq: nat, after: nat) {
    || ((req.cursor == "" || file.Absent?) && after == 0)
    || (req.cursor != "" && after <= lastSeq
        && file == Saved(Cursor("tinkalet.cursor.item.v1", req.cursor, prof.name, prof.source, req.scope, req.target,
                                after)))
  }

  /** A run starts from the cursor it may resume, and is refused, with nothing changed, without one. */
  lemma StartsExactly(req: Request, prof: Profile, file: File, s: Session)
    requires s.fate == CLEAN && InOrder(s.updates) && s.limit > 0
    ensures var run := Watch(req, prof, file, s.lastSeq, s.updates, s.limit, s.fate);
      && (forall after: nat :: Resumable(req, prof, file, s.lastSeq, after) ==>
            RunsOver(req, prof, file, Picks(req, after, s.updates), s.limit, run))
      && ((forall after: nat :: !Resumable(req, prof, file, s.lastSeq, after)) ==>
            run == Run(file, [], Denied(CursorRefused)))
  {
    hide RunsOver, Picks, WatchFrom, InOrder;
    forall after: nat
      ensures Resumable(req, prof, file, s.lastSeq, after) <==>
        LoadCursor(req, prof, file) == Some(after) && after <= s.lastSeq
    {
    }
    var loaded := LoadCursor(req, prof, file);
    if loaded.Some? && loaded.value <= s.lastSeq {
      CleanRunExactly(req, prof, file, loaded.value, s.updates, s.limit);
    }
  }
}
