/** One delivery with nobody in between, from the message to the run: what is answered, what is written,
    and when the script runs. */
module Delivering {
  import opened Records
  import opened Numbers
  import opened Encoding
  import opened KeyValue
  import opened Ledger
  import opened KVLedger
  import opened Schedule
  import opened Authority
  import opened SourceRouter
  import opened Grants
  import opened Accepting
  import opened AtMostOnce

  // ---------- what the router lets through ----------

  /** A source of one of the five routed kinds that stands somewhere; a stream also names its subject. */
  ghost predicate Routable(src: Source) {
    && src.kind in ["request_reply", "subject", "kv", "object", "stream"]
    && (src.kind == "stream" ==> src.subject != "")
    && exists pos, cursor :: StandsAt(src, pos, cursor)
  }

  lemma RoutableExactly(src: Source)
    ensures Malformed(src) <==> !Routable(src)
  {
    hide StandsAt, SourcePosition;
    MalformedExactly(src);
    if SourcePosition(src).Ok? {
      PlaceExactly(src, SourcePosition(src).value.0, SourcePosition(src).value.1);
    }
    forall pos, cursor
      ensures StandsAt(src, pos, cursor) ==> SourcePosition(src).Ok?
    {
      PlaceExactly(src, pos, cursor);
    }
  }

  /** The router lets a message through, or answers malformed, or gives the refusal of its source. */
  lemma AdmitExactly(auth: Auth, act: Activation, sub: string)
    requires Observes(act.source, sub) || forall s :: !Observes(act.source, s)
    ensures Admit(auth, act)
            == if !Routable(act.source) then Some(SourceMalformed) else Verdict(Refusals(auth, act, sub))
  {
    hide Malformed, Routable, AuthorizeSource, Verdict, Refusals, Observes;
    RoutableExactly(act.source);
    Grants.AnsweredExactly(auth, act, sub);
  }

  ghost predicate Lets(auth: Auth, act: Activation) {
    Routable(act.source) && exists sub :: Granted(auth, act, sub)
  }

  lemma LetsExactly(auth: Auth, act: Activation)
    ensures Admit(auth, act).None? <==> Lets(auth, act)
  {
    hide Malformed, Routable, AuthorizeSource, Granted;
    RoutableExactly(act.source);
    if AuthorizeSource(auth, act).Ok? {
      GrantedExactly(auth, act, AuthorizeSource(auth, act).value);
    }
    forall sub
      ensures Granted(auth, act, sub) ==> AuthorizeSource(auth, act).Ok?
    {
      GrantedExactly(auth, act, sub);
    }
  }

  // ---------- what a call writes ----------

  /** A new activation that may not enter because its hops are used up. */
  ghost predicate Suppresses(s: State, a: Attempt) {
    && Verdict(CallRefusals(a)).None?
    && (forall i :: 0 <= i < |s.accepted| ==> s.accepted[i].dedupeKey != a.act.dedupeKey)
    && 0 < a.act.chain.maxHops <= a.act.chain.hop
    && exists pos, cursor :: StandsAt(a.act.source, pos, cursor)
  }

  /** A record under its dedupe key and, once that is confirmed, under its source. */
  ghost predicate EntryWrites(w: History, a: Attempt) {
    && w != [] && w[0].key == "a." + KeyEnc(a.act.dedupeKey) && Describes(w[0].value, a.act)
    && w[1..] == if a.first == Delivered && a.second != Dropped
                 then [Write("s." + KeyEnc(a.act.sourcePrincipal.sourceID), w[0].value)] else []
  }

  /** One note under the replay cursor the record would have. */
  ghost predicate NoteWrites(w: History, a: Attempt) {
    && |w| == 1 && w[0].key == "x." + KeyEnc(w[0].value.replayCursor)
    && w[0].value.status == Suppressed && Describes(w[0].value.(status := Accepted), a.act)
  }

  /** A call writes the entry of an activation that may enter, the note of one that is suppressed, and
      nothing else. */
  lemma WritesExactly(s: State, a: Attempt)
    ensures var w := AcceptWrites(s, a.act, a.lease, a.first, a.second);
      if Enters(s, a) && a.first != Dropped then EntryWrites(w, a)
      else if Suppresses(s, a) && a.first != Dropped then NoteWrites(w, a)
      else w == []
  {
    EntersExactly(s, a);
    CallRefused(a);
    var place := SourcePosition(a.act.source);
    if place.Ok? {
      PlaceExactly(a.act.source, place.value.0, place.value.1);
    }
    forall pos, cursor
      ensures StandsAt(a.act.source, pos, cursor) ==> place.Ok?
    {
      PlaceExactly(a.act.source, pos, cursor);
    }
    hide SourcePosition, StandsAt, KeyEnc, Enters, FindDedupe, Stale, Precheck, Verdict, CallRefusals;
  }

  /** A router left alone writes what the call writes. */
  lemma SoloWrites(h: History, s: State, auth: Auth, act: Activation, first: Link, second: Link)
    requires Represents(h, s) && Admit(auth, act).None?
    ensures Solo(h, auth, act, first, second).0 == h + AcceptWrites(s, act, LeaseOf(act), first, second)
  {
    hide Represents, FindDedupe, ValueAt, Admit, Precheck, SourcePosition, Stale, AcceptedKey, SourceKey, SuppressedKey,
         LastRevision, HopsExhausted, ReplayCursor, Latest;
    SoloReads(h, s, act);
  }

  // ---------- from the message to the run ----------

  /** Everything one delivery goes through when nothing fails and nobody is in between. */
  function Whole(p: nat, auth: Auth, act: Activation, l: nat, revision: nat): seq<Event> {
    [Deliver(p, auth, act), Route(p, Delivered), Route(p, Delivered), Route(p, Delivered), Route(p, Delivered),
     Hand(l, p, revision), ClaimRun(l, Delivered)]
  }

  lemma ExecLast(s: Sys, events: seq<Event>, e: Event)
    ensures Exec(s, events + [e]) == Do(Exec(s, events), e)
  {
    assert (events + [e])[..|events|] == events;
  }

  /** The router at this phase, and the ledger this far. */
  function Put(s: Sys, p: nat, at: (History, Phase)): Sys {
    s.(ledger := at.0, routers := s.routers[p := at.1])
  }

  lemma RouteOnce(s: Sys, p: nat, at: (History, Phase))
    ensures Do(Put(s, p, at), Route(p, Delivered)) == Put(s, p, RouterStep(at.0, at.1, Delivered))
  {
    hide RouterStep;
    var next := RouterStep(at.0, at.1, Delivered);
    assert s.routers[p := at.1][p := next.1] == s.routers[p := next.1];
  }

  lemma RoutesAlone(s: Sys, p: nat, auth: Auth, act: Activation)
    requires p !in s.routers
    ensures var t := Do(s, Deliver(p, auth, act));
      Do(Do(Do(Do(t, Route(p, Delivered)), Route(p, Delivered)), Route(p, Delivered)), Route(p, Delivered))
      == Put(s, p, Solo(s.ledger, auth, act, Delivered, Delivered))
  {
    var start := (s.ledger, Arrived(auth, act));
    assert Do(s, Deliver(p, auth, act)) == Put(s, p, start);
    SoloInSteps(s.ledger, auth, act);
    hide RouterStep, Do, Put, Solo;
    var one := RouterStep(start.0, start.1, Delivered);
    var two := RouterStep(one.0, one.1, Delivered);
    var three := RouterStep(two.0, two.1, Delivered);
    RouteOnce(s, p, start);
    RouteOnce(s, p, one);
    RouteOnce(s, p, two);
    RouteOnce(s, p, three);
  }

  lemma SoloInSteps(h: History, auth: Auth, act: Activation)
    ensures var one := RouterStep(h, Arrived(auth, act), Delivered);
      var two := RouterStep(one.0, one.1, Delivered);
      var three := RouterStep(two.0, two.1, Delivered);
      RouterStep(three.0, three.1, Delivered) == Solo(h, auth, act, Delivered, Delivered)
  {
    hide Admit, Precheck, Examine, CompareAndSet, ValueAt, AcceptedKey, SourceKey;
  }

  lemma WholeAlone(s: Sys, p: nat, auth: Auth, act: Activation, l: nat, revision: nat)
    requires p !in s.routers
    ensures Exec(s, Whole(p, auth, act, l, revision))
            == Do(Do(Put(s, p, Solo(s.ledger, auth, act, Delivered, Delivered)), Hand(l, p, revision)),
                  ClaimRun(l, Delivered))
  {
    hide Exec, Do, Put, Solo;
    var es := Whole(p, auth, act, l, revision);
    ExecNone(s);
    forall i | 0 <= i < |es|
      ensures Exec(s, es[..i + 1]) == Do(Exec(s, es[..i]), es[i])
    {
      ExecLast(s, es[..i], es[i]);
      assert es[..i + 1] == es[..i] + [es[i]];
    }
    assert es[..0] == [] && es[..7] == es;
    assert Exec(s, es[..1]) == Do(s, es[0]);
    assert Exec(s, es[..2]) == Do(Exec(s, es[..1]), es[1]);
    assert Exec(s, es[..3]) == Do(Exec(s, es[..2]), es[2]);
    assert Exec(s, es[..4]) == Do(Exec(s, es[..3]), es[3]);
    assert Exec(s, es[..5]) == Do(Exec(s, es[..4]), es[4]);
    assert Exec(s, es[..6]) == Do(Exec(s, es[..5]), es[5]);
    assert Exec(s, es[..7]) == Do(Exec(s, es[..6]), es[6]);
    RoutesAlone(s, p, auth, act);
  }

  lemma ExecNone(s: Sys)
    ensures Exec(s, []) == s
  {
  }

  function OwnAttempt(act: Activation): Attempt {
    Attempt(act, Lease(act.sourceLease.leaseID, act.sourceLease.leaseStatus), Delivered, Delivered)
  }

  function ClaimKey(act: Activation, revision: nat): string {
    "r." + KeyEnc(act.activationID) + "_" + Itoa(revision)
  }

  /** The script runs if and only if the message is let through, its activation may enter the ledger, and
      no run of it is claimed at this script revision yet. A message let through is answered and written as
      the ledger says, any other is answered its refusal and nothing is written; the claim is left exactly
      for a run. */
  lemma DeliveredAlone(s: Sys, st: State, p: nat, auth: Auth, act: Activation, l: nat, revision: nat)
    requires Represents(s.ledger, st) && p !in s.routers && l !in s.loops
    ensures var t := Exec(s, Whole(p, auth, act, l, revision));
      var a := OwnAttempt(act);
      var enters := Lets(auth, act) && Enters(st, a);
      var runs := enters && forall i :: 0 <= i < |s.claims| ==> s.claims[i].key != ClaimKey(act, revision);
      && p in t.routers && t.routers[p].Answered?
      && (if Lets(auth, act) then t.routers[p].result == Accept(st, act, a.lease, Delivered, Delivered).1
          else t.routers[p].result.Err? && Admit(auth, act) == Some(t.routers[p].result.kind))
      && t.ledger == s.ledger + (if Lets(auth, act) then AcceptWrites(st, act, a.lease, Delivered, Delivered) else [])
      && (l in t.loops <==> enters) && (enters ==> (t.loops[l].stage == Ran <==> runs))
      && t.claims == s.claims
           + if runs then [Write(ClaimKey(act, revision), Claim(act.activationID, act.scriptKey, revision))] else []
  {
    hide Exec, Lets, Enters, Admit, Accept, AcceptWrites, Represents, Solo, LastRevision, RunKey, KeyEnc, Itoa;
    WholeAlone(s, p, auth, act, l, revision);
    LetsExactly(auth, act);
    var a := OwnAttempt(act);
    if Admit(auth, act).None? {
      SoloIsAccept(s.ledger, st, auth, act, Delivered, Delivered);
      SoloWrites(s.ledger, st, auth, act, Delivered, Delivered);
      AcceptsNew(st, a);
    } else {
      SoloRefused(s.ledger, auth, act);
    }
    KeyNamed(act, revision);
    KeyUnclaimed(s.claims, ClaimKey(act, revision));
    hide ClaimKey;
  }

  lemma KeyNamed(act: Activation, revision: nat)
    ensures ClaimKey(act, revision) == RunKey(act, revision)
  {
  }

  lemma KeyUnclaimed(claims: seq<Write<Claim>>, key: string)
    ensures LastRevision(claims, key) == 0 <==> forall i :: 0 <= i < |claims| ==> claims[i].key != key
  {
  }

  lemma SoloRefused(h: History, auth: Auth, act: Activation)
    requires Admit(auth, act).Some?
    ensures Solo(h, auth, act, Delivered, Delivered) == (h, Answer(act, Err(Admit(auth, act).value)))
  {
    hide Admit;
  }

  /** Undisturbed, a record is new and accepted exactly if the activation may enter. */
  lemma AcceptsNew(s: State, a: Attempt)
    requires a.first == Delivered && a.second == Delivered
    ensures var r := Accept(s, a.act, a.lease, Delivered, Delivered).1;
      r.Ok? && r.value.status == Accepted <==> Enters(s, a)
  {
    hide Enters, FindDedupe, SourcePosition, Stale, ReplayCursor, Precheck;
    EntersExactly(s, a);
  }
}
