/** Which activations share an identity: messages on one route, ticks of schedules. */
module Identity {
  import opened Records
  import opened Text
  import opened Numbers
  import opened Encoding
  import opened KeyValue
  import opened Ledger
  import opened Schedule
  import opened SourceRouter
  import opened AtMostOnce
  import Claims = CommandClaims

  // ---------- stamps ----------

  predicate SameRoute(a: Activation, b: Activation) {
    a.source.kind == b.source.kind && a.scriptKey == b.scriptKey && a.source.activationName == b.source.activationName
  }

  function StampText(parts: seq<string>): string {
    JoinAll(Clean(parts))
  }

  /** On one route both ids are told apart by the stamped text alone. */
  lemma StampsExactly(a: Activation, x: seq<string>, b: Activation, y: seq<string>)
    requires SameRoute(a, b)
    ensures Stamp(a, x).dedupeKey == Stamp(b, y).dedupeKey <==> StampText(x) == StampText(y)
    ensures Stamp(a, x).activationID == Stamp(b, y).activationID <==> StampText(x) == StampText(y)
  {
    hide Clean, Join;
    StampKey(a, x);
    StampKey(b, y);
    StampID(a, x);
    StampID(b, y);
    TailDecides(StampHead(a), StampText(x), StampText(y));
    TailDecides(StampIDHead(a), StampText(x), StampText(y));
  }

  function StampIDHead(act: Activation): string {
    "act:" + act.scriptKey + ":" + act.source.activationName + ":"
  }

  lemma StampID(act: Activation, parts: seq<string>)
    ensures Stamp(act, parts).activationID == StampIDHead(act) + StampText(parts)
  {
    hide Clean, Join, JoinAll;
    Join4("act", act.scriptKey, act.source.activationName, StampText(parts));
  }

  lemma TailDecides(head: string, a: string, b: string)
    ensures head + a == head + b <==> a == b
  {
    assert a == (head + a)[|head|..] && b == (head + b)[|head|..];
  }

  /** Both ids, the one the ledger knows and the one runs are claimed under, agree or differ together. */
  ghost predicate SameIds(tpl: Activation, a: Message, b: Message, same: bool) {
    && (Norm(tpl, a).dedupeKey == Norm(tpl, b).dedupeKey <==> same)
    && (Norm(tpl, a).activationID == Norm(tpl, b).activationID <==> same)
  }

  // ---------- messages on one template ----------

  lemma OnePart(s: string)
    ensures StampText([s]) == s
  {
    Clean1(s);
  }

  /** Requests share their ids exactly if they share the request id. */
  lemma RequestsApart(tpl: Activation, subject1: string, id1: string, subject2: string, id2: string)
    ensures SameIds(tpl, Request(subject1, id1), Request(subject2, id2), id1 == id2)
  {
    hide Stamp, StampText;
    StampsExactly(tpl.(source := tpl.source.(subject := subject1, requestID := id1)), [id1],
                  tpl.(source := tpl.source.(subject := subject2, requestID := id2)), [id2]);
    OnePart(id1);
    OnePart(id2);
  }

  /** What tells published messages apart: the stream sequence if there is one, else the message id. */
  function PublishedText(tpl: Activation, messageID: string, meta: Option<Meta>): string {
    var sequence := if meta.Some? then meta.value.streamSequence else tpl.source.streamSequence;
    if sequence > 0 then Digits(sequence) else messageID
  }

  lemma PublishedApart(tpl: Activation, subject1: string, id1: string, meta1: Option<Meta>,
                       subject2: string, id2: string, meta2: Option<Meta>)
    ensures SameIds(tpl, Published(subject1, id1, meta1), Published(subject2, id2, meta2),
                    PublishedText(tpl, id1, meta1) == PublishedText(tpl, id2, meta2))
  {
    hide Stamp, StampText, Digits;
    PublishedStamp(tpl, subject1, id1, meta1);
    PublishedStamp(tpl, subject2, id2, meta2);
    OnePart(PublishedText(tpl, id1, meta1));
    OnePart(PublishedText(tpl, id2, meta2));
    StampsExactly(tpl.(source := WithMeta(tpl.source.(observedSubject := subject1, messageID := id1), meta1)),
                  [PublishedText(tpl, id1, meta1)],
                  tpl.(source := WithMeta(tpl.source.(observedSubject := subject2, messageID := id2), meta2)),
                  [PublishedText(tpl, id2, meta2)]);
  }

  lemma PublishedStamp(tpl: Activation, subject: string, id: string, meta: Option<Meta>)
    ensures Norm(tpl, Published(subject, id, meta))
            == Stamp(tpl.(source := WithMeta(tpl.source.(observedSubject := subject, messageID := id), meta)),
                     [PublishedText(tpl, id, meta)])
  {
    hide Stamp, Digits;
  }

  /** Messages stored in a stream share their ids exactly if they share the stream sequence. */
  lemma StreamedApart(tpl: Activation, subject1: string, id1: string, m1: Meta, subject2: string, id2: string, m2: Meta)
    requires m1.streamSequence > 0 && m2.streamSequence > 0
    ensures SameIds(tpl, Published(subject1, id1, Some(m1)), Published(subject2, id2, Some(m2)),
                    m1.streamSequence == m2.streamSequence)
  {
    hide Norm, Digits;
    PublishedApart(tpl, subject1, id1, Some(m1), subject2, id2, Some(m2));
    if Digits(m1.streamSequence) == Digits(m2.streamSequence) {
      DigitsInjective(m1.streamSequence, m2.streamSequence);
    }
  }

  lemma ThreeParts(a: string, b: string, c: string)
    requires a != "" && b != "" && c != ""
    ensures StampText([a, b, c]) == a + ":" + b + ":" + c
  {
    CleanKeeps(a, b, c);
    Join3(a, b, c);
  }

  /** Versions of a key or an object: the text after the last colon is the number. */
  lemma NumberedApart(a: string, x: nat, b: string, y: nat)
    ensures a + ":" + Digits(x) == b + ":" + Digits(y) <==> a == b && x == y
  {
    hide Digits;
    if a + ":" + Digits(x) == b + ":" + Digits(y) {
      CutAtLastColon(a, Digits(x), b, Digits(y));
      DigitsInjective(x, y);
    }
  }

  /** Key revisions share their ids exactly if they have one revision and their buckets and keys read
      the same when joined: so never across revisions. */
  lemma RevisedApart(tpl: Activation, bucket1: string, key1: string, rev1: nat,
                     bucket2: string, key2: string, rev2: nat)
    requires bucket1 != "" && key1 != "" && bucket2 != "" && key2 != ""
    ensures SameIds(tpl, Revised(bucket1, key1, rev1), Revised(bucket2, key2, rev2),
                    rev1 == rev2 && bucket1 + ":" + key1 == bucket2 + ":" + key2)
  {
    hide Stamp, StampText, Digits;
    ThreeParts(bucket1, key1, Digits(rev1));
    ThreeParts(bucket2, key2, Digits(rev2));
    NumberedApart(bucket1 + ":" + key1, rev1, bucket2 + ":" + key2, rev2);
    StampsExactly(RevisedOn(tpl, bucket1, key1, rev1), [bucket1, key1, Digits(rev1)],
                  RevisedOn(tpl, bucket2, key2, rev2), [bucket2, key2, Digits(rev2)]);
  }

  function RevisedOn(tpl: Activation, bucket: string, key: string, rev: nat): Activation {
    tpl.(source := tpl.source.(bucket := bucket, key := key, revision := rev,
                               resume := "kv:" + bucket + ":" + key + ":" + Digits(rev)))
  }

  /** The same for stored objects and their sequence. */
  lemma StoredApart(tpl: Activation, bucket1: string, name1: string, size1: nat, seq1: nat,
                    bucket2: string, name2: string, size2: nat, seq2: nat)
    requires bucket1 != "" && name1 != "" && bucket2 != "" && name2 != ""
    ensures SameIds(tpl, Stored(bucket1, name1, size1, seq1), Stored(bucket2, name2, size2, seq2),
                    seq1 == seq2 && bucket1 + ":" + name1 == bucket2 + ":" + name2)
  {
    hide Stamp, StampText, Digits;
    ThreeParts(bucket1, name1, Digits(seq1));
    ThreeParts(bucket2, name2, Digits(seq2));
    NumberedApart(bucket1 + ":" + name1, seq1, bucket2 + ":" + name2, seq2);
    StampsExactly(StoredOn(tpl, bucket1, name1, size1, seq1), [bucket1, name1, Digits(seq1)],
                  StoredOn(tpl, bucket2, name2, size2, seq2), [bucket2, name2, Digits(seq2)]);
  }

  function StoredOn(tpl: Activation, bucket: string, name: string, size: nat, sequence: nat): Activation {
    tpl.(source := tpl.source.(bucket := bucket, name := name, revision := size, objectMetaSequence := sequence,
                               watchPosition := "obj:" + bucket + ":" + name + ":" + Digits(sequence)))
  }

  /** Pulled messages share their ids exactly if both sequences are the same and stream and consumer
      read the same when joined. */
  lemma PulledTogether(tpl: Activation, subject1: string, m: Meta, subject2: string, n: Meta)
    requires m.stream != "" && m.consumer != "" && n.stream != "" && n.consumer != ""
    ensures SameIds(tpl, Pulled(subject1, Some(m)), Pulled(subject2, Some(n)),
                    && m.streamSequence == n.streamSequence && m.consumerSequence == n.consumerSequence
                    && m.stream + ":" + m.consumer == n.stream + ":" + n.consumer)
  {
    hide Stamp, StampText, Digits;
    PulledStampText(m);
    PulledStampText(n);
    NumberedApart(m.stream + ":" + m.consumer + ":" + Digits(m.streamSequence), m.consumerSequence,
                  n.stream + ":" + n.consumer + ":" + Digits(n.streamSequence), n.consumerSequence);
    NumberedApart(m.stream + ":" + m.consumer, m.streamSequence, n.stream + ":" + n.consumer, n.streamSequence);
    StampsExactly(PulledOn(tpl, subject1, m), PulledPieces(m), PulledOn(tpl, subject2, n), PulledPieces(n));
  }

  function PulledPieces(m: Meta): seq<string> {
    [m.stream, m.consumer, Digits(m.streamSequence), Digits(m.consumerSequence)]
  }

  function PulledOn(tpl: Activation, subject: string, m: Meta): Activation {
    var src := WithMeta(tpl.source.(subject := subject), Some(m));
    tpl.(source := src.(deliveryAttempt := m.attempt))
  }

  lemma PulledStampText(m: Meta)
    requires m.stream != "" && m.consumer != ""
    ensures StampText(PulledPieces(m))
            == m.stream + ":" + m.consumer + ":" + Digits(m.streamSequence) + ":" + Digits(m.consumerSequence)
  {
    hide Clean, Join, Digits;
    PulledParts(m.stream, m.consumer, Digits(m.streamSequence), Digits(m.consumerSequence));
    var x, y := Digits(m.streamSequence), Digits(m.consumerSequence);
    assert m.stream + ":" + (m.consumer + ":" + x + ":" + y) == m.stream + ":" + m.consumer + ":" + x + ":" + y;
  }

  // ---------- what an activation carries of its message ----------

  /** A message's activation stands at the message's own position, under a cursor that ends in it. */
  lemma PlacedWhereMessageIs(tpl: Activation, msg: Message)
    ensures msg.Request? && tpl.source.kind == "request_reply" && msg.subject != "" && msg.requestID != "" ==>
      SourcePosition(Norm(tpl, msg).source) == Ok((0, msg.requestID))
    ensures msg.Revised? && tpl.source.kind == "kv" && msg.bucket != "" && msg.key != "" && msg.revision > 0 ==>
      SourcePosition(Norm(tpl, msg).source)
      == Ok((msg.revision, "kv:" + msg.bucket + ":" + msg.key + ":" + Itoa(msg.revision)))
    ensures msg.Stored? && tpl.source.kind == "object" && msg.bucket != "" && msg.name != "" && msg.sequence > 0 ==>
      SourcePosition(Norm(tpl, msg).source)
      == Ok((msg.sequence, "obj:" + msg.bucket + ":" + msg.name + ":" + Itoa(msg.sequence)))
    ensures msg.Pulled? && msg.meta.Some? && tpl.source.kind == "stream"
            && msg.meta.value.stream != "" && msg.meta.value.consumer != ""
            && msg.meta.value.streamSequence > 0 && msg.meta.value.consumerSequence > 0 ==>
      var m := msg.meta.value;
      SourcePosition(Norm(tpl, msg).source)
      == Ok((m.streamSequence,
             m.stream + ":" + m.consumer + ":" + Itoa(m.streamSequence) + ":" + Itoa(m.consumerSequence)))
    ensures msg.Published? && msg.meta.Some? && tpl.source.kind == "subject" && tpl.source.pattern != ""
            && msg.subject != "" && msg.meta.value.streamSequence > 0 ==>
      SourcePosition(Norm(tpl, msg).source)
      == Ok((msg.meta.value.streamSequence, Itoa(msg.meta.value.streamSequence)))
  {
    hide Clean, JoinAll, Join, Itoa;
  }

  // ---------- ticks ----------

  lemma ColonPair(a: string, b: string, x: string, y: string)
    requires ':' !in a && ':' !in x && a + ":" + b == x + ":" + y
    ensures a == x && b == y
  {
    var s := a + ":" + b;
    assert s[|a|] == ':' && s[|x|] == ':';
    assert forall i :: 0 <= i < |a| ==> s[i] == a[i] && a[i] in a;
    assert forall i :: 0 <= i < |x| ==> s[i] == x[i] && x[i] in x;
    assert |a| == |x|;
    assert a == s[..|a|] && b == s[|a| + 1..];
  }

  /** Ticks of one template share the dedupe key, and share the activation id, exactly if they share the
      tick id; and their runs share a claim exactly if the script revision is the same too. */
  lemma TicksApart(tpl: Activation, s: Tick, t: Tick, x: nat, y: nat)
    requires Activate(tpl, s).Ok? && Activate(tpl, t).Ok?
    ensures var a, b := Activate(tpl, s).value.act, Activate(tpl, t).value.act;
      && (a.dedupeKey == b.dedupeKey <==> s.tickID == t.tickID)
      && (a.activationID == b.activationID <==> s.tickID == t.tickID)
      && (RunKey(a, x) == RunKey(b, y) <==> s.tickID == t.tickID && x == y)
  {
    hide ClockPos, KeyEnc, Itoa;
    var a, b := Activate(tpl, s).value.act, Activate(tpl, t).value.act;
    TailDecides("schedule:" + tpl.scriptKey + ":" + tpl.source.scheduleID + ":", s.tickID, t.tickID);
    TailDecides("act:" + tpl.scriptKey + ":schedule:", s.tickID, t.tickID);
    if RunKey(a, x) == RunKey(b, y) {
      RunKeyInjective(a, x, b, y);
    }
  }

  /** The activation id leaves out the schedule. Ticks of two schedules of one script enter the ledger
      under different keys, but with one tick id they claim the same run. */
  lemma SchedulesShareRuns(p: Activation, q: Activation, s: Tick, t: Tick, x: nat)
    requires Activate(p, s).Ok? && Activate(q, t).Ok? && p.scriptKey == q.scriptKey
    requires p.source.scheduleID != q.source.scheduleID
    requires ':' !in p.source.scheduleID && ':' !in q.source.scheduleID
    ensures var a, b := Activate(p, s).value.act, Activate(q, t).value.act;
      && a.dedupeKey != b.dedupeKey
      && (RunKey(a, x) == RunKey(b, x) <==> s.tickID == t.tickID)
  {
    hide ClockPos, KeyEnc, Itoa;
    var a, b := Activate(p, s).value.act, Activate(q, t).value.act;
    var head := "schedule:" + p.scriptKey + ":";
    var y, z := p.source.scheduleID + ":" + s.tickID, q.source.scheduleID + ":" + t.tickID;
    assert a.dedupeKey == head + y && b.dedupeKey == head + z;
    TailDecides(head, y, z);
    if y == z {
      ColonPair(p.source.scheduleID, s.tickID, q.source.scheduleID, t.tickID);
    }
    TailDecides("act:" + p.scriptKey + ":schedule:", s.tickID, t.tickID);
    if RunKey(a, x) == RunKey(b, x) {
      RunKeyInjective(a, x, b, x);
    }
  }

  /** So of two such ticks, handed to loops at one script revision, only the first to claim runs. */
  lemma SecondScheduleSkipped(s: Sys, l: nat, m: nat)
    requires l in s.loops && m in s.loops && l != m && s.loops[l].stage == Claiming && s.loops[m].stage == Claiming
    requires s.loops[l].act.activationID == s.loops[m].act.activationID && s.loops[l].revision == s.loops[m].revision
    requires LastRevision(s.claims, RunKey(s.loops[l].act, s.loops[l].revision)) == 0
    ensures var t := Do(Do(s, ClaimRun(l, Delivered)), ClaimRun(m, Delivered));
      t.loops[l].stage == Ran && t.loops[m].stage == Skipped
  {
    hide LastRevision, KeyEnc, Itoa;
    var loop := s.loops[l];
    var w := Write(RunKey(loop.act, loop.revision), Claim(loop.act.activationID, loop.act.scriptKey, loop.revision));
    LastRevisionAppend(s.claims, w, w.key);
  }

  // ---------- commands ----------

  /** The activation of an accepted command: ids that spell script, activation and command, the route's
      script, and the command's chain one hop on. */
  lemma CommandSays(route: Claims.Route, intent: Claims.Intent, at: string)
    ensures var a := Claims.ActivationFor(route, intent, at);
      var text := route.scriptKey + ":" + route.activationName + ":" + intent.commandID;
      && a.activationID == "act:" + text && a.dedupeKey == "command_acceptance:" + text
      && a.scriptKey == route.scriptKey && a.observedAt == at
      && a.chain.chainID == intent.chain.chainID && a.chain.maxHops == intent.chain.maxHops
      && a.chain.hop == intent.chain.hop + 1
  {
    hide Join;
    var text := route.scriptKey + ":" + route.activationName + ":" + intent.commandID;
    Join4("act", route.scriptKey, route.activationName, intent.commandID);
    Join4("command_acceptance", route.scriptKey, route.activationName, intent.commandID);
    assert "act" + ":" + route.scriptKey + ":" + route.activationName + ":" + intent.commandID == "act:" + text;
    assert "command_acceptance" + ":" + route.scriptKey + ":" + route.activationName + ":" + intent.commandID
           == "command_acceptance:" + text;
  }

  /** In every run, two activations handed out for one script and activation name share their ids exactly
      if they are for one command, and then they were handed to one caller. */
  lemma CommandsApart(events: seq<Claims.Event>, p: nat, q: nat)
    requires Activated(events, p) && Activated(events, q)
    requires RouteTaken(events, p) == RouteTaken(events, q)
    ensures var s := Claims.Exec(events);
      var a, b := s.outcomes[p].activation.value, s.outcomes[q].activation.value;
      && (a.activationID == b.activationID <==> s.callers[p] == s.callers[q])
      && (a.dedupeKey == b.dedupeKey <==> s.callers[p] == s.callers[q])
      && (s.callers[p] == s.callers[q] <==> p == q)
  {
    hide Claims.Exec, Claims.Permitted, Claims.Deny, Claims.ActivationFor;
    Claims.AnswerIsOneCallsDecision(events, p);
    Claims.AnswerIsOneCallsDecision(events, q);
    var s := Claims.Exec(events);
    var x, y := s.jobs[p], s.jobs[q];
    var head := RouteTaken(events, p).scriptKey + ":" + RouteTaken(events, p).activationName + ":";
    CommandSays(RouteTaken(events, p), x.intent, s.outcomes[p].status.observedAt);
    CommandSays(RouteTaken(events, q), y.intent, s.outcomes[q].status.observedAt);
    BothTailsDecide("act:", head, x.intent.commandID, y.intent.commandID);
    BothTailsDecide("command_acceptance:", head, x.intent.commandID, y.intent.commandID);
    if s.callers[p] == s.callers[q] {
      Claims.OneStatusOneCreator(events, p, q);
    }
  }

  lemma BothTailsDecide(front: string, head: string, a: string, b: string)
    ensures front + (head + a) == front + (head + b) <==> a == b
  {
    TailDecides(front, head + a, head + b);
    TailDecides(head, a, b);
  }

  predicate Activated(events: seq<Claims.Event>, p: nat) {
    var s := Claims.Exec(events);
    && p in s.outcomes && s.outcomes[p].Answered? && s.outcomes[p].activation.Some?
    && p in s.callers && p in s.jobs && s.jobs[p].intent.command in s.jobs[p].opts.routes
  }

  /** The route of the command the caller `p` asked for. */
  function RouteTaken(events: seq<Claims.Event>, p: nat): Claims.Route
    requires Activated(events, p)
  {
    var job := Claims.Exec(events).jobs[p];
    job.opts.routes[job.intent.command]
  }
}
