/** The source router: what identity a message gets, and what redelivering it does. */
module SourceRouter {
  import opened Records
  import opened Text
  import opened Numbers
  import opened Encoding
  import opened KeyValue
  import opened Ledger
  import opened Authority

  /** JetStream's account of one delivery. */
  datatype Meta = Meta(stream: string, consumer: string, streamSequence: nat, consumerSequence: nat, attempt: nat)

  /** A message as a route receives it. */
  datatype Message =
    | Request(subject: string, requestID: string)
    | Published(subject: string, messageID: string, meta: Option<Meta>)
    | Revised(bucket: string, key: string, revision: nat)
    | Stored(bucket: string, name: string, size: nat, sequence: nat)
    | Pulled(subject: string, meta: Option<Meta>)

  function Digits(n: int): (s: string)
    ensures s != "" && ':' !in s
  {
    if n < 0 then "-" + Itoa(-n) else Itoa(n)
  }

  /** Printed numbers read back. */
  lemma DigitsReadBack(n: int)
    requires -0x8000_0000_0000_0000 <= n <= 0x7FFF_FFFF_FFFF_FFFF
    ensures Atoi(Digits(n)) == Some(n)
  {
    hide Itoa;
    if n < 0 {
      ItoaValue(-n);
      assert Digits(n)[1..] == Itoa(-n);
    } else {
      AtoiItoa(n);
    }
  }

  // ---------- identity ----------

  function Clean(parts: seq<string>): (r: seq<string>)
    ensures forall i :: 0 <= i < |r| ==> r[i] != "" && r[i] in parts
  {
    if parts == [] then [] else (if parts[0] == "" then [] else [parts[0]]) + Clean(parts[1..])
  }

  function JoinAll(parts: seq<string>): string {
    if parts == [] then "" else Join(parts, ':')
  }

  function Stamp(act: Activation, parts: seq<string>): Activation {
    var id := JoinAll(Clean(parts));
    act.(dedupeKey := Join([act.source.kind, act.scriptKey, act.source.activationName, id], ':'),
         activationID := Join(["act", act.scriptKey, act.source.activationName, id], ':'))
  }

  function WithMeta(src: Source, meta: Option<Meta>): Source {
    match meta
    case None => src
    case Some(m) => src.(stream := m.stream, consumer := m.consumer, streamSequence := m.streamSequence,
                         consumerSequence := m.consumerSequence)
  }

  /** The activation a message raises, on the route's template. */
  function Norm(tpl: Activation, msg: Message): Activation {
    match msg
    case Request(subject, requestID) =>
      Stamp(tpl.(source := tpl.source.(subject := subject, requestID := requestID)), [requestID])
    case Published(subject, messageID, meta) =>
      var src := WithMeta(tpl.source.(observedSubject := subject, messageID := messageID), meta);
      Stamp(tpl.(source := src), [if src.streamSequence > 0 then Digits(src.streamSequence) else messageID])
    case Revised(bucket, key, revision) =>
      Stamp(tpl.(source := tpl.source.(bucket := bucket, key := key, revision := revision,
                                       resume := "kv:" + bucket + ":" + key + ":" + Digits(revision))),
            [bucket, key, Digits(revision)])
    case Stored(bucket, name, size, sequence) =>
      Stamp(tpl.(source := tpl.source.(bucket := bucket, name := name, revision := size, objectMetaSequence := sequence,
                                       watchPosition := "obj:" + bucket + ":" + name + ":" + Digits(sequence))),
            [bucket, name, Digits(sequence)])
    case Pulled(subject, meta) =>
      var src := WithMeta(tpl.source.(subject := subject), meta);
      var attempted := if meta.Some? then src.(deliveryAttempt := meta.value.attempt) else src;
      Stamp(tpl.(source := attempted),
            [src.stream, src.consumer, Digits(src.streamSequence), Digits(src.consumerSequence)])
  }

  predicate Malformed(src: Source) {
    match src.kind
    case "request_reply" => src.subject == "" || src.requestID == ""
    case "subject" =>
      || src.pattern == "" || src.observedSubject == ""
      || (src.streamSequence <= 0 && src.messageID == "")
    case "kv" => src.bucket == "" || src.key == "" || src.revision <= 0 || src.resume == ""
    case "object" => src.bucket == "" || src.name == "" || src.objectMetaSequence <= 0 || src.watchPosition == ""
    case "stream" =>
      || src.subject == "" || src.stream == "" || src.consumer == ""
      || src.streamSequence <= 0 || src.consumerSequence <= 0
    case _ => true
  }

  /** What a router does before it touches the ledger. */
  function Admit(auth: Auth, act: Activation): Option<Kind> {
    if Malformed(act.source) then Some(SourceMalformed)
    else
      match AuthorizeSource(auth, act)
      case Err(kind) => Some(kind)
      case Ok(_) => None
  }

  /** The router's own check is the ledger's, except that a stream message also needs its subject. */
  lemma MalformedExactly(src: Source)
    ensures Malformed(src) <==>
      || src.kind !in ["request_reply", "subject", "kv", "object", "stream"]
      || SourcePosition(src).Err? || (src.kind == "stream" && src.subject == "")
  {
  }

  /** An admitted message passes all checks of the ledger, so it is accepted, a duplicate, suppressed,
      stale, or the victim of a failed write, and nothing else. */
  lemma AdmittedReachesLedger(auth: Auth, tpl: Activation, msg: Message, s: State, first: Link, second: Link)
    requires Admit(auth, Norm(tpl, msg)).None?
    ensures var act := Norm(tpl, msg);
      var r := Accept(s, act, Lease(act.sourceLease.leaseID, act.sourceLease.leaseStatus), first, second).1;
      r.Err? ==> r.kind in [LoopSuppressed, StaleCursor, WriteConflict]
  {
    hide SourcePosition, ReplayCursor, FindDedupe, Stale, Malformed, Norm, CheckExposure, SourceSubject,
         CheckSourceAperture;
    var act := Norm(tpl, msg);
    MalformedExactly(act.source);
    StampNamed(tpl, msg);
  }

  lemma StampNamed(tpl: Activation, msg: Message)
    ensures Norm(tpl, msg).dedupeKey != ""
  {
    hide Digits, Clean, JoinAll;
  }

  // ---------- redelivery ----------

  /** The same message delivered again: only the delivery's own numbering may differ. */
  predicate Redelivered(a: Message, b: Message) {
    match (a, b)
    case (Published(s, id, Some(m)), Published(t, jd, Some(n))) => s == t && id == jd && SameStored(m, n)
    case (Pulled(s, Some(m)), Pulled(t, Some(n))) => s == t && SameStored(m, n)
    case _ => a == b
  }

  predicate SameStored(m: Meta, n: Meta) {
    m.stream == n.stream && m.streamSequence == n.streamSequence
  }

  predicate SameIdentity(a: Activation, b: Activation) {
    a.dedupeKey == b.dedupeKey && a.activationID == b.activationID
  }

  lemma DigitsInjective(m: nat, n: nat)
    requires Digits(m) == Digits(n)
    ensures m == n
  {
    ItoaValue(m);
    ItoaValue(n);
  }

  lemma LastColon(a: string, x: string, b: string, y: string)
    requires ':' !in x && a + ":" + x == b + ":" + y
    ensures |b| <= |a|
  {
    assert (b + ":" + y)[|b|] == ':';
    assert forall i :: |a| < i < |a + ":" + x| ==> (a + ":" + x)[i] == x[i - |a| - 1] && x[i - |a| - 1] in x;
  }

  /** The text after the last colon is determined by the whole text. */
  lemma CutAtLastColon(a: string, x: string, b: string, y: string)
    requires ':' !in x && ':' !in y
    requires a + ":" + x == b + ":" + y
    ensures a == b && x == y
  {
    LastColon(a, x, b, y);
    LastColon(b, y, a, x);
    var s := a + ":" + x;
    assert a == s[..|a|] && x == s[|a| + 1..];
    assert b == s[..|b|] && y == s[|b| + 1..];
  }

  lemma Join2(a: string, b: string)
    ensures Join([a, b], ':') == a + ":" + b
  {
    assert [a, b][1..] == [b];
  }

  lemma Join3(a: string, b: string, c: string)
    ensures Join([a, b, c], ':') == a + ":" + b + ":" + c
  {
    assert [a, b, c][1..] == [b, c];
    Join2(b, c);
  }

  lemma Join4(a: string, b: string, c: string, d: string)
    ensures Join([a, b, c, d], ':') == a + ":" + b + ":" + c + ":" + d
  {
    assert [a, b, c, d][1..] == [b, c, d];
    Join3(b, c, d);
  }

  lemma Clean1(a: string)
    ensures Clean([a]) == if a == "" then [] else [a]
  {
  }

  lemma Clean4(a: string, b: string, c: string, d: string)
    requires b != "" && c != "" && d != ""
    ensures Clean([a, b, c, d]) == (if a == "" then [] else [a]) + [b, c, d]
  {
    assert [a, b, c, d][1..] == [b, c, d] && [b, c, d][1..] == [c, d] && [c, d][1..] == [d];
    Clean1(d);
    assert Clean([c, d]) == [c] + Clean([d]);
    assert Clean([b, c, d]) == [b] + Clean([c, d]);
  }

  function StampHead(tpl: Activation): string {
    tpl.source.kind + ":" + tpl.scriptKey + ":" + tpl.source.activationName + ":"
  }

  function PulledHead(tpl: Activation, stream: string): string {
    StampHead(tpl) + if stream == "" then "" else stream + ":"
  }

  lemma StampKey(tpl: Activation, parts: seq<string>)
    ensures Stamp(tpl, parts).dedupeKey == StampHead(tpl) + JoinAll(Clean(parts))
  {
    hide Clean, Join, JoinAll;
    Join4(tpl.source.kind, tpl.scriptKey, tpl.source.activationName, JoinAll(Clean(parts)));
  }

  lemma PulledParts(stream: string, consumer: string, x: string, y: string)
    requires consumer != "" && x != "" && y != ""
    ensures JoinAll(Clean([stream, consumer, x, y]))
            == (if stream == "" then "" else stream + ":") + (consumer + ":" + x + ":" + y)
  {
    hide Clean, Join;
    Clean4(stream, consumer, x, y);
    if stream == "" {
      assert Clean([stream, consumer, x, y]) == [consumer, x, y];
      Join3(consumer, x, y);
    } else {
      assert Clean([stream, consumer, x, y]) == [stream, consumer, x, y];
      Join4(stream, consumer, x, y);
    }
  }

  /** The identity of a pulled message, taken apart at its last two colons. */
  lemma PulledKey(tpl: Activation, subject: string, m: Meta)
    requires m.consumer != ""
    ensures Norm(tpl, Pulled(subject, Some(m))).dedupeKey
            == PulledHead(tpl, m.stream) + m.consumer + ":" + Digits(m.streamSequence)
               + ":" + Digits(m.consumerSequence)
  {
    hide Digits, Clean, Join, JoinAll, Stamp, StampHead;
    var x, y := Digits(m.streamSequence), Digits(m.consumerSequence);
    PulledParts(m.stream, m.consumer, x, y);
    var src := WithMeta(tpl.source.(subject := subject), Some(m));
    var act := tpl.(source := src.(deliveryAttempt := m.attempt));
    StampKey(act, [m.stream, m.consumer, x, y]);
    SameHead(tpl, act);
    Regroup(StampHead(tpl), if m.stream == "" then "" else m.stream + ":", m.consumer, x, y);
  }

  lemma SameHead(tpl: Activation, act: Activation)
    requires act.source.kind == tpl.source.kind && act.scriptKey == tpl.scriptKey
    requires act.source.activationName == tpl.source.activationName
    ensures StampHead(act) == StampHead(tpl)
  {
  }

  lemma Regroup(head: string, stream: string, a: string, x: string, y: string)
    ensures head + (stream + (a + ":" + x + ":" + y)) == head + stream + a + ":" + x + ":" + y
  {
  }

  lemma HeadCancels(head: string, a: string, b: string, tail: string)
    requires head + a + ":" + tail == head + b + ":" + tail
    ensures a == b
  {
    var s := head + a + ":" + tail;
    assert |a| == |b|;
    assert a == s[|head|..|head| + |a|] && b == (head + b + ":" + tail)[|head|..|head| + |b|];
  }

  /** Redelivery keeps the identity of every message except one pulled from a stream: that one keeps
      its dedupe key if and only if it comes with the same consumer and consumer sequence again. */
  lemma RedeliveryKeepsIdentity(tpl: Activation, a: Message, b: Message)
    requires Redelivered(a, b)
    ensures !a.Pulled? ==> SameIdentity(Norm(tpl, a), Norm(tpl, b))
    ensures a.Pulled? && a.meta.Some? && a.meta.value.consumer != "" && b.meta.value.consumer != "" ==>
      (Norm(tpl, a).dedupeKey == Norm(tpl, b).dedupeKey <==>
       a.meta.value.consumer == b.meta.value.consumer
       && a.meta.value.consumerSequence == b.meta.value.consumerSequence)
  {
    hide Digits, Clean, JoinAll, Join;
    if a.Pulled? && a.meta.Some? && a.meta.value.consumer != "" && b.meta.value.consumer != "" {
      hide Norm;
      PulledApart(tpl, a.subject, a.meta.value, b.meta.value);
    }
  }

  lemma PulledApart(tpl: Activation, subject: string, m: Meta, n: Meta)
    requires SameStored(m, n) && m.consumer != "" && n.consumer != ""
    ensures Norm(tpl, Pulled(subject, Some(m))).dedupeKey == Norm(tpl, Pulled(subject, Some(n))).dedupeKey
            <==> m.consumer == n.consumer && m.consumerSequence == n.consumerSequence
  {
    hide Digits, Norm, PulledHead;
    var x, y := Norm(tpl, Pulled(subject, Some(m))).dedupeKey, Norm(tpl, Pulled(subject, Some(n))).dedupeKey;
    PulledKey(tpl, subject, m);
    PulledKey(tpl, subject, n);
    var head, tail := PulledHead(tpl, m.stream), Digits(m.streamSequence);
    if x == y {
      CutAtLastColon(head + m.consumer + ":" + tail, Digits(m.consumerSequence),
                     head + n.consumer + ":" + tail, Digits(n.consumerSequence));
      HeadCancels(head, m.consumer, n.consumer, tail);
      DigitsInjective(m.consumerSequence, n.consumerSequence);
    }
  }

  /** Pieces without colons are told apart: on one template, different revisions of colon-free keys
      never share a dedupe key. */
  lemma RevisionsToldApart(tpl: Activation, bucket: string, key1: string, rev1: nat, key2: string, rev2: nat)
    requires ':' !in key1 && ':' !in key2 && key1 != "" && key2 != "" && bucket != ""
    requires Norm(tpl, Revised(bucket, key1, rev1)).dedupeKey == Norm(tpl, Revised(bucket, key2, rev2)).dedupeKey
    ensures key1 == key2 && rev1 == rev2
  {
    hide Digits, Norm;
    RevisedKey(tpl, bucket, key1, rev1);
    RevisedKey(tpl, bucket, key2, rev2);
    var head := PulledHead(tpl, bucket);
    CutAtLastColon(head + key1, Digits(rev1), head + key2, Digits(rev2));
    assert key1 == (head + key1)[|head|..] && key2 == (head + key2)[|head|..];
    DigitsInjective(rev1, rev2);
  }

  lemma RevisedKey(tpl: Activation, bucket: string, key: string, rev: nat)
    requires bucket != "" && key != ""
    ensures Norm(tpl, Revised(bucket, key, rev)).dedupeKey == PulledHead(tpl, bucket) + key + ":" + Digits(rev)
  {
    hide Digits, Clean, Join, Stamp, StampHead;
    CleanKeeps(bucket, key, Digits(rev));
    Join3(bucket, key, Digits(rev));
    var act := tpl.(source := tpl.source.(bucket := bucket, key := key, revision := rev,
                                          resume := "kv:" + bucket + ":" + key + ":" + Digits(rev)));
    StampKey(act, [bucket, key, Digits(rev)]);
    SameHead(tpl, act);
    Regroup(StampHead(tpl), "", bucket, key, Digits(rev));
    assert StampHead(tpl) + "" == StampHead(tpl);
  }

  lemma CleanKeeps(a: string, b: string, c: string)
    requires a != "" && b != "" && c != ""
    ensures Clean([a, b, c]) == [a, b, c]
  {
    assert [a, b, c][1..] == [b, c] && [b, c][1..] == [c];
    Clean1(c);
  }

  /** A pulled message redelivered under a new identity: after the first acceptance ended with
      whichever faults but with its record in the ledger, the second is accepted again unless the
      source index write took effect. Losing that write is what makes the first acceptance fail and
      the message come back. */
  lemma RedeliveredUnderNewIdentity(s: State, a: Activation, b: Activation, lease: Lease, first: Link, second: Link)
    requires Precheck(a, lease).None? && Precheck(b, lease).None? && a.dedupeKey != b.dedupeKey
    requires !HopsExhausted(a.chain) && !HopsExhausted(b.chain) && a.sourcePrincipal == b.sourcePrincipal
    requires SourcePosition(a.source).Ok? && SourcePosition(b.source).Ok?
    requires SourcePosition(a.source).value.0 == SourcePosition(b.source).value.0 > 0
    requires FindDedupe(s.accepted, a.dedupeKey).None? && FindDedupe(s.accepted, b.dedupeKey).None?
    requires var prev := Latest(s, a.sourcePrincipal.sourceID);
      prev.Some? ==> 0 < prev.value.sourcePosition < SourcePosition(a.source).value.0
    requires first != Dropped
    ensures var (t, r) := Accept(s, a, lease, first, second);
      && |t.accepted| == |s.accepted| + 1
      && (Accept(t, b, lease, Delivered, Delivered).1.Ok? <==> first == ReplyLost || second == Dropped)
  {
    hide Precheck, SourcePosition, FindDedupe, ReplayCursor, HopsExhausted;
  }
}
