/** The submit, apply and reject commands as the imperative code they are, each proved to be one
    process of the protocol machine, whatever the others do between its calls. */
module Reducer {
  import opened KeyValue
  import opened ActionKeys
  import opened Text
  import opened ActionProtocol
  import opened ActionContents

  /** The pending action of a submission, under its participant and its own id. */
  predicate Submits(w: Write<Stored>, app: string, participant: string, sub: Submission) {
    var key := "apps." + app + ".participants." + participant + ".actions." + sub.actionID;
    && w.key == key && w.value.Item? && w.value.key == key && w.value.status == PendingItem
    && w.value.provenance == BySubmit && w.value.body.ActionBody?
    && var act := w.value.body.act;
    && act.appID == app && act.participantID == participant && act.actionID == sub.actionID
    && act.stateKey == sub.stateKey && act.baseRevision == sub.baseRevision && act.payload == sub.payload
  }

  class Commands {
    const kv: Bucket<Stored>
    /** Everything that happened on the bucket so far, as a run of the machine. */
    ghost var run: seq<Sys>

    constructor (bucket: Bucket<Stored>)
      requires bucket.Valid() && bucket.history == []
      ensures Valid() && kv == bucket && run == [Sys([], [])]
    {
      kv := bucket;
      run := [Sys([], [])];
    }

    ghost predicate Valid()
      reads this, kv
    {
      kv.Valid() && IsRun(run) && run[|run| - 1].log == kv.history
    }

    ghost predicate At(pid: nat, p: Proc)
      reads this
    {
      |run| > 0 && pid < |run[|run| - 1].procs| && run[|run| - 1].procs[pid] == p
    }

    ghost method Spawn(p: Proc) returns (pid: nat)
      requires Valid() && Initial(p)
      modifies this`run
      ensures Valid() && old(run) <= run && At(pid, p)
    {
      var s := run[|run| - 1];
      pid := |s.procs|;
      assert SpawnStep(s, s.(procs := s.procs + [p]), p);
      run := run + [s.(procs := s.procs + [p])];
    }

    /** Record that process `pid` has just made its next call, with `reply`. */
    ghost method Record(pid: nat, p: Proc, reply: Reply)
      requires kv.Valid() && IsRun(run) && FairReply(reply)
      requires At(pid, p) && kv.history == Step(run[|run| - 1].log, p, reply).0
      modifies this`run
      ensures Valid() && old(run) <= run && At(pid, Step(old(run)[|old(run)| - 1].log, p, reply).1)
    {
      hide Step;
      var s := run[|run| - 1];
      var r := Step(s.log, p, reply);
      var t := Sys(r.0, s.procs[pid := r.1]);
      assert ProcStep(s, t, pid, reply);
      run := run + [t];
    }

    /** Other processes and writers run for a while: all a caller may rely on is that the bucket
        goes on along some run in which `pid` has not moved. */
    method Others(ghost pid: nat, ghost p: Proc)
      requires Valid() && At(pid, p)
      modifies this`run, kv
      ensures Valid() && old(run) <= run && At(pid, p)
    {
    }

    method AnyReply() returns (reply: Reply)
      ensures FairReply(reply)
    {
      assert FairReply(Clean);
      reply :| FairReply(reply);
    }

    method ReadItemAs(key: string, reply: Reply) returns (r: Read)
      requires kv.Valid()
      ensures r == ReadItem(kv.history, key, reply)
    {
      if reply.Failing? {
        return NoView(reply.reason);
      }
      var found := kv.Get(key);
      if found.Missing? {
        return NoView(ItemNotFound);
      }
      var item := found.entry.value;
      if !item.Item? || item.key != key {
        return NoView(MalformedItem);
      }
      return View(item, found.entry.revision);
    }

    // The checks apply and reject share.

    method CheckReceipt(p: Proc, ghost pid: nat) returns (q: Proc)
      requires Valid() && At(pid, p) && p.ReadingReceipt?
      modifies this`run, kv
      ensures Valid() && old(run) <= run && At(pid, q)
      ensures q == ReadingAction(p.req) || (q.Done? && q.req == p.req && q.result.Denied?)
    {
      hide Step, IsRun, ReceiptKey;
      var reply := AnyReply();
      var receipt := ReadItemAs(ReceiptKey(p.req.actionKey), reply);
      StepOfRead(kv.history, p, reply);
      Record(pid, p, reply);
      if receipt.View? {
        return Done(p.req, Denied(DuplicateAction));
      }
      if receipt.reason != ItemNotFound {
        return Done(p.req, Denied(receipt.reason));
      }
      q := ReadingAction(p.req);
      Others(pid, q);
    }

    method CheckAction(p: Proc, ghost pid: nat) returns (q: Proc)
      requires Valid() && At(pid, p) && p.ReadingAction?
      modifies this`run, kv
      ensures Valid() && old(run) <= run && At(pid, q)
      ensures (q.ReadingState? || (q.Done? && q.result.Denied?)) && q.req == p.req
    {
      hide Step, IsRun, ValidAction;
      var reply := AnyReply();
      var action := ReadItemAs(p.req.actionKey, reply);
      StepOfRead(kv.history, p, reply);
      Record(pid, p, reply);
      if action.NoView? {
        return Done(p.req, Denied(action.reason));
      }
      if action.item.status != PendingItem {
        return Done(p.req, Denied(DuplicateAction));
      }
      if !action.item.body.ActionBody? || !ValidAction(action.item.body.act, p.req.actionKey) {
        return Done(p.req, Denied(MalformedAction));
      }
      q := ReadingState(p.req, action.item.body.act, action.revision);
      Others(pid, q);
    }

    method CheckState(p: Proc, ghost pid: nat) returns (q: Proc)
      requires Valid() && At(pid, p) && p.ReadingState?
      modifies this`run, kv
      ensures Valid() && old(run) <= run && At(pid, q)
      ensures (q.CreatingReceipt? || (q.Done? && q.result.Denied?)) && q.req == p.req
    {
      hide Step, IsRun;
      var reply := AnyReply();
      var state := ReadItemAs(p.act.stateKey, reply);
      StepOfRead(kv.history, p, reply);
      Record(pid, p, reply);
      if state.NoView? {
        return Done(p.req, Denied(state.reason));
      }
      if state.revision != p.act.baseRevision {
        return Done(p.req, Denied(StaleRevision));
      }
      q := CreatingReceipt(p.req, p.act, p.actionRev, state.revision);
      Others(pid, q);
    }

    method Prepare(req: Request, ghost pid: nat) returns (p: Proc)
      requires Valid() && At(pid, ReadingReceipt(req))
      modifies this`run, kv
      ensures Valid() && old(run) <= run && At(pid, p)
      ensures (p.CreatingReceipt? || (p.Done? && p.result.Denied?)) && p.req == req
    {
      hide IsRun;
      p := CheckReceipt(ReadingReceipt(req), pid);
      if p.ReadingAction? {
        p := CheckAction(p, pid);
      }
      if p.ReadingState? {
        p := CheckState(p, pid);
      }
    }

    lemma StepOfRead(h: Log, p: Proc, reply: Reply)
      ensures p.ReadingReceipt? ==> Step(h, p, reply) == (h, ReadReceipt(h, p, reply))
      ensures p.ReadingAction? ==> Step(h, p, reply) == (h, ReadAction(h, p, reply))
      ensures p.ReadingState? ==> Step(h, p, reply) == (h, ReadState(h, p, reply))
      ensures p.ReadingLatest? ==> Step(h, p, reply) == (h, ReadLatest(h, p, reply))
      ensures p.SubmitReading? ==> Step(h, p, reply) == (h, SubmitRead(h, p, reply))
    {
    }

    lemma StepOfWrite(h: Log, p: Proc, reply: Reply)
      ensures p.CreatingReceipt? ==> Step(h, p, reply) == CreateReceipt(h, p, reply)
      ensures p.WritingState? ==> Step(h, p, reply) == WriteState(h, p, reply)
      ensures p.FinishingApplied? ==> Step(h, p, reply) == FinishApplied(h, p, reply)
      ensures p.FinishingStale? ==> Step(h, p, reply) == FinishStale(h, p, reply)
      ensures p.SubmitCreating? ==> Step(h, p, reply) == SubmitCreate(h, p, reply)
    {
    }

    method CreateActionReceipt(p: Proc, ghost pid: nat) returns (q: Proc)
      requires Valid() && At(pid, p) && p.CreatingReceipt?
      modifies this`run, kv
      ensures Valid() && old(run) <= run && At(pid, q)
      ensures (q.WritingState? && p.req.Apply?) || (q.Done? && (q.result.Success? ==> p.req.Reject?))
      ensures q.req == p.req
    {
      hide Step, ReceiptKey, IsRun, CompareAndSet, FirstReceipt, WriteReason, LinkOf, FairReply;
      var reply := AnyReply();
      StepOfWrite(kv.history, p, reply);
      var ack := kv.Update(ReceiptKey(p.req.actionKey), FirstReceipt(p), 0, LinkOf(reply));
      Record(pid, p, reply);
      if !ack.Wrote? {
        q := Done(p.req, Denied(WriteReason(ack, reply, DuplicateAction)));
      } else if p.req.Apply? {
        q := WritingState(p.req, p.act, p.actionRev, ack.revision);
      } else {
        q := Done(p.req, Success(ack.revision, p.stateRev));
      }
      Others(pid, q);
    }

    method UpdateActionState(p: Proc, ghost pid: nat) returns (q: Proc)
      requires Valid() && At(pid, p) && p.WritingState?
      modifies this`run, kv
      ensures Valid() && old(run) <= run && At(pid, q)
      ensures (q.FinishingApplied? || q.ReadingLatest? || (q.Done? && q.result.Denied?)) && q.req == p.req
      ensures q.FinishingApplied? ==>
        && q.act == p.act && q.req.Apply?
        && Holding(kv.history, q.stateRev, q.act.stateKey, ResolvedItem, PlainBody(q.req.value), q.req.actionKey)
    {
      hide Step, IsRun, CompareAndSet, NewState, WriteReason, LinkOf, FairReply, Holding;
      var reply := AnyReply();
      StepOfWrite(kv.history, p, reply);
      var ack := kv.Update(p.act.stateKey, NewState(p), p.act.baseRevision, LinkOf(reply));
      Record(pid, p, reply);
      var reason := WriteReason(ack, reply, StaleRevision);
      if ack.Wrote? {
        q := FinishingApplied(p.req, p.act, p.actionRev, p.receiptRev, ack.revision);
      } else if reason == StaleRevision {
        q := ReadingLatest(p.req, p.act, p.actionRev, p.receiptRev);
      } else {
        q := Done(p.req, Denied(reason));
      }
      Others(pid, q);
      if q.FinishingApplied? {
        WritesItsValue(run, |run| - 1, pid);
      }
    }

    method UpdateActionReceipt(p: Proc, ghost pid: nat) returns (q: Proc)
      requires Valid() && At(pid, p) && (p.FinishingApplied? || p.FinishingStale?)
      modifies this`run, kv
      ensures Valid() && old(run) <= run && At(pid, q) && q.Done? && q.req == p.req
    {
      hide Step, ReceiptKey, IsRun, CompareAndSet, FirstReceipt, WriteReason, LinkOf, FairReply;
      var reply := AnyReply();
      StepOfWrite(kv.history, p, reply);
      var item := if p.FinishingApplied? then ReceiptItem(p.req.actionKey, AppliedReceipt(p), ResolvedItem)
                  else ReceiptItem(p.req.actionKey, StaleReceipt(p), DeniedItem);
      var ack := kv.Update(ReceiptKey(p.req.actionKey), item, p.receiptRev, LinkOf(reply));
      Record(pid, p, reply);
      if p.FinishingStale? {
        q := Done(p.req, Denied(StaleRevision));
      } else if ack.Wrote? {
        q := Done(p.req, Success(ack.revision, p.stateRev));
      } else {
        q := Done(p.req, Denied(WriteReason(ack, reply, StaleRevision)));
      }
    }

    method RecordStale(p: Proc, ghost pid: nat) returns (q: Proc)
      requires Valid() && At(pid, p) && p.ReadingLatest?
      modifies this`run, kv
      ensures Valid() && old(run) <= run && At(pid, q) && q.Done? && q.req == p.req
    {
      hide Step, IsRun;
      var reply := AnyReply();
      var latest := ReadItemAs(p.act.stateKey, reply);
      StepOfRead(kv.history, p, reply);
      Record(pid, p, reply);
      if latest.NoView? {
        return Done(p.req, Denied(StaleRevision));
      }
      q := FinishingStale(p.req, p.act, p.actionRev, p.receiptRev, latest.revision);
      Others(pid, q);
      q := UpdateActionReceipt(q, pid);
    }

    /** A command that has ended with success left what it was asked to. */
    lemma Reported(pid: nat, req: Request, result: Result)
      requires Valid() && At(pid, Done(req, result))
      ensures result.Success? ==> Left(kv.history, req, result.receiptRevision, result.stateRevision)
    {
      hide IsRun, Left;
      if result.Success? {
        SuccessLeaves(run, |run| - 1, pid);
      }
    }

    /** `action apply`: whatever happens in between, the command ends as a process of the machine
        that has finished with the result it prints, and a success has written the value. */
    method ActionApply(actionKey: string, value: string) returns (result: Result, ghost pid: nat)
      requires Valid()
      modifies this`run, kv
      ensures Valid() && old(run) <= run
      ensures At(pid, Done(Apply(actionKey, value), result))
      ensures result.Success? ==>
        Left(kv.history, Apply(actionKey, value), result.receiptRevision, result.stateRevision)
    {
      var req := Apply(actionKey, value);
      pid := Spawn(ReadingReceipt(req));
      Others(pid, ReadingReceipt(req));
      var p := Prepare(req, pid);
      if p.CreatingReceipt? {
        p := CreateActionReceipt(p, pid);
      }
      if p.WritingState? {
        p := UpdateActionState(p, pid);
      }
      if p.ReadingLatest? {
        p := RecordStale(p, pid);
      } else if p.FinishingApplied? {
        p := UpdateActionReceipt(p, pid);
      }
      result := p.result;
      Reported(pid, req, result);
    }

    method ActionReject(actionKey: string, reason: Reason) returns (result: Result, ghost pid: nat)
      requires Valid()
      modifies this`run, kv
      ensures Valid() && old(run) <= run
      ensures At(pid, Done(Reject(actionKey, reason), result))
      ensures result.Success? ==>
        Left(kv.history, Reject(actionKey, reason), result.receiptRevision, result.stateRevision)
    {
      var req := Reject(actionKey, reason);
      pid := Spawn(ReadingReceipt(req));
      Others(pid, ReadingReceipt(req));
      var p := Prepare(req, pid);
      if p.CreatingReceipt? {
        p := CreateActionReceipt(p, pid);
      }
      result := p.result;
      Reported(pid, req, result);
    }

    method CheckBase(act: AppAction, ghost pid: nat) returns (p: Proc)
      requires Valid() && At(pid, SubmitReading(act))
      modifies this`run, kv
      ensures Valid() && old(run) <= run && At(pid, p)
      ensures p == SubmitDone(false) || p == SubmitCreating(act)
    {
      hide Step, IsRun, LastRevision, Initial;
      var reply := AnyReply();
      var state := kv.Get(act.stateKey);
      p := SubmitReading(act);
      StepOfRead(kv.history, p, reply);
      Record(pid, p, reply);
      p := if reply.Failing? || state.Missing? || state.entry.revision != act.baseRevision
      then SubmitDone(false) else SubmitCreating(act);
      Others(pid, p);
    }

    /** The daemon's side of `action submit`: malformed submissions start nothing. */
    method HandleAppAction(subject: string, sub: Submission) returns (accepted: bool, ghost pid: nat)
      requires Valid()
      modifies this`run, kv
      ensures Valid() && old(run) <= run
      ensures var who := ParseActionSubject(subject);
        if who.None? || !ValidSubmission(who.value.0, sub) then !accepted && run == old(run)
        else
          && At(pid, SubmitDone(accepted))
          && (accepted ==>
                |kv.history| > 0 && Submits(kv.history[|kv.history| - 1], who.value.0, who.value.1, sub))
    {
      hide Step, IsRun, Initial, ValidItemKey;
      accepted, pid := false, 0;
      var who := ParseActionSubject(subject);
      if who.None? || !ValidSubmission(who.value.0, sub) {
        return;
      }
      var act := SubmittedAction(who.value.0, who.value.1, sub);
      SubmissionStarts(who.value.0, who.value.1, sub);
      pid := Spawn(SubmitReading(act));
      Others(pid, SubmitReading(act));
      var p := CheckBase(act, pid);
      if p.SubmitCreating? {
        accepted := CreateAction(act, pid);
      }
    }

    lemma SubmissionStarts(app: string, participant: string, sub: Submission)
      requires ValidToken(app) && ValidToken(participant) && ValidSubmission(app, sub)
      ensures Initial(SubmitReading(SubmittedAction(app, participant, sub)))
    {
    }

    method CreateAction(act: AppAction, ghost pid: nat) returns (accepted: bool)
      requires Valid() && At(pid, SubmitCreating(act))
      modifies this`run, kv
      ensures Valid() && old(run) <= run && At(pid, SubmitDone(accepted))
      ensures accepted ==> kv.history == old(kv.history) + [Write(ActionItem(act).key, ActionItem(act))]
    {
      hide Step, IsRun, ActionKey, LinkOf, FairReply;
      var reply := AnyReply();
      var item := ActionItem(act);
      StepOfWrite(kv.history, SubmitCreating(act), reply);
      var ack := kv.Update(item.key, item, 0, LinkOf(reply));
      Record(pid, SubmitCreating(act), reply);
      accepted := ack.Wrote?;
    }
  }
}
