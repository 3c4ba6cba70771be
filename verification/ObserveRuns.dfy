/**
 Observations inside client runs: whatever else happens, a call's observation record changes only by
 an accepted notification of its own, so the ordering and format laws hold of whole runs.
 */
module ObserveRuns {
  import opened Common
  import opened Engines
  import opened ClientModel
  import opened ClientInvariant
  import opened ClientSteps
  import opened ClientAdmission
  import opened ClientRuns
  import opened Cooldowns
  import Authority
  import Observe

  // Which operations record.

  ghost predicate SameRecord(s: State, after: State, c: Call) {
    (c in after.active <==> c in s.active) && RecordOf(after, c) == RecordOf(s, c)
  }

  /** At most this notification was recorded. */
  ghost predicate Noted(s: State, after: State, c: Call, n: Observe.Notification) {
    && (c in after.active <==> c in s.active)
    && (RecordOf(after, c) == RecordOf(s, c) || RecordOf(after, c) == Observe.Recorded(RecordOf(s, c), n))
  }

  lemma DisarmRecord(s: State, t: State, d: Call, c: Call)
    requires SameLives(s, t)
    ensures SameRecord(s, Disarm(t, d), c)
  {
  }

  lemma FailRecord(s: State, cfg: Config, d: Call, failure: Failure, release: bool, c: Call)
    ensures SameRecord(s, Fail(s, cfg, d, failure, release), c)
  {
    hide DropDatagram, PutReply, Detach, DropBodies, Unbind, DropUpload, Disarm, SameRecord, Fail;
    FailParts(s, cfg, d, failure, release);
    var reply := Reply(true, Err(failure), None, None);
    var s1 := Detach(s, d, release);
    var s2 := DropDatagram(s1, d);
    var s3 := PutReply(s2, cfg, d, reply);
    var s4 := DropBodies(s3, d);
    var s5 := DropUpload(s4, d);
    RowsSameLives(s, cfg, d, reply, release);
    RowsSameLives(s1, cfg, d, reply, release);
    RowsSameLives(s2, cfg, d, reply, release);
    RowsSameLives(s3, cfg, d, reply, release);
    UploadSameLives(s4, d);
    RowsSameLives(s5, cfg, d, reply, release);
    DisarmRecord(s, Unbind(s5, d), d, c);
  }

  lemma {:induction false} FailDueRecord(s: State, cfg: Config, due: seq<(Call, Failure)>, c: Call)
    ensures SameRecord(s, FailDue(s, cfg, due), c)
    decreases |due|
  {
    hide Fail;
    if due != [] {
      FailRecord(s, cfg, due[0].0, due[0].1, true, c);
      FailDueRecord(Fail(s, cfg, due[0].0, due[0].1, true), cfg, due[1..], c);
    }
  }

  lemma FollowupRecord(s: State, cfg: Config, d: Call, f: Followup, c: Call)
    ensures SameRecord(s, SendFollowup(s, cfg, d, f), c)
  {
    hide Fail, AbandonSend, PlacePacket, PlaceUpload;
    if f.NotSent? {
      FailRecord(Abandon(s, d), cfg, d, ContinuationFailed, true, c);
    }
  }

  lemma ObservationNotes(s: State, c: Call, n: Observe.Notification)
    ensures Noted(s, RecordObservation(s, c, n), c, n)
  {
    hide Observe.Recorded;
  }

  lemma BackoffRecord(s: State, d: Call, m: Message, now: nat, c: Call)
    ensures SameRecord(s, RecordBackoff(s, d, m, now), c)
  {
  }

  lemma FinishNotes(s: State, s1: State, cfg: Config, c: Call, slot: Slot, meta: Meta, env: Env, via: bool, n: Observe.Notification)
    requires Noted(s, s1, c, n)
    ensures Noted(s, Finish(s1, cfg, c, slot, meta, env, via), c, n)
  {
    hide Fail, StoreReply, AcceptObserve, TakeExchange, Observe.Recorded;
    FailRecord(s1, cfg, c, ResponseBodyBounds, true, c);
    var kept := c in s1.inbox && !s1.inbox[c].complete && s1.inbox[c].body == Some(slot) && s1.inbox[c].meta.Ok?;
    var first := if kept then s1.inbox[c].meta.value else meta;
    var s2 := TakeExchange(AcceptObserve(s1, c, first.header, via, env.room), c);
    AcceptSameLives(s1, c, first.header, via, env.room);
    StoreSameLives(s2, cfg, c, first, Some(slot));
  }

  lemma KeepNotes(s: State, cfg: Config, now: nat, c: Call, rx: Slot, m: Message, env: Env, via: bool)
    ensures Noted(s, Keep(s, cfg, now, c, rx, m, env, via), c, Notice(m, now))
  {
    hide Fail, StoreReply, AcceptObserve, TakeExchange, RecordObservation, Observe.Recorded;
    FailRecord(s, cfg, c, PacketHeadroom, true, c);
    var s0 := RecordObservation(s, c, Notice(m, now));
    var s1 := TakeExchange(AcceptObserve(s0, c, HeaderOf(m), via, env.room), c);
    ObservationNotes(s, c, Notice(m, now));
    AcceptSameLives(s0, c, HeaderOf(m), via, env.room);
    StoreSameLives(s1, cfg, c, Meta(HeaderOf(m), now), None);
  }

  lemma AssembleNotes(s: State, cfg: Config, now: nat, c: Call, rx: Slot, m: Message, env: Env, via: bool)
    ensures Noted(s, Assemble(s, cfg, now, c, rx, m, env, via), c, Notice(m, now))
  {
    hide Fail, SendFollowup, Finish, RetainPartial, DropDatagram, RecordObservation, Observe.Recorded;
    if env.apply.Broken? {
      FailRecord(s, cfg, c, BlockTransfer(env.apply.error), true, c);
    } else if env.apply.Progress? && Assembles(s.engine.bodies, env.apply.slot, c) {
      var slot, n, meta := env.apply.slot, Notice(m, now), Meta(HeaderOf(m), now);
      var s0 := Admitted(s, c, slot, m.block.QBlock2?);
      var s1 := RecordObservation(s0, c, n);
      ObservationNotes(s0, c, n);
      FinishNotes(s, s1, cfg, c, slot, meta, env, via, n);
      PartialSameLives(s1, cfg, c, meta, slot);
      var s2 := RetainPartial(DropDatagram(s1, c), cfg, c, meta, slot);
      FollowupRecord(TakeExchange(s2, c), cfg, c, env.followup, c);
    }
  }

  lemma DigestNotes(s: State, cfg: Config, now: nat, c: Call, rx: Slot, m: Message, env: Env, via: bool)
    ensures Noted(s, Digest(s, cfg, now, c, rx, m, env, via), c, Notice(m, now))
  {
    hide Fail, Assemble, Keep, RecordBackoff, Observe.Recorded;
    if env.meta.Some? {
      FailRecord(s, cfg, c, env.meta.value, true, c);
    } else {
      var s1 := RecordBackoff(s, c, m, now);
      BackoffRecord(s, c, m, now, c);
      AssembleNotes(s1, cfg, now, c, rx, m, env, via);
      KeepNotes(s1, cfg, now, c, rx, m, env, via);
    }
  }

  lemma AnswerNotes(s: State, cfg: Config, now: nat, c: Call, rx: Slot, m: Message, env: Env, via: bool)
    ensures Noted(s, Answer(s, cfg, now, c, rx, m, env, via), c, Notice(m, now))
  {
    hide Digest, SendFollowup, DropUpload, LookupUpload, Observe.Recorded;
    FollowupRecord(s, cfg, c, env.followup, c);
    UploadSameLives(s, c);
    DigestNotes(DropUpload(s, c), cfg, now, c, rx, m, env, via);
  }

  /** A delivered response changes the record only if it is an acceptable notification, and then as
      one step of the observation. */
  lemma CompleteNotes(s: State, cfg: Config, now: nat, c: Call, rx: Slot, m: Message, env: Env)
    ensures var after := Complete(s, cfg, now, c, rx, m, env);
            && (c in after.active <==> c in s.active)
            && (|| RecordOf(after, c) == RecordOf(s, c)
                || RecordOf(after, c) == Observe.Step(RecordOf(s, c), Notice(m, now), cfg.protected))
  {
    hide Answer, Fail, StopPending, Observe.Admissible, Observe.RecordFresh, Observe.Recorded;
    FailRecord(s, cfg, c, ObserveFormatMismatch, true, c);
    var via := MatchesExchange(s.engine, c, m.kind, m.mid);
    var mid := if via then s.engine.exchanges[c].mid else 0;
    var acked := if m.kind.Ack? && via then StopPending(s, mid, c.peer) else s;
    var stopped := if via then StopPending(acked, mid, c.peer) else acked;
    StopSameLives(s, mid, c.peer);
    StopSameLives(acked, mid, c.peer);
    StopSameLives(stopped, m.mid, c.peer);
    AnswerNotes(StopPending(stopped, m.mid, c.peer), cfg, now, c, rx, m, env, via);
  }

  // The judgement, by the message.

  /** The response starts a notification: a success with an Observe value, in its only or first packet. */
  predicate Starts(m: Message) {
    m.observe.Some? && IsSuccess(m) && (m.block.Plain? || m.block.first)
  }

  predicate InTime(r: Observe.Record, m: Message, now: nat)
    requires m.observe.Some?
  {
    r.observed.None? || Observe.Fresh(r.observed.value.0, r.observed.value.1, m.observe.value, now)
  }

  function FormatIn(m: Message): Option<nat> {
    match m.format
    case Known(id) => Some(id)
    case _ => None
  }

  /** A 2.03 without a format only says that the representation is still good. */
  predicate Revalidates(m: Message) {
    m.code.Valid? && m.format.Absent?
  }

  predicate Unfit(r: Observe.Record, m: Message) {
    m.format.Malformed? || (!Revalidates(m) && r.format.Some? && r.format.value != FormatIn(m))
  }

  /** A response of the call is refused exactly if it starts a notification that is not an old one and has
      the wrong format; it is taken exactly if it does not start one, or starts a new one that fits. Later
      blocks and failures are never held back. */
  lemma JudgedIff(s: State, cfg: Config, now: nat, c: Call, m: Message, env: Env)
    ensures var r := RecordOf(s, c);
            var mine := (MatchesExchange(s.engine, c, m.kind, m.mid) || MatchesObserve(s.engine, c, m.kind)) && !m.critical;
            && (Refuses(s, cfg, now, c, m) <==> mine && Starts(m) && (cfg.protected || InTime(r, m, now)) && Unfit(r, m))
            && (Accepts(s, cfg, now, c, m, env) <==>
                  && mine && (m.kind.Con? ==> env.ackSent) && env.committed
                  && (Starts(m) ==> (cfg.protected || InTime(r, m, now)) && !Unfit(r, m)))
  {
    hide MatchesExchange, MatchesObserve;
  }

  /** The record changes only by a notification that starts and is taken: then it is the number and the time
      of that one, and the first format ever said. */
  lemma RecordedIs(s: State, cfg: Config, now: nat, c: Call, rx: Slot, m: Message, env: Env)
    ensures var r := RecordOf(s, c);
            var after := RecordOf(Complete(s, cfg, now, c, rx, m, env), c);
            after != r ==>
              && Starts(m) && (cfg.protected || InTime(r, m, now)) && !Unfit(r, m)
              && after == Observe.Record(Some((m.observe.value, now)),
                                         if r.format.Some? || Revalidates(m) then r.format else Some(FormatIn(m)))
  {
    hide Complete, MatchesExchange, MatchesObserve;
    CompleteNotes(s, cfg, now, c, rx, m, env);
  }

  // Runs.

  /** The call's subscription goes on: it is not admitted anew, nor deregistered. */
  predicate GoesOn(step: Step, c: Call) {
    && !(step.Admitting? && step.call == c)
    && !(step.Replacing? && step.call == c && !step.live.observe.Register?)
  }

  const SILENCE: Observe.Notification := Observe.Notification(None, false, Observe.Absent, 0)

  lemma Silence(r: Observe.Record, protected: bool)
    ensures Observe.Step(r, SILENCE, protected) == r
  {
  }

  /** The notification a step feeds to the call's observation; none, for most steps. */
  ghost function HeardAt(cfg: Config, s: State, step: Step, c: Call): Observe.Notification {
    if step.Deliver? && step.call == c
       && RecordOf(Next(cfg, s, step), c) == Observe.Step(RecordOf(s, c), Notice(step.message, step.now), cfg.protected)
    then Notice(step.message, step.now) else SILENCE
  }

  lemma StepFollows(cfg: Config, s: State, step: Step, c: Call)
    requires Inv(cfg, s) && Enabled(cfg, s, step) && GoesOn(step, c) && c in s.active && c in Next(cfg, s, step).active
    ensures RecordOf(Next(cfg, s, step), c) == Observe.Step(RecordOf(s, c), HeardAt(cfg, s, step, c), cfg.protected)
  {
    hide InvBut, Loose, Next, Observe.Step, Cools, LiveOk, Quiet;
    Silence(RecordOf(s, c), cfg.protected);
    if step.Deliver? && step.call == c {
      assert Next(cfg, s, step) == Complete(s, cfg, step.now, c, step.rx, step.message, step.env) by { NextDeliver(cfg, s, step); }
      CompleteNotes(s, cfg, step.now, c, step.rx, step.message, step.env);
    } else if step.Expired? {
      ExpiredRecord(cfg, s, step, c);
    } else if About(s, step) == Some(c) {
      OwnRecord(cfg, s, step, c);
    } else if step.UploadFailed? {
      UploadRecord(cfg, s, step, c);
    } else {
      StepSound(cfg, s, step);
      assert SameFor(s, Next(cfg, s, step), c);
    }
  }

  lemma NextDeliver(cfg: Config, s: State, step: Step)
    requires step.Deliver?
    ensures Next(cfg, s, step) == Complete(s, cfg, step.now, step.call, step.rx, step.message, step.env)
  {
    hide Complete;
  }

  lemma ExpiredRecord(cfg: Config, s: State, step: Step, c: Call)
    requires step.Expired?
    ensures RecordOf(Next(cfg, s, step), c) == RecordOf(s, c)
  {
    hide FailDue;
    FailDueRecord(ExpireBackoffs(s, step.now), cfg, step.due, c);
  }

  lemma OwnRecord(cfg: Config, s: State, step: Step, c: Call)
    requires Enabled(cfg, s, step) && GoesOn(step, c) && About(s, step) == Some(c) && !step.Deliver?
    requires c in s.active && c in Next(cfg, s, step).active
    ensures RecordOf(Next(cfg, s, step), c) == RecordOf(s, c)
  {
    hide Fail, SendFollowup, ExpireBackoffs, Cools, LiveOk, AbandonSend, Loose, Interrupt, Replace, Take,
      TakeInto, Enabled, Authority.ResetBy, Authority.GiveUp, Authority.FailUpload,
      Authority.ResetTarget, Authority.ForTx, Quiet;
    match step {
      case Interrupted(_, _, _, _, _) => InterruptRecord(cfg, s, step, c);
      case FailBy(_, failure) => FailRecord(s, cfg, c, failure, true, c);
      case ResetBy(_, _, _) => EndingRecord(cfg, s, step, c);
      case GivenUp(_, _, _) => EndingRecord(cfg, s, step, c);
      case Continued(_, f) => FollowupRecord(s, cfg, c, f, c);
      case UploadFailed(_, _, _, _) => UploadRecord(cfg, s, step, c);
      case ObserveEnded(_) =>
      case ReplacingDropped(now, _, refreshing) =>
        ExpireRecord(s, now, c);
        FailRecord(Abandon(ExpireBackoffs(s, now), c), cfg, c, if refreshing then ReregistrationFailed else CancellationFailed, true, c);
      case Replacing(_, _, _, _) => ReplaceRecord(cfg, s, step, c);
      case Collected(_, _) => TakeRecord(cfg, s, step, c);
      case CollectedInto(_, _) => TakeRecord(cfg, s, step, c);
    }
  }

  lemma ReplaceRecord(cfg: Config, s: State, step: Step, c: Call)
    requires Enabled(cfg, s, step) && step.Replacing? && GoesOn(step, c) && step.call == c
    ensures RecordOf(Next(cfg, s, step), c) == RecordOf(s, c)
  {
    hide Displace, DropDatagram, PlacePacket, PlaceUpload, Cools, LiveOk, ExpireBackoffs;
  }

  lemma TakeRecord(cfg: Config, s: State, step: Step, c: Call)
    requires (step.Collected? || step.CollectedInto?) && step.call == c && c in Next(cfg, s, step).active
    ensures RecordOf(Next(cfg, s, step), c) == RecordOf(s, c)
  {
    hide ReleaseAny;
  }

  lemma UploadRecord(cfg: Config, s: State, step: Step, c: Call)
    requires step.UploadFailed?
    ensures SameRecord(s, Next(cfg, s, step), c)
  {
    hide SendFollowup, Authority.ForTx;
    var asked := Authority.Recorded(s, step.call, step.own, step.taken);
    var d := Authority.ForTx(step.order, asked.engine, step.own.tx);
    FollowupRecord(if d.Some? then TakeExchange(asked, d.value) else asked, cfg, step.call, NotSent, c);
  }

  lemma InterruptRecord(cfg: Config, s: State, step: Step, c: Call)
    requires step.Interrupted?
    ensures SameRecord(s, Next(cfg, s, step), c)
  {
    hide Fail, AbandonSend, Held, Observe.Admissible, MatchesExchange, MatchesObserve;
    var d := step.call;
    var at := Fail(s, cfg, d, ObserveFormatMismatch, true);
    FailRecord(s, cfg, d, ObserveFormatMismatch, true, c);
    FailRecord(Abandon(s, d), cfg, d, ContinuationFailed, true, c);
    FailRecord(Abandon(at, d), cfg, d, ContinuationFailed, true, c);
  }

  lemma EndingRecord(cfg: Config, s: State, step: Step, c: Call)
    requires step.ResetBy? || step.GivenUp?
    ensures SameRecord(s, Next(cfg, s, step), c)
  {
    hide Fail, StopPending, Authority.ResetTarget, Authority.ForTx;
    var named := About(s, step);
    var failure := if step.ResetBy? then Reset else step.failure;
    var failed := if named.Some? then Fail(s, cfg, named.value, failure, false) else s;
    if named.Some? {
      FailRecord(s, cfg, named.value, failure, false, c);
    }
    if step.ResetBy? {
      StopSameLives(failed, step.mid, step.peer);
    }
  }

  lemma ExpireRecord(s: State, now: nat, c: Call)
    ensures SameRecord(s, ExpireBackoffs(s, now), c)
  {
  }

  /** What the call's observation hears over a run. */
  ghost function Heard(cfg: Config, s: State, steps: seq<Step>, c: Call): seq<Observe.Notification>
    decreases |steps|
  {
    if steps == [] then [] else
      var before := steps[..|steps| - 1];
      Heard(cfg, s, before, c) + [HeardAt(cfg, After(cfg, s, before), steps[|steps| - 1], c)]
  }

  lemma {:induction false} HeardIs(cfg: Config, s: State, steps: seq<Step>, c: Call, i: nat)
    requires i <= |steps|
    ensures |Heard(cfg, s, steps, c)| == |steps| && Heard(cfg, s, steps, c)[..i] == Heard(cfg, s, steps[..i], c)
    ensures i < |steps| ==> Heard(cfg, s, steps, c)[i] == HeardAt(cfg, After(cfg, s, steps[..i]), steps[i], c)
    decreases |steps|
  {
    hide HeardAt, After;
    if i == |steps| {
      assert steps[..i] == steps;
      HeardLength(cfg, s, steps, c);
    } else {
      var before := steps[..|steps| - 1];
      HeardIs(cfg, s, before, c, i);
      assert before[..i] == steps[..i];
      if i < |before| {
        assert before[i] == steps[i];
      }
    }
  }

  lemma {:induction false} HeardLength(cfg: Config, s: State, steps: seq<Step>, c: Call)
    ensures |Heard(cfg, s, steps, c)| == |steps|
    decreases |steps|
  {
    hide HeardAt, After;
    if steps != [] {
      HeardLength(cfg, s, steps[..|steps| - 1], c);
    }
  }

  /** The call is active throughout, and its subscription goes on. */
  ghost predicate Ongoing(cfg: Config, s: State, steps: seq<Step>, c: Call) {
    && Inv(cfg, s) && Runs(cfg, s, steps)
    && (forall i :: 0 <= i <= |steps| ==> c in After(cfg, s, steps[..i]).active)
    && (forall i :: 0 <= i < |steps| ==> GoesOn(steps[i], c))
  }

  /** Over a run in which the subscription goes on, its record is a run of the observation over the
      notifications it heard; the ordering and format laws apply to that run. */
  lemma {:induction false} RunFollows(cfg: Config, s: State, steps: seq<Step>, c: Call, i: nat)
    requires Ongoing(cfg, s, steps, c) && i <= |steps|
    ensures |Heard(cfg, s, steps, c)| == |steps|
    ensures RecordOf(After(cfg, s, steps[..i]), c) == Observe.Run(RecordOf(s, c), Heard(cfg, s, steps, c)[..i], cfg.protected)
    decreases i
  {
    hide Inv, Next, Enabled, After, RecordOf, Observe.Run, Observe.Step, Heard, HeardAt;
    HeardIs(cfg, s, steps, c, i);
    if i == 0 {
      AfterNone(cfg, s, steps);
      RunStart(RecordOf(s, c), cfg.protected);
    } else {
      RunFollows(cfg, s, steps, c, i - 1);
      RunKeeps(cfg, s, steps, i - 1);
      AfterNext(cfg, s, steps, i - 1);
      assert c in After(cfg, s, steps[..i - 1]).active && c in After(cfg, s, steps[..i]).active;
      assert Next(cfg, After(cfg, s, steps[..i - 1]), steps[i - 1]) == After(cfg, s, steps[..i]) by { assert i - 1 + 1 == i; }
      StepFollows(cfg, After(cfg, s, steps[..i - 1]), steps[i - 1], c);
      HeardIs(cfg, s, steps, c, i - 1);
      Observe.RunNext(RecordOf(s, c), Heard(cfg, s, steps, c), cfg.protected, i - 1);
    }
  }

  lemma RunStart(r: Observe.Record, protected: bool)
    ensures Observe.Run(r, [], protected) == r
  {
  }

  // What is stored was accepted.

  /** The delivery put a response of its own into the call's row. */
  ghost predicate Stores(s: State, after: State, c: Call) {
    c in after.inbox && after.inbox[c].meta.Ok? && (c in s.inbox ==> after.inbox[c] != s.inbox[c])
  }

  ghost predicate Marked(s: State, after: State, c: Call, n: Observe.Notification) {
    c in s.active ==> c in after.active && RecordOf(after, c) == Observe.Recorded(RecordOf(s, c), n)
  }

  lemma PutFailure(s: State, cfg: Config, c: Call, reply: Reply)
    ensures var after := PutReply(DropDatagram(s, c), cfg, c, reply); c in after.inbox ==> after.inbox[c] == reply
  {
  }

  lemma EndsKeepInbox(s: State, c: Call)
    ensures DropBodies(s, c).inbox == s.inbox && DropUpload(s, c).inbox == s.inbox
    ensures Unbind(s, c).inbox == s.inbox && Disarm(s, c).inbox == s.inbox
  {
    hide LookupUpload, BodiesWithout;
  }

  lemma FailLeavesFailure(s: State, cfg: Config, c: Call, failure: Failure, release: bool)
    ensures c in Fail(s, cfg, c, failure, release).inbox ==> Fail(s, cfg, c, failure, release).inbox[c].meta.Err?
  {
    hide Fail, PutReply, DropDatagram, Detach, DropBodies, DropUpload, Unbind, Disarm;
    FailParts(s, cfg, c, failure, release);
    var reply := Reply(true, Err(failure), None, None);
    var s3 := PutReply(DropDatagram(Detach(s, c, release), c), cfg, c, reply);
    PutFailure(Detach(s, c, release), cfg, c, reply);
    var s4 := DropBodies(s3, c);
    var s5 := DropUpload(s4, c);
    EndsKeepInbox(s3, c);
    EndsKeepInbox(s4, c);
    EndsKeepInbox(s5, c);
    EndsKeepInbox(Unbind(s5, c), c);
  }

  lemma FailStoresNothing(base: State, s: State, cfg: Config, c: Call, failure: Failure, rx: Slot)
    ensures !Stores(base, Fail(s, cfg, c, failure, true), c)
    ensures !Stores(base, ReleasePacket(Fail(s, cfg, c, failure, true), rx), c)
  {
    hide Fail;
    FailLeavesFailure(s, cfg, c, failure, true);
  }

  lemma ObservationMarks(s: State, c: Call, n: Observe.Notification)
    ensures Marked(s, RecordObservation(s, c, n), c, n)
  {
    hide Observe.Recorded;
  }

  lemma KeepStores(s: State, cfg: Config, now: nat, c: Call, rx: Slot, m: Message, env: Env, via: bool)
    ensures var after := Keep(s, cfg, now, c, rx, m, env, via); Stores(s, after, c) ==> Marked(s, after, c, Notice(m, now))
  {
    hide Fail, StoreReply, AcceptObserve, TakeExchange, RecordObservation, Observe.Recorded, Stores;
    FailStoresNothing(s, s, cfg, c, PacketHeadroom, rx);
    var s0 := RecordObservation(s, c, Notice(m, now));
    var s1 := TakeExchange(AcceptObserve(s0, c, HeaderOf(m), via, env.room), c);
    ObservationMarks(s, c, Notice(m, now));
    AcceptSameLives(s0, c, HeaderOf(m), via, env.room);
    StoreSameLives(s1, cfg, c, Meta(HeaderOf(m), now), None);
  }

  lemma FinishMarks(s: State, s1: State, cfg: Config, c: Call, slot: Slot, meta: Meta, env: Env, via: bool, n: Observe.Notification)
    requires Marked(s, s1, c, n)
    ensures Marked(s, Finish(s1, cfg, c, slot, meta, env, via), c, n)
  {
    hide Fail, StoreReply, AcceptObserve, TakeExchange, Observe.Recorded;
    FailRecord(s1, cfg, c, ResponseBodyBounds, true, c);
    var kept := c in s1.inbox && !s1.inbox[c].complete && s1.inbox[c].body == Some(slot) && s1.inbox[c].meta.Ok?;
    var first := if kept then s1.inbox[c].meta.value else meta;
    var s2 := TakeExchange(AcceptObserve(s1, c, first.header, via, env.room), c);
    AcceptSameLives(s1, c, first.header, via, env.room);
    StoreSameLives(s2, cfg, c, first, Some(slot));
  }

  lemma AssembleStores(s: State, cfg: Config, now: nat, c: Call, rx: Slot, m: Message, env: Env, via: bool)
    ensures var after := Assemble(s, cfg, now, c, rx, m, env, via); Stores(s, after, c) ==> Marked(s, after, c, Notice(m, now))
  {
    hide Fail, SendFollowup, Finish, RetainPartial, DropDatagram, RecordObservation, Observe.Recorded;
    if env.apply.Broken? {
      FailStoresNothing(s, s, cfg, c, BlockTransfer(env.apply.error), rx);
    } else if env.apply.Progress? && Assembles(s.engine.bodies, env.apply.slot, c) {
      var slot, n, meta := env.apply.slot, Notice(m, now), Meta(HeaderOf(m), now);
      var s0 := Admitted(s, c, slot, m.block.QBlock2?);
      var s1 := RecordObservation(s0, c, n);
      ObservationMarks(s0, c, n);
      FinishMarks(s, s1, cfg, c, slot, meta, env, via, n);
      PartialSameLives(s1, cfg, c, meta, slot);
      var s2 := RetainPartial(DropDatagram(s1, c), cfg, c, meta, slot);
      FollowupRecord(TakeExchange(s2, c), cfg, c, env.followup, c);
    }
  }

  lemma DigestStores(s: State, cfg: Config, now: nat, c: Call, rx: Slot, m: Message, env: Env, via: bool)
    ensures var after := Digest(s, cfg, now, c, rx, m, env, via); Stores(s, after, c) ==> Marked(s, after, c, Notice(m, now))
  {
    hide Fail, Assemble, Keep, RecordBackoff, Observe.Recorded;
    if env.meta.Some? {
      FailStoresNothing(s, s, cfg, c, env.meta.value, rx);
    } else {
      var s1 := RecordBackoff(s, c, m, now);
      BackoffRecord(s, c, m, now, c);
      BackoffInbox(s, c, m, now);
      AssembleStores(s1, cfg, now, c, rx, m, env, via);
      KeepStores(s1, cfg, now, c, rx, m, env, via);
    }
  }

  lemma BackoffInbox(s: State, c: Call, m: Message, now: nat)
    ensures RecordBackoff(s, c, m, now).inbox == s.inbox
  {
  }

  lemma FollowupStoresNothing(s: State, cfg: Config, c: Call, f: Followup, rx: Slot)
    ensures !Stores(s, ReleasePacket(SendFollowup(s, cfg, c, f), rx), c)
  {
    hide Fail, AbandonSend, PlacePacket, PlaceUpload;
    if f.NotSent? {
      FailStoresNothing(s, Abandon(s, c), cfg, c, ContinuationFailed, rx);
    }
  }

  lemma AnswerStores(s: State, cfg: Config, now: nat, c: Call, rx: Slot, m: Message, env: Env, via: bool)
    ensures var after := Answer(s, cfg, now, c, rx, m, env, via); Stores(s, after, c) ==> Marked(s, after, c, Notice(m, now))
  {
    hide Digest, SendFollowup, DropUpload, LookupUpload, Observe.Recorded, ReleasePacket;
    FollowupStoresNothing(s, cfg, c, env.followup, rx);
    UploadSameLives(s, c);
    UploadInbox(s, c);
    DigestStores(DropUpload(s, c), cfg, now, c, rx, m, env, via);
  }

  lemma UploadInbox(s: State, c: Call)
    ensures DropUpload(s, c).inbox == s.inbox
  {
    hide LookupUpload;
  }

  lemma StopInbox(s: State, mid: nat, peer: Peer)
    ensures StopPending(s, mid, peer).inbox == s.inbox
  {
  }

  /** A delivery that stores a response, whole or in part, has accepted and recorded it. */
  lemma CompleteStores(s: State, cfg: Config, now: nat, c: Call, rx: Slot, m: Message, env: Env)
    ensures var after := Complete(s, cfg, now, c, rx, m, env);
            Stores(s, after, c) ==> Observe.Accepted(RecordOf(s, c), Notice(m, now), cfg.protected)
                                    && Marked(s, after, c, Notice(m, now))
  {
    hide Answer, Fail, StopPending, Observe.Admissible, Observe.RecordFresh, Observe.Recorded;
    FailStoresNothing(s, s, cfg, c, ObserveFormatMismatch, rx);
    var via := MatchesExchange(s.engine, c, m.kind, m.mid);
    var mid := if via then s.engine.exchanges[c].mid else 0;
    var acked := if m.kind.Ack? && via then StopPending(s, mid, c.peer) else s;
    var stopped := if via then StopPending(acked, mid, c.peer) else acked;
    StopSameLives(s, mid, c.peer);
    StopSameLives(acked, mid, c.peer);
    StopSameLives(stopped, m.mid, c.peer);
    StopInbox(s, mid, c.peer);
    StopInbox(acked, mid, c.peer);
    StopInbox(stopped, m.mid, c.peer);
    AnswerStores(StopPending(stopped, m.mid, c.peer), cfg, now, c, rx, m, env, via);
  }

  /** Step `i` stores a notification for collection, whole or its first part. */
  ghost predicate StoredAt(cfg: Config, s: State, steps: seq<Step>, c: Call, i: nat) {
    && i < |steps| && steps[i].Deliver? && steps[i].call == c
    && Notice(steps[i].message, steps[i].now).sequence.Some?
    && Stores(After(cfg, s, steps[..i]), After(cfg, s, steps[..i + 1]), c)
  }

  lemma StoredIsAccepted(cfg: Config, s: State, steps: seq<Step>, c: Call, i: nat)
    requires Ongoing(cfg, s, steps, c) && StoredAt(cfg, s, steps, c, i)
    ensures |Heard(cfg, s, steps, c)| == |steps| && Heard(cfg, s, steps, c)[i] == Notice(steps[i].message, steps[i].now)
    ensures Observe.AcceptedAt(RecordOf(s, c), Heard(cfg, s, steps, c), cfg.protected, i)
  {
    hide Inv, Next, Enabled, After, Observe.Run, Heard, Observe.Accepted, Observe.Recorded, Runs;
    RunFollows(cfg, s, steps, c, i);
    HeardIs(cfg, s, steps, c, i);
    AfterNext(cfg, s, steps, i);
    var t := After(cfg, s, steps[..i]);
    assert c in t.active;
    NextDeliver(cfg, t, steps[i]);
    CompleteStores(t, cfg, steps[i].now, c, steps[i].rx, steps[i].message, steps[i].env);
  }

  /** Over every client run, what an unprotected subscription stores for collection is in the sender's
      own order. */
  lemma StoredInOrder(cfg: Config, s: State, steps: seq<Step>, c: Call, counters: seq<nat>, i: nat, j: nat)
    requires Ongoing(cfg, s, steps, c) && !cfg.protected && RecordOf(s, c).observed.None?
    requires var heard := Heard(cfg, s, steps, c);
             Observe.SentBy(RecordOf(s, c), heard, counters) && |counters| == |heard| && Observe.Timely(RecordOf(s, c), heard, counters)
    requires i < j && StoredAt(cfg, s, steps, c, i) && StoredAt(cfg, s, steps, c, j)
    ensures |counters| == |steps| && counters[i] < counters[j]
  {
    hide Ongoing, Heard, Observe.SentBy, Observe.Timely, RecordOf, Observe.AcceptedAt;
    StoredIsAccepted(cfg, s, steps, c, i);
    StoredIsAccepted(cfg, s, steps, c, j);
    Observe.SenderOrder(RecordOf(s, c), Heard(cfg, s, steps, c), counters, i, j);
  }

  /** And, protected or not, it has one format. */
  lemma StoredOneFormat(cfg: Config, s: State, steps: seq<Step>, c: Call, i: nat, j: nat)
    requires Ongoing(cfg, s, steps, c) && i < j && StoredAt(cfg, s, steps, c, i) && StoredAt(cfg, s, steps, c, j)
    requires !Observe.Silent(Notice(steps[i].message, steps[i].now)) && !Observe.Silent(Notice(steps[j].message, steps[j].now))
    ensures Observe.FormatOf(Notice(steps[i].message, steps[i].now)) == Observe.FormatOf(Notice(steps[j].message, steps[j].now))
  {
    hide Ongoing, Heard, RecordOf, Observe.AcceptedAt;
    StoredIsAccepted(cfg, s, steps, c, i);
    StoredIsAccepted(cfg, s, steps, c, j);
    Observe.OneFormat(RecordOf(s, c), Heard(cfg, s, steps, c), cfg.protected, i, j);
  }
}
