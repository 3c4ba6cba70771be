/**
 No call is forgotten. An active call without an outcome has a timer that will end it, or a subscription
 whose notifications go on; a step takes that away only in the cases named here.
 */
module ClientProgress {
  import opened Common
  import opened Engines
  import opened ClientModel
  import opened ClientInvariant
  import opened ClientSteps
  import opened ClientDelivery
  import opened ClientAdmission
  import opened ClientEndings
  import opened ClientRuns
  import opened ClientTimers
  import opened Authority
  import Observe

  predicate Unanswered(s: State, c: Call) {
    c in s.active && !Contains(s, c)
  }

  predicate Failed(s: State, c: Call) {
    Contains(s, c) && s.inbox[c].meta.Err?
  }

  /** The call's own lifetime, a deadline, or an interest in notifications. */
  predicate Attended(s: State, c: Call)
    requires c in s.active
  {
    (c in s.engine.exchanges && s.active[c].due != 0) || s.active[c].deadline.Some? || c in s.engine.observes
  }

  /** The lifetime is disarmed only where a failure is stored. */
  predicate Armed(s: State, c: Call) {
    c in s.active ==> s.active[c].due != 0 || Failed(s, c)
  }

  predicate SameTimers(s: State, after: State, c: Call) {
    c in s.active && c in after.active && after.active[c].due == s.active[c].due && after.active[c].deadline == s.active[c].deadline
  }

  // How far one delivery gets.

  /** The call failed, or its timers are as they were; and unless it has an outcome, its interest is as it
      was, and so is its exchange unless that is `lost`. */
  predicate Moves(s: State, after: State, c: Call, lost: bool) {
    && (Failed(after, c) || SameTimers(s, after, c))
    && (lost ==> !Contains(after, c) && c !in after.engine.exchanges)
    && (!Contains(after, c) ==> && (c in after.engine.observes <==> c in s.engine.observes)
                                && (!lost && c in s.engine.exchanges ==> c in after.engine.exchanges))
  }

  lemma FailMoves(cfg: Config, s: State, c: Call, failure: Failure, hole: Hole)
    requires InvBut(cfg, s, hole) && c in s.active
    ensures Failed(Fail(s, cfg, c, failure, true), c)
  {
    hide InvBut, Fail;
    FailIs(cfg, s, c, failure, true, hole);
  }

  lemma EndMoves(cfg: Config, s: State, c: Call, failure: Failure)
    requires Inv(cfg, s) && c in s.active
    ensures Failed(Fail(Abandon(s, c), cfg, c, failure, true), c)
  {
    hide InvBut, Fail, AbandonSend;
    AbandonKeeps(cfg, s, c, None);
    FailMoves(cfg, Abandon(s, c), c, failure, None);
  }

  /** A follow-up that reports success and leaves no exchange. */
  predicate Untracked(f: Followup) {
    f.Sent? && f.exchange.None?
  }

  lemma FollowupMoves(cfg: Config, s: State, c: Call, f: Followup)
    requires Inv(cfg, s) && c in s.active && !Contains(s, c)
    ensures Moves(s, SendFollowup(s, cfg, c, f), c, Untracked(f))
    ensures var after := SendFollowup(s, cfg, c, f);
            if f.NotSent? then Failed(after, c) else !Untracked(f) ==> c in after.engine.exchanges
  {
    hide InvBut, Fail, Abandon, PlacePacket, PlaceUpload;
    if f.NotSent? {
      EndMoves(cfg, s, c, ContinuationFailed);
    }
  }

  /** The whole response is there: the outcome is stored, and timers stay. */
  lemma StoreMoves(cfg: Config, s: State, c: Call, header: Header, via: bool, room: bool, meta: Meta, body: Option<Slot>)
    requires InvBut(cfg, s, if body.None? then None else Some((c, body.value)))
    requires Answerable(s, c) && !Uploading(s.engine.uploads, c) && Quiet(s.engine.tx, c)
    ensures var after := StoreReply(TakeExchange(AcceptObserve(s, c, header, via, room), c), cfg, c, meta, body);
            c in after.inbox && after.inbox[c].complete && after.active == s.active
  {
    hide InvBut, StoreReply, AcceptObserve, Uploading, Tame, Loose, Quiet;
    var hole := if body.None? then None else Some((c, body.value));
    var s1 := AcceptObserve(s, c, header, via, room);
    AcceptKeeps(cfg, s, c, header, via, room, hole);
    AcceptIs(s, c, header, via, room);
    TakeExchangeKeeps(cfg, s1, c, hole);
    StoreKeeps(cfg, TakeExchange(s1, c), c, meta, body);
  }

  lemma FinishMoves(cfg: Config, s: State, c: Call, slot: Slot, meta: Meta, env: Env, via: bool)
    requires InvBut(cfg, s, Some((c, slot))) && Answerable(s, c) && !Uploading(s.engine.uploads, c) && Quiet(s.engine.tx, c)
    ensures Moves(s, Finish(s, cfg, c, slot, meta, env, via), c, false) && Contains(Finish(s, cfg, c, slot, meta, env, via), c)
  {
    hide InvBut, Fail, StoreReply, AcceptObserve, Uploading, Quiet;
    var hole := Some((c, slot));
    if !cfg.full && env.tooLarge {
      FailMoves(cfg, s, c, ResponseBodyBounds, hole);
    } else {
      var kept := c in s.inbox && !s.inbox[c].complete && s.inbox[c].body == Some(slot) && s.inbox[c].meta.Ok?;
      var first := if kept then s.inbox[c].meta.value else meta;
      StoreMoves(cfg, s, c, first.header, via, env.room, first, Some(slot));
    }
  }

  /** The response leaves the body unfinished and a further block is asked for. */
  predicate AsksOn(s: State, c: Call, m: Message, env: Env) {
    && env.apply.Progress? && !env.apply.complete && Assembles(s.engine.bodies, env.apply.slot, c)
    && !(m.block.QBlock2? && (m.kind.Con? || !env.pull))
  }

  lemma AssembleMoves(cfg: Config, s: State, now: nat, c: Call, rx: Slot, m: Message, env: Env, via: bool)
    requires Inv(cfg, s) && Answerable(s, c) && !Uploading(s.engine.uploads, c) && Quiet(s.engine.tx, c)
    ensures Moves(s, Assemble(s, cfg, now, c, rx, m, env, via), c, AsksOn(s, c, m, env) && Untracked(env.followup))
  {
    hide InvBut, Fail, Uploading, Finish, RetainPartial, DropDatagram, SendFollowup, RecordObservation, Observe.Recorded, Quiet, Tame;
    if env.apply.Broken? {
      FailMoves(cfg, s, c, BlockTransfer(env.apply.error), None);
    } else if env.apply.Progress? && Assembles(s.engine.bodies, env.apply.slot, c) {
      var slot, meta := env.apply.slot, Meta(HeaderOf(m), now);
      var s0 := Admitted(s, c, slot, m.block.QBlock2?);
      var s1 := RecordObservation(s0, c, Notice(m, now));
      AdmittedKeeps(cfg, s, c, slot, m.block.QBlock2?);
      ObservationTimes(s0, c, Notice(m, now));
      TimesKeep(cfg, s0, s1, Some((c, slot)));
      assert s1.engine == s0.engine;
      FinishMoves(cfg, s1, c, slot, meta, env, via);
      PartialMoves(cfg, s1, c, rx, meta, slot, env.followup);
      MovesFrom(s, s1, Assemble(s, cfg, now, c, rx, m, env, via), c, AsksOn(s, c, m, env) && Untracked(env.followup));
    }
  }

  lemma MovesFrom(s: State, mid: State, after: State, c: Call, lost: bool)
    requires SameTimers(s, mid, c) && mid.engine.exchanges == s.engine.exchanges && mid.engine.observes == s.engine.observes
    requires Moves(mid, after, c, lost)
    ensures Moves(s, after, c, lost)
  {
  }

  /** An unfinished body, with and without a further block asked for. */
  lemma PartialMoves(cfg: Config, s: State, c: Call, rx: Slot, meta: Meta, slot: Slot, f: Followup)
    requires InvBut(cfg, s, Some((c, slot))) && Answerable(s, c) && Quiet(s.engine.tx, c)
    ensures var s2 := RetainPartial(DropDatagram(s, c), cfg, c, meta, slot);
            && c in s2.inbox && Moves(s, ReleasePacket(s2, rx), c, false)
            && Moves(s, ReleasePacket(SendFollowup(TakeExchange(s2, c), cfg, c, f), rx), c, Untracked(f))
  {
    hide InvBut, Fail, RetainPartial, DropDatagram, SendFollowup, Quiet, Tame;
    PartialKeeps(cfg, s, c, slot, meta);
    PartialLinks(cfg, s, c, meta, slot);
    var s2 := RetainPartial(DropDatagram(s, c), cfg, c, meta, slot);
    TakeExchangeKeeps(cfg, s2, c, None);
    FollowupMoves(cfg, TakeExchange(s2, c), c, f);
  }

  lemma PartialLinks(cfg: Config, s: State, c: Call, meta: Meta, slot: Slot)
    ensures var after := RetainPartial(DropDatagram(s, c), cfg, c, meta, slot);
            after.engine.exchanges == s.engine.exchanges && after.engine.observes == s.engine.observes
  {
    hide DropDatagram, PutReply;
    DatagramIs(s, c);
    PutLinks(DropDatagram(s, c), cfg, c, Reply(false, Ok(meta), Some(slot), None));
  }

  lemma PutLinks(s: State, cfg: Config, c: Call, reply: Reply)
    ensures var after := PutReply(s, cfg, c, reply); after.engine == s.engine.(bodies := after.engine.bodies)
  {
  }

  lemma KeepMoves(cfg: Config, s: State, now: nat, c: Call, rx: Slot, m: Message, env: Env, via: bool)
    requires Inv(cfg, s) && Answerable(s, c) && !Uploading(s.engine.uploads, c) && Quiet(s.engine.tx, c)
    ensures Moves(s, Keep(s, cfg, now, c, rx, m, env, via), c, false) && Contains(Keep(s, cfg, now, c, rx, m, env, via), c)
  {
    hide InvBut, Fail, Uploading, AcceptObserve, StoreReply, RecordObservation, Observe.Recorded, Quiet, TakeExchange, HeaderOf, Notice;
    FailMoves(cfg, s, c, PacketHeadroom, None);
    var n := Notice(m, now);
    var s0 := RecordObservation(s, c, n);
    ObservationTimes(s, c, n);
    TimesKeep(cfg, s, s0, None);
    StoreMoves(cfg, s0, c, HeaderOf(m), via, env.room, Meta(HeaderOf(m), now), None);
    assert SameTimers(s, s0, c);
  }

  /** A response that is taken as an answer and has a follow-up sent. */
  predicate FollowsUp(s: State, c: Call, m: Message, env: Env) {
    || CarriesOn(s, c, m, env)
    || (env.meta.None? && !m.code.Overloaded? && !m.block.Plain? && AsksOn(s, c, m, env))
  }

  lemma AnswerMoves(cfg: Config, s: State, now: nat, c: Call, rx: Slot, m: Message, env: Env, via: bool)
    requires Inv(cfg, s) && Answerable(s, c) && Quiet(s.engine.tx, c)
    ensures Moves(s, Answer(s, cfg, now, c, rx, m, env, via), c, FollowsUp(s, c, m, env) && Untracked(env.followup))
  {
    hide InvBut, Uploading, Assemble, Keep, RecordBackoff, SendFollowup, DropUpload, Fail, LookupUpload, Quiet;
    if CarriesOn(s, c, m, env) {
      UploadingNotComplete(cfg, s, c);
      FollowupMoves(cfg, s, c, env.followup);
    } else {
      var s1 := DropUpload(s, c);
      DropUploadKeeps(cfg, s, c, None);
      DropUploadOnly(s, c);
      if env.meta.Some? {
        FailMoves(cfg, s1, c, env.meta.value, None);
      } else {
        var s2 := RecordBackoff(s1, c, m, now);
        BackoffTimes(s1, c, m, now);
        TimesKeep(cfg, s1, s2, None);
        AssembleMoves(cfg, s2, now, c, rx, m, env, via);
        KeepMoves(cfg, s2, now, c, rx, m, env, via);
      }
    }
  }

  /** The delivery has a follow-up sent that reports success and leaves no exchange. */
  predicate LosesTrack(s: State, cfg: Config, now: nat, c: Call, m: Message, env: Env) {
    Accepts(s, cfg, now, c, m, env) && FollowsUp(s, c, m, env) && Untracked(env.followup)
  }

  lemma StillMoves(s: State, tx: seq<Option<Packet>>, rx: Slot, c: Call)
    requires c in s.active
    ensures Moves(s, ReleasePacket(WithTx(s, tx), rx), c, false)
  {
  }

  lemma CompleteMoves(cfg: Config, s: State, now: nat, c: Call, rx: Slot, m: Message, env: Env)
    requires Inv(cfg, s) && c in s.active
    ensures Moves(s, Complete(s, cfg, now, c, rx, m, env), c, LosesTrack(s, cfg, now, c, m, env))
  {
    hide InvBut, Answer, Fail, StopPending, Moves, Observe.Admissible, Observe.RecordFresh, Unsent, Quiet, Tame, FollowsUp, Untracked;
    var via := MatchesExchange(s.engine, c, m.kind, m.mid);
    StillMoves(s, s.engine.tx, rx, c);
    if via || MatchesObserve(s.engine, c, m.kind) {
      var mid := if via then s.engine.exchanges[c].mid else 0;
      var acked := if m.kind.Ack? && via then StopPending(s, mid, c.peer) else s;
      var stopped := if via then StopPending(acked, mid, c.peer) else acked;
      var ready := StopPending(stopped, m.mid, c.peer);
      ReadyKeeps(cfg, s, c, m);
      StopIs(s, mid, c.peer);
      StillMoves(s, acked.engine.tx, rx, c);
      TargetedIsAnswerable(cfg, s, c);
      MismatchMoves(cfg, s, c, rx);
      AnswerMoves(cfg, ready, now, c, rx, m, env, via);
      SameFollowsUp(s, ready.engine.tx, c, m, env);
      assert FollowsUp(ready, c, m, env) == FollowsUp(s, c, m, env);
      MovesFrom(s, ready, Answer(ready, cfg, now, c, rx, m, env, via), c, FollowsUp(s, c, m, env) && Untracked(env.followup));
    }
  }

  lemma MismatchMoves(cfg: Config, s: State, c: Call, rx: Slot)
    requires Inv(cfg, s) && c in s.active
    ensures Moves(s, ReleasePacket(Fail(s, cfg, c, ObserveFormatMismatch, true), rx), c, false)
  {
    hide InvBut, Fail;
    FailMoves(cfg, s, c, ObserveFormatMismatch, None);
  }

  lemma SameFollowsUp(s: State, tx: seq<Option<Packet>>, c: Call, m: Message, env: Env)
    ensures FollowsUp(WithTx(s, tx), c, m, env) == FollowsUp(s, c, m, env)
  {
  }

  // Every step.

  /** Exactly when a step leaves an unanswered call with nothing to end it. */
  ghost predicate Neglects(cfg: Config, s: State, step: Step, c: Call) {
    c in s.active && s.active[c].deadline.None? &&
    match step
    case Deliver(now, d, _, m, env) => d == c && c !in s.engine.observes && LosesTrack(s, cfg, now, c, m, env)
    case Continued(d, f) => d == c && c !in s.engine.observes && Untracked(f)
    case UploadFailed(_, _, _, _) => Robs(s, step) == Some(c) && c !in s.engine.observes
    case ObserveEnded(d) => d == c && c in s.engine.observes && c !in s.engine.exchanges && !Contains(s, c)
    case _ => false
  }

  /** An active call has an outcome, or is attended. */
  predicate Watched(s: State, c: Call) {
    c in s.active ==> Contains(s, c) || Attended(s, c)
  }

  lemma DeliverAttends(cfg: Config, s: State, step: Step, c: Call)
    requires Inv(cfg, s) && Enabled(cfg, s, step) && step.Deliver? && step.call == c && Armed(s, c) && Watched(s, c)
    ensures Armed(Next(cfg, s, step), c) && (Watched(Next(cfg, s, step), c) <==> !Neglects(cfg, s, step, c))
  {
    hide InvBut, Loose, Complete, FollowsUp, Untracked, Observe.Accepted;
    var after := Next(cfg, s, step);
    if c !in s.active {
      AbsentStays(cfg, s, step, c);
    } else {
      CompleteMoves(cfg, s, step.now, c, step.rx, step.message, step.env);
      if Contains(s, c) && c !in s.engine.observes {
        OutcomeAfter(cfg, s, step, c);
        SettledIsOver(cfg, s, c);
      } else {
        UnsettledIsArmed(cfg, s, c);
      }
    }
  }

  /** Only a settled call can have failed. */
  lemma UnsettledIsArmed(cfg: Config, s: State, c: Call)
    requires Inv(cfg, s) && Armed(s, c) && c in s.active && !(Contains(s, c) && c !in s.engine.observes)
    ensures s.active[c].due != 0
  {
  }

  lemma EndedAttends(cfg: Config, s: State, step: Step, c: Call)
    requires Inv(cfg, s) && Enabled(cfg, s, step) && About(s, step) == Some(c)
    requires step.Interrupted? || step.FailBy? || step.ResetBy? || step.GivenUp? || step.UploadFailed? || step.ReplacingDropped?
    ensures Failed(Next(cfg, s, step), c)
  {
    hide InvBut, Loose, Fail, Tame, Interrupt, Displace, AbandonSend, ResetTarget, ForTx, Recorded, Enumerates,
      Cools, ExpireBackoffs, Delivered, Quiet,
      FailUpload, Authority.ResetBy, GiveUp, Vacant;
    match step {
      case Interrupted(now, _, rx, m, failed) => InterruptDelivers(cfg, s, now, c, rx, m, failed);
      case FailBy(_, failure) => FailMoves(cfg, s, c, failure, None);
      case ResetBy(order, mid, peer) => ResetKeeps(cfg, s, order, mid, peer);
      case GivenUp(order, slot, failure) =>
        assert slot < |s.engine.tx|;
        GiveUpKeeps(cfg, s, order, slot, failure);
      case UploadFailed(order, _, own, taken) => FailUploadKeeps(cfg, s, order, c, own, taken);
      case ReplacingDropped(now, _, refreshing) =>
        ExpireTimes(s, now);
        DisplaceKeeps(cfg, s, now, c, refreshing);
        AbandonTame(Displace(s, cfg, now, c, refreshing), c);
    }
  }

  lemma LaunchAttends(cfg: Config, s: State, step: Step, c: Call)
    requires Enabled(cfg, s, step) && (step.Admitting? || step.Replacing?) && step.call == c
    ensures var after := Next(cfg, s, step); c in after.active && Attended(after, c) && after.active[c].due != 0
  {
    hide Displace, DropDatagram, ExpireBackoffs, PlacePacket, PlaceUpload, Cools, LiveOk, Admissible, Replaceable;
  }

  lemma TakeAttends(cfg: Config, s: State, step: Step, c: Call)
    requires Inv(cfg, s) && (step.Collected? || step.CollectedInto?) && step.call == c && Armed(s, c) && Watched(s, c)
    ensures Armed(Next(cfg, s, step), c) && Watched(Next(cfg, s, step), c)
  {
    hide InvBut, Collect, Tame;
    var after := Next(cfg, s, step);
    if Contains(s, c) && c !in s.engine.observes {
      CollectOrdinary(cfg, s, c);
    } else if Contains(s, c) {
      if c in s.active {
        UnsettledIsArmed(cfg, s, c);
      }
      CollectedStays(s, c);
    } else {
      DatagramIs(s, c);
    }
  }

  lemma CollectedStays(s: State, c: Call)
    requires Contains(s, c) && c in s.engine.observes
    ensures Collect(s, c).active == s.active && Collect(s, c).engine.observes == s.engine.observes
  {
  }

  lemma ContinuedAttends(cfg: Config, s: State, step: Step, c: Call)
    requires Inv(cfg, s) && Enabled(cfg, s, step) && step.Continued? && step.call == c && Armed(s, c) && Watched(s, c)
    ensures Armed(Next(cfg, s, step), c) && (Watched(Next(cfg, s, step), c) <==> !Neglects(cfg, s, step, c))
  {
    hide InvBut, SendFollowup, Follows, Uploading;
    FollowupMoves(cfg, s, c, step.followup);
    UnsettledIsArmed(cfg, s, c);
  }

  lemma ObserveEndedAttends(cfg: Config, s: State, step: Step, c: Call)
    requires Inv(cfg, s) && step.ObserveEnded? && step.call == c && Armed(s, c) && Watched(s, c)
    ensures Armed(Next(cfg, s, step), c) && (Watched(Next(cfg, s, step), c) <==> !Neglects(cfg, s, step, c))
  {
    hide InvBut;
    if c in s.active && !Contains(s, c) {
      UnsettledIsArmed(cfg, s, c);
    }
  }

  lemma {:induction false} FailDueFails(cfg: Config, s: State, due: seq<(Call, Failure)>, c: Call)
    requires Inv(cfg, s) && (forall i :: 0 <= i < |due| ==> due[i].0 in s.active) && (Listed(due, c) || Failed(s, c))
    ensures Failed(FailDue(s, cfg, due), c)
    decreases |due|
  {
    hide InvBut, Fail, FailDue, Loose, SameHoldings;
    if due == [] {
      FailDueNone(cfg, s);
    } else {
      var d, rest := due[0].0, due[1..];
      var next := Fail(s, cfg, d, due[0].1, true);
      FailKeeps(cfg, s, d, due[0].1, None);
      FailTame(cfg, s, d, due[0].1, true, None);
      FailSame(cfg, s, d, due[0].1);
      FailMoves(cfg, s, d, due[0].1, None);
      FailDueNext(cfg, s, due);
      assert forall i :: 0 <= i < |rest| ==> rest[i] == due[i + 1];
      ListedSplit(due, c);
      if c != d {
        assert SameFor(s, next, c);
      }
      FailDueFails(cfg, next, rest, c);
    }
  }

  lemma ExpiredAttends(cfg: Config, s: State, step: Step, c: Call)
    requires Inv(cfg, s) && Enabled(cfg, s, step) && step.Expired? && Listed(step.due, c)
    ensures Failed(Next(cfg, s, step), c)
  {
    hide InvBut, FailDue, ExpireBackoffs, Listed, Failed;
    var s0 := ExpireBackoffs(s, step.now);
    ExpireTimes(s, step.now);
    TimesKeep(cfg, s, s0, None);
    DueActive(s0, step.now, step.due);
    FailDueFails(cfg, s0, step.due, c);
  }

  lemma SameAttends(s: State, after: State, c: Call)
    requires SameFor(s, after, c)
    ensures (Armed(after, c) <==> Armed(s, c)) && (Watched(after, c) <==> Watched(s, c))
  {
    hide SameHoldings;
  }

  lemma RobbedAttends(cfg: Config, s: State, step: Step, c: Call)
    requires Inv(cfg, s) && Enabled(cfg, s, step) && Robs(s, step) == Some(c) && Armed(s, c) && Watched(s, c)
    ensures Armed(Next(cfg, s, step), c) && (Watched(Next(cfg, s, step), c) <==> !Neglects(cfg, s, step, c))
  {
    hide InvBut, Loose, SameHoldings, Next, Enabled, ForTx, Recorded;
    StepSound(cfg, s, step);
    TargetActive(cfg, s, c);
  }

  /** A step leaves an active call with an outcome or attended, exactly unless it neglects the call. */
  lemma AttendsIff(cfg: Config, s: State, step: Step, c: Call)
    requires Inv(cfg, s) && Enabled(cfg, s, step) && Armed(s, c) && Watched(s, c)
    ensures Armed(Next(cfg, s, step), c)
    ensures Watched(Next(cfg, s, step), c) <==> !Neglects(cfg, s, step, c)
  {
    hide InvBut, Next, Enabled, Loose, SameHoldings, Watched, Armed, Listed, ResetTarget, ForTx, Recorded, LosesTrack, Untracked;
    if step.Expired? && Listed(step.due, c) {
      ExpiredAttends(cfg, s, step, c);
      FailedAttends(Next(cfg, s, step), c);
    } else if Robs(s, step) == Some(c) {
      RobbedAttends(cfg, s, step, c);
    } else if About(s, step) == Some(c) {
      OwnAttends(cfg, s, step, c);
    } else {
      StepSound(cfg, s, step);
      SameAttends(s, Next(cfg, s, step), c);
    }
  }

  lemma FailedAttends(s: State, c: Call)
    requires Failed(s, c)
    ensures Armed(s, c) && Watched(s, c)
  {
  }

  lemma OwnAttends(cfg: Config, s: State, step: Step, c: Call)
    requires Inv(cfg, s) && Enabled(cfg, s, step) && Armed(s, c) && Watched(s, c) && About(s, step) == Some(c) && !step.Expired?
    ensures Armed(Next(cfg, s, step), c)
    ensures Watched(Next(cfg, s, step), c) <==> !Neglects(cfg, s, step, c)
  {
    hide InvBut, Next, Enabled, ResetTarget, ForTx, Recorded, LosesTrack, Untracked, Failed, Attended;
    match step {
      case Deliver(_, _, _, _, _) => DeliverAttends(cfg, s, step, c);
      case Continued(_, _) => ContinuedAttends(cfg, s, step, c);
      case ObserveEnded(_) => ObserveEndedAttends(cfg, s, step, c);
      case Collected(_, _) => TakeAttends(cfg, s, step, c);
      case CollectedInto(_, _) => TakeAttends(cfg, s, step, c);
      case Admitting(_, _, _, _) => LaunchAttends(cfg, s, step, c);
      case Replacing(_, _, _, _) => LaunchAttends(cfg, s, step, c);
      case _ =>
        EndedAttends(cfg, s, step, c);
        FailedAttends(Next(cfg, s, step), c);
    }
  }

  // Runs.

  /** Over every run, an active call has an outcome or is attended, unless a step neglected it. */
  lemma {:induction false} RunAttends(cfg: Config, s: State, steps: seq<Step>, c: Call, i: nat)
    requires Inv(cfg, s) && Runs(cfg, s, steps) && i <= |steps| && Armed(s, c) && Watched(s, c)
    requires forall k :: 0 <= k < i ==> !Neglects(cfg, After(cfg, s, steps[..k]), steps[k], c)
    ensures Armed(After(cfg, s, steps[..i]), c) && Watched(After(cfg, s, steps[..i]), c)
    decreases i
  {
    hide Inv, Next, Enabled, After, Neglects, Armed, Watched;
    if i == 0 {
      AfterNone(cfg, s, steps);
    } else {
      RunAttends(cfg, s, steps, c, i - 1);
      RunKeeps(cfg, s, steps, i - 1);
      AfterNext(cfg, s, steps, i - 1);
      AttendsIff(cfg, After(cfg, s, steps[..i - 1]), steps[i - 1], c);
    }
  }

  /** When an attended call that is no subscription ends at the latest. */
  function EndTime(s: State, c: Call): nat
    requires c in s.active && Attended(s, c) && c !in s.engine.observes
  {
    var live := s.active[c];
    if live.deadline.None? then live.due
    else if c in s.engine.exchanges && live.due != 0 then Min(live.due, live.deadline.value)
    else live.deadline.value
  }

  /** The first expiry at or after that time gives it an outcome, if nothing has before. */
  lemma ExpiryEnds(cfg: Config, s: State, step: Step, c: Call)
    requires Inv(cfg, s) && Enabled(cfg, s, step) && step.Expired?
    requires Unanswered(s, c) && Attended(s, c) && c !in s.engine.observes && step.now >= EndTime(s, c)
    ensures Settled(Next(cfg, s, step), c)
  {
    hide InvBut, Next, Loose;
    var s0 := ExpireBackoffs(s, step.now);
    assert DueFailure(s0, c, step.now).Some?;
    ExpiredAttends(cfg, s, step, c);
    StepKeeps(cfg, s, step);
    FailedIsSettled(cfg, Next(cfg, s, step), c);
  }

  lemma FailedIsSettled(cfg: Config, s: State, c: Call)
    requires Inv(cfg, s) && Failed(s, c)
    ensures Settled(s, c)
  {
  }
}
