/** The client as a state machine, and what holds over every run of it. */
module ClientRuns {
  import opened Common
  import opened Engines
  import opened ClientModel
  import opened ClientInvariant
  import opened ClientSteps
  import opened ClientDelivery
  import opened ClientAdmission
  import opened ClientEndings
  import opened Authority
  import Observe

  datatype Step =
    | Deliver(now: nat, call: Call, rx: Slot, message: Message, env: Env)
    | Interrupted(now: nat, call: Call, rx: Slot, message: Message, failed: bool) // dropped at, or failed in, its ACK or Reset
    | FailBy(call: Call, failure: Failure)                      // cancelled, or a transfer timed out
    | ResetBy(order: seq<Call>, mid: nat, peer: Peer)           // an empty Reset
    | GivenUp(order: seq<Call>, slot: Slot, failure: Failure)   // no attempt left, or a retransmission in doubt
    | Retransmitted(slot: Slot, rto: Rto)
    | Continued(call: Call, followup: Followup)                 // missing blocks asked for, an upload going on
    | UploadFailed(order: seq<Call>, call: Call, own: Exchange, taken: bool) // a further upload packet whose send fails
    | Acknowledge(mid: nat, peer: Peer)                         // an empty ACK
    | Collected(call: Call, tooLarge: bool)
    | CollectedInto(call: Call, fits: bool)
    | Expired(now: nat, due: seq<(Call, Failure)>)
    | Admitting(now: nat, call: Call, live: Live, sending: Sending)
    | Replacing(now: nat, call: Call, live: Live, sending: Sending)
    | ReplacingDropped(now: nat, call: Call, refreshing: bool)
    | Refused(now: nat)                                         // a refused or dropped request only expires cooldowns
    | ObserveEnded(call: Call)                                  // an interest taken back by the engine
    | Attaching                                                 // a security context for an idle application
    | Elsewhere(slot: Slot, packet: Option<Packet>)             // server work in the shared transmit slots
    | Received(rx: Slot)                                        // a packet arrives, or one held elsewhere is released
    | Released(rx: Slot)

  /** A refresh carries the observation record over; anything else starts anew. */
  function CarriedOver(s: State, c: Call, refreshing: bool): Observe.Record {
    if refreshing then RecordOf(s, c) else Observe.Record(None, None)
  }

  /** An upload of the call is under way, or its response is assembling. */
  predicate Transferring(s: State, c: Call) {
    Uploading(s.engine.uploads, c) || c in s.inbox
  }

  /** When a step can happen. A delivery is interrupted only at a send of its own, which a confirmable
      response calls for. A follow-up is about a transfer, and finds none of the call's requests pending,
      because an ACK, a response or a fragment has just stopped it, unless it is a recovery. */
  ghost predicate Enabled(cfg: Config, s: State, step: Step) {
    match step
    case Deliver(_, _, rx, _, _) => Loose(s, rx)
    case Interrupted(_, c, rx, m, _) => c in s.active && Loose(s, rx) && m.kind.Con?
    case FailBy(c, _) => Cancellable(s, c)
    case ResetBy(order, _, _) => Enumerates(order, s.engine)
    case GivenUp(order, slot, _) => Enumerates(order, s.engine) && PendingAt(s.engine, slot).Some?
    case Retransmitted(slot, rto) => PendingAt(s.engine, slot).Some? && rto.started
    case Continued(c, f) => c in s.active && !Contains(s, c) && Transferring(s, c) && Follows(s.engine, c, f)
    case UploadFailed(order, c, own, taken) =>
      && c in s.active && !Contains(s, c) && Transferring(s, c) && Quiet(s.engine.tx, c)
      && Enumerates(order, Recorded(s, c, own, taken).engine) && own.tx < |s.engine.tx| && s.engine.tx[own.tx].None?
    case Expired(now, due) => ListsDue(ExpireBackoffs(s, now), now, due)
    case Admitting(now, c, live, _) => Admissible(cfg, ExpireBackoffs(s, now), c, live) && live.due != 0
    case Replacing(now, c, live, _) =>
      && live.identity.Some? && Replaceable(ExpireBackoffs(s, now), c, live.identity.value)
      && LiveOk(c, live) && live.backoff == 0 && live.due != 0
      && live.record == CarriedOver(s, c, live.observe.Register?)
    case ReplacingDropped(now, c, _) => exists id :: Replaceable(ExpireBackoffs(s, now), c, id)
    case Attaching => s.active == map[] && s.inbox == map[]
    case Elsewhere(slot, packet) => OthersSlot(s.engine.tx, slot, packet)
    case Received(rx) => rx !in s.engine.rx
    case Released(rx) => Loose(s, rx)
    case _ => true
  }

  function WithTx(s: State, tx: seq<Option<Packet>>): State {
    s.(engine := s.engine.(tx := tx))
  }

  function Retimed(tx: seq<Option<Packet>>, slot: Slot, rto: Rto): seq<Option<Packet>> {
    if slot < |tx| && tx[slot].Some? && tx[slot].value.pending.Some? then
      var p := tx[slot].value;
      tx[slot := Some(p.(pending := Some(p.pending.value.(rto := rto))))]
    else tx
  }

  function Next(cfg: Config, s: State, step: Step): State {
    match step
    case Deliver(now, c, rx, m, env) => Complete(s, cfg, now, c, rx, m, env)
    case Interrupted(now, c, rx, m, failed) => Interrupt(s, cfg, now, c, rx, m, failed)
    case FailBy(c, failure) => Fail(s, cfg, c, failure, true)
    case ResetBy(order, mid, peer) => Authority.ResetBy(s, cfg, order, mid, peer)
    case GivenUp(order, slot, failure) => GiveUp(s, cfg, order, slot, failure)
    case Retransmitted(slot, rto) => WithTx(s, Retimed(s.engine.tx, slot, rto))
    case Continued(c, f) => SendFollowup(s, cfg, c, f)
    case UploadFailed(order, c, own, taken) => FailUpload(s, cfg, order, c, own, taken)
    case Acknowledge(mid, peer) => StopPending(s, mid, peer)
    case Collected(c, tooLarge) => Take(s, c, tooLarge).0
    case CollectedInto(c, fits) => TakeInto(s, c, fits).0
    case Expired(now, due) => Expire(s, cfg, now, due)
    case Admitting(now, c, live, x) => Admit(s, now, c, live, x)
    case Replacing(now, c, live, x) => Replace(s, cfg, now, c, live, x)
    case ReplacingDropped(now, c, refreshing) => Abandon(Displace(s, cfg, now, c, refreshing), c)
    case Refused(now) => ExpireBackoffs(s, now)
    case ObserveEnded(c) => s.(engine := s.engine.(observes := s.engine.observes - {c}))
    case Attaching => s.(retired := map[])
    case Elsewhere(slot, packet) => WithTx(s, if slot < |s.engine.tx| then s.engine.tx[slot := packet] else s.engine.tx)
    case Received(rx) => s.(engine := s.engine.(rx := s.engine.rx + {rx}))
    case Released(rx) => ReleasePacket(s, rx)
  }

  /** The call a step is about; for a Reset or a packet given up, whichever the tables name. */
  function About(s: State, step: Step): Option<Call> {
    match step
    case Deliver(_, c, _, _, _) => Some(c)
    case Interrupted(_, c, _, _, _) => Some(c)
    case FailBy(c, _) => Some(c)
    case ResetBy(order, mid, peer) => ResetTarget(order, s.engine, mid, peer)
    case GivenUp(order, slot, _) => ForTx(order, s.engine, slot)
    case Continued(c, _) => Some(c)
    case UploadFailed(_, c, _, _) => Some(c)
    case Collected(c, _) => Some(c)
    case CollectedInto(c, _) => Some(c)
    case Admitting(_, c, _, _) => Some(c)
    case Replacing(_, c, _, _) => Some(c)
    case ReplacingDropped(_, c, _) => Some(c)
    case ObserveEnded(c) => Some(c)
    case _ => None
  }

  /** Another call whose exchange a failed upload send takes for its own. */
  function Robs(s: State, step: Step): Option<Call> {
    if step.UploadFailed? then
      var d := ForTx(step.order, Recorded(s, step.call, step.own, step.taken).engine, step.own.tx);
      if d == Some(step.call) then None else d
    else None
  }

  /** Which packets are loose after a step: a step may only take the packet it was given. */
  ghost predicate LooseAfter(s: State, step: Step, x: Slot) {
    match step
    case Deliver(_, _, rx, _, _) => Loose(s, x) && x != rx
    case Interrupted(_, _, rx, _, _) => Loose(s, x) && x != rx
    case Released(rx) => Loose(s, x) && x != rx
    case Received(rx) => Loose(s, x) || x == rx
    case _ => Loose(s, x)
  }

  /** A step keeps the invariant, accounts for every packet, and leaves other calls alone, but for the
      exchange a failed upload send may take from one. */
  ghost predicate Sound(cfg: Config, s: State, step: Step) {
    var after := Next(cfg, s, step);
    && Inv(cfg, after)
    && (forall x :: Loose(after, x) <==> LooseAfter(s, step, x))
    && (!step.Expired? ==> forall d :: About(s, step) != Some(d) && Robs(s, step) != Some(d) ==> SameFor(s, after, d))
    && (Robs(s, step).Some? ==> var d := Robs(s, step).value; d in s.engine.exchanges && SameFor(TakeExchange(s, d), after, d))
    && (step.Expired? ==> forall d :: !Listed(step.due, d) ==> SameFor(s, after, d))
  }

  lemma TameSound(cfg: Config, s: State, step: Step, c: Call)
    requires Inv(cfg, Next(cfg, s, step)) && Tame(s, Next(cfg, s, step), c) && About(s, step) == Some(c)
    requires !step.Deliver? && !step.Interrupted? && !step.Released? && !step.Received? && !step.Expired? && Robs(s, step).None?
    ensures Sound(cfg, s, step)
  {
    hide InvBut, Loose, SameFor, Next, About;
  }

  lemma DeliverSound(cfg: Config, s: State, step: Step)
    requires Inv(cfg, s) && Enabled(cfg, s, step) && step.Deliver?
    ensures Sound(cfg, s, step)
  {
    hide InvBut, Complete, Loose, SameFor;
    CompleteDelivers(cfg, s, step.now, step.call, step.rx, step.message, step.env);
  }

  lemma InterruptSound(cfg: Config, s: State, step: Step)
    requires Inv(cfg, s) && Enabled(cfg, s, step) && step.Interrupted?
    ensures Sound(cfg, s, step)
  {
    hide InvBut, Interrupt, Loose, SameFor;
    InterruptDelivers(cfg, s, step.now, step.call, step.rx, step.message, step.failed);
  }

  /** Only transmit slots change. */
  lemma TxSound(cfg: Config, s: State, step: Step, tx: seq<Option<Packet>>)
    requires Inv(cfg, Next(cfg, s, step)) && Next(cfg, s, step) == WithTx(s, tx)
    requires !step.Deliver? && !step.Interrupted? && !step.Released? && !step.Received? && !step.Expired? && !step.UploadFailed?
    ensures Sound(cfg, s, step)
  {
    hide InvBut, Loose, Next, About;
    forall x
      ensures Loose(Next(cfg, s, step), x) <==> Loose(s, x)
    {
      LooseOf(s, Next(cfg, s, step), x);
    }
  }

  lemma EndingSound(cfg: Config, s: State, step: Step)
    requires Inv(cfg, s) && Enabled(cfg, s, step) && (step.ResetBy? || step.GivenUp?)
    ensures Sound(cfg, s, step)
  {
    hide InvBut, Authority.ResetBy, GiveUp, Tame, Sound, ResetTarget, ForTx, Enumerates;
    if step.ResetBy? {
      ResetKeeps(cfg, s, step.order, step.mid, step.peer);
    } else {
      GiveUpKeeps(cfg, s, step.order, step.slot, step.failure);
    }
    var after := Next(cfg, s, step);
    if About(s, step).Some? {
      TameSound(cfg, s, step, About(s, step).value);
    } else {
      TxSound(cfg, s, step, after.engine.tx);
    }
  }

  lemma UploadFailedSound(cfg: Config, s: State, step: Step)
    requires Inv(cfg, s) && Enabled(cfg, s, step) && step.UploadFailed?
    ensures Sound(cfg, s, step)
  {
    hide InvBut, FailUpload, ForTx, Enumerates, Loose, SameFor, Quiet, Recorded;
    var c, d := step.call, ForTx(step.order, Recorded(s, step.call, step.own, step.taken).engine, step.own.tx);
    var after := Next(cfg, s, step);
    FailUploadKeeps(cfg, s, step.order, c, step.own, step.taken);
    if d.Some? && d != Some(c) {
      var taken := TakeExchange(s, d.value);
      forall x
        ensures Loose(after, x) <==> Loose(s, x)
      {
        LooseOf(s, taken, x);
        assert Loose(after, x) <==> Loose(taken, x);
      }
      forall e | e != c && e != d.value
        ensures SameFor(s, after, e)
      {
        TakenSame(s, d.value, e);
        SameForThen(s, taken, after, e);
      }
    }
  }

  lemma TakenSame(s: State, d: Call, e: Call)
    requires e != d
    ensures SameFor(s, TakeExchange(s, d), e)
  {
  }

  lemma SlotSound(cfg: Config, s: State, step: Step)
    requires Inv(cfg, s) && Enabled(cfg, s, step) && (step.Retransmitted? || step.Elsewhere?)
    ensures Sound(cfg, s, step)
  {
    hide InvRest, TxOk, Sound, Retimed, OthersSlot;
    if step.Retransmitted? {
      RetimedIs(s.engine.exchanges, s.engine.tx, step.slot, step.rto);
      TxKeeps(cfg, s, Retimed(s.engine.tx, step.slot, step.rto));
      TxSound(cfg, s, step, Retimed(s.engine.tx, step.slot, step.rto));
    } else {
      OthersIn(s.engine.tx, step.slot, step.packet);
      OthersOk(s.engine.exchanges, s.engine.tx, step.slot, step.packet);
      TxKeeps(cfg, s, s.engine.tx[step.slot := step.packet]);
      TxSound(cfg, s, step, s.engine.tx[step.slot := step.packet]);
    }
  }

  lemma RetimedIs(exchanges: map<Call, Exchange>, tx: seq<Option<Packet>>, slot: Slot, rto: Rto)
    requires TxOk(exchanges, tx) && rto.started
    ensures TxOk(exchanges, Retimed(tx, slot, rto))
  {
    hide TxOk;
    if slot < |tx| && tx[slot].Some? && tx[slot].value.pending.Some? {
      RetimedOk(exchanges, tx, slot, rto);
    }
  }

  lemma OthersIn(tx: seq<Option<Packet>>, slot: Slot, packet: Option<Packet>)
    requires OthersSlot(tx, slot, packet)
    ensures slot < |tx|
  {
  }

  lemma ObserveEndedSound(cfg: Config, s: State, step: Step)
    requires Inv(cfg, s) && step.ObserveEnded?
    ensures Sound(cfg, s, step)
  {
    hide Sizes, Packets, Bodies, Uploads, Lives, Credited, TxOk, Loose, Uploading, Sound, Tame;
    TameLinks(s, Next(cfg, s, step), step.call);
    TameSound(cfg, s, step, step.call);
  }

  lemma AttachSound(cfg: Config, s: State, step: Step)
    requires Inv(cfg, s) && Enabled(cfg, s, step) && step.Attaching?
    ensures Sound(cfg, s, step)
  {
    hide Packets, Bodies, Uploads, Credited, TxOk, Loose, Rows, Owned;
    var after := Next(cfg, s, step);
    assert Inv(cfg, after);
    forall x
      ensures Loose(after, x) <==> Loose(s, x)
    {
      LooseOf(s, after, x);
    }
  }

  lemma CollectSound(cfg: Config, s: State, step: Step)
    requires Inv(cfg, s) && (step.Collected? || step.CollectedInto?)
    ensures Sound(cfg, s, step)
  {
    hide InvBut, Collect, DropDatagram, Tame, Sound;
    var c := step.call;
    if Contains(s, c) {
      CollectKeeps(cfg, s, c);
    } else {
      DatagramKeeps(cfg, s, c, None);
    }
    Itself(s, c);
    TameSound(cfg, s, step, c);
  }

  lemma Itself(s: State, c: Call)
    ensures Tame(s, s, c)
  {
    TameLinks(s, s, c);
  }

  lemma ExpireSound(cfg: Config, s: State, step: Step)
    requires Inv(cfg, s) && Enabled(cfg, s, step) && step.Expired?
    ensures Sound(cfg, s, step)
  {
    hide InvBut, FailDue, Loose, SameFor, ExpireBackoffs, Listed;
    var s0 := ExpireBackoffs(s, step.now);
    ExpireTimes(s, step.now);
    TimesKeep(cfg, s, s0, None);
    DueActive(s0, step.now, step.due);
    FailDueKeeps(cfg, s0, step.due);
    var after := FailDue(s0, cfg, step.due);
    forall d | !Listed(step.due, d)
      ensures SameFor(s, after, d)
    {
      ExpireSame(s, step.now, d);
      SameForThen(s, s0, after, d);
    }
    forall x
      ensures Loose(after, x) <==> Loose(s, x)
    {
      LooseOf(s, s0, x);
      assert Loose(after, x) <==> Loose(s0, x);
    }
  }

  lemma DueActive(s: State, now: nat, due: seq<(Call, Failure)>)
    requires ListsDue(s, now, due)
    ensures forall i :: 0 <= i < |due| ==> due[i].0 in s.active
  {
  }

  lemma ExpireSame(s: State, now: nat, d: Call)
    ensures SameFor(s, ExpireBackoffs(s, now), d)
  {
  }

  lemma ReplaceSound(cfg: Config, s: State, step: Step)
    requires Inv(cfg, s) && Enabled(cfg, s, step) && (step.Replacing? || step.ReplacingDropped?)
    ensures Sound(cfg, s, step)
  {
    hide InvBut, Displace, Replace, AbandonSend, Tame, Sound, Cools, LiveOk, ExpireBackoffs;
    var c := step.call;
    if step.Replacing? {
      ReplaceKeeps(cfg, s, step.now, c, step.live, step.sending);
    } else {
      ExpireTimes(s, step.now);
      DisplaceKeeps(cfg, s, step.now, c, step.refreshing);
      var s1 := Displace(s, cfg, step.now, c, step.refreshing);
      AbandonKeeps(cfg, s1, c, None);
      AbandonTame(s1, c);
      TameThen(s, s1, Abandon(s1, c), c);
    }
    TameSound(cfg, s, step, c);
  }

  lemma PacketSound(cfg: Config, s: State, step: Step)
    requires Inv(cfg, s) && Enabled(cfg, s, step) && (step.Received? || step.Released?)
    ensures Sound(cfg, s, step)
  {
    hide Sizes, Owned, Rows, Bodies, Uploads, Lives, Credited, TxOk, Loose;
    var after := Next(cfg, s, step);
    assert after == s.(engine := s.engine.(rx := after.engine.rx));
    if step.Released? {
      assert forall c :: c in s.inbox ==> s.inbox[c].datagram != Some(step.rx) by { HeldByNone(s, step.rx); }
      ReleaseKeeps(cfg, s, step.rx, None);
    } else {
      hide Packets;
      ReceivedPackets(cfg.full, s.inbox, s.engine.rx, step.rx);
    }
    forall x
      ensures Loose(after, x) <==> LooseAfter(s, step, x)
    {
      RxLoose(s, after, step, x);
    }
  }

  lemma HeldByNone(s: State, rx: Slot)
    requires Loose(s, rx)
    ensures forall c :: c in s.inbox ==> s.inbox[c].datagram != Some(rx)
  {
  }

  lemma ReceivedPackets(full: bool, inbox: ReplyMap, rx: set<Slot>, slot: Slot)
    ensures Packets(full, inbox, rx) ==> Packets(full, inbox, rx + {slot})
  {
  }

  lemma RxLoose(s: State, after: State, step: Step, x: Slot)
    requires after.inbox == s.inbox && (step.Received? || step.Released?)
    requires after.engine.rx == if step.Received? then s.engine.rx + {step.rx} else s.engine.rx - {step.rx}
    requires step.Received? ==> forall c :: c in s.inbox ==> s.inbox[c].datagram != Some(step.rx)
    ensures Loose(after, x) <==> LooseAfter(s, step, x)
  {
  }

  lemma QuietSound(cfg: Config, s: State, step: Step)
    requires Inv(cfg, s) && (step.Acknowledge? || step.Refused?)
    ensures Sound(cfg, s, step)
  {
    hide InvBut, StopPending, Loose, ExpireBackoffs;
    var after := Next(cfg, s, step);
    if step.Acknowledge? {
      StopKeeps(cfg, s, step.mid, step.peer, None, Call(0, step.peer));
      StopIs(s, step.mid, step.peer);
    } else {
      ExpireTimes(s, step.now);
      TimesKeep(cfg, s, after, None);
      forall d
        ensures SameFor(s, after, d)
      {
        ExpireSame(s, step.now, d);
      }
    }
    forall x
      ensures Loose(after, x) <==> Loose(s, x)
    {
      LooseOf(s, after, x);
    }
  }

  /** Every enabled step is sound. */
  lemma StepSound(cfg: Config, s: State, step: Step)
    requires Inv(cfg, s) && Enabled(cfg, s, step)
    ensures Sound(cfg, s, step)
  {
    hide InvBut, Sound, Tame, Fail, SendFollowup, Admit, Quiet, Loose, OthersSlot;
    match step {
      case Deliver(_, _, _, _, _) => DeliverSound(cfg, s, step);
      case Interrupted(_, _, _, _, _) => InterruptSound(cfg, s, step);
      case FailBy(c, failure) =>
        FailKeeps(cfg, s, c, failure, None);
        FailTame(cfg, s, c, failure, true, None);
        TameSound(cfg, s, step, c);
      case ResetBy(_, _, _) => EndingSound(cfg, s, step);
      case GivenUp(_, _, _) => EndingSound(cfg, s, step);
      case Retransmitted(_, _) => SlotSound(cfg, s, step);
      case Continued(c, f) =>
        FollowupKeeps(cfg, s, c, f);
        TameSound(cfg, s, step, c);
      case UploadFailed(_, _, _, _) => UploadFailedSound(cfg, s, step);
      case Acknowledge(_, _) => QuietSound(cfg, s, step);
      case Collected(_, _) => CollectSound(cfg, s, step);
      case CollectedInto(_, _) => CollectSound(cfg, s, step);
      case Expired(_, _) => ExpireSound(cfg, s, step);
      case Admitting(now, c, live, x) =>
        AdmitKeeps(cfg, s, now, c, live, x);
        TameSound(cfg, s, step, c);
      case Replacing(_, _, _, _) => ReplaceSound(cfg, s, step);
      case ReplacingDropped(_, _, _) => ReplaceSound(cfg, s, step);
      case Refused(_) => QuietSound(cfg, s, step);
      case ObserveEnded(_) => ObserveEndedSound(cfg, s, step);
      case Attaching => AttachSound(cfg, s, step);
      case Elsewhere(_, _) => SlotSound(cfg, s, step);
      case Received(_) => PacketSound(cfg, s, step);
      case Released(_) => PacketSound(cfg, s, step);
    }
  }

  /** A call no step is about loses its exchange exactly when a failed upload send takes it. */
  lemma ExchangeLostIff(cfg: Config, s: State, step: Step, d: Call)
    requires Inv(cfg, s) && Enabled(cfg, s, step) && d in s.engine.exchanges && About(s, step) != Some(d)
    requires step.Expired? ==> !Listed(step.due, d)
    ensures d !in Next(cfg, s, step).engine.exchanges <==> Robs(s, step) == Some(d)
  {
    hide InvBut, Enabled, Next, Loose, Robs, About;
    StepSound(cfg, s, step);
  }

  // Runs.

  ghost function After(cfg: Config, s: State, steps: seq<Step>): State
    decreases |steps|
  {
    if steps == [] then s else Next(cfg, After(cfg, s, steps[..|steps| - 1]), steps[|steps| - 1])
  }

  ghost predicate Runs(cfg: Config, s: State, steps: seq<Step>) {
    forall i :: 0 <= i < |steps| ==> Enabled(cfg, After(cfg, s, steps[..i]), steps[i])
  }

  lemma AfterNext(cfg: Config, s: State, steps: seq<Step>, i: nat)
    requires i < |steps|
    ensures After(cfg, s, steps[..i + 1]) == Next(cfg, After(cfg, s, steps[..i]), steps[i])
  {
    hide Next;
    var next := steps[..i + 1];
    assert next[..|next| - 1] == steps[..i] && next[|next| - 1] == steps[i];
  }

  lemma AfterNone(cfg: Config, s: State, steps: seq<Step>)
    ensures After(cfg, s, steps[..0]) == s
  {
  }

  lemma StepKeeps(cfg: Config, s: State, step: Step)
    requires Inv(cfg, s) && Enabled(cfg, s, step)
    ensures Inv(cfg, Next(cfg, s, step))
  {
    hide InvBut, Next, Enabled, SameFor, Loose;
    StepSound(cfg, s, step);
  }

  /** Every reachable state satisfies the invariant. */
  lemma {:induction false} RunKeeps(cfg: Config, s: State, steps: seq<Step>, i: nat)
    requires Inv(cfg, s) && Runs(cfg, s, steps) && i <= |steps|
    ensures Inv(cfg, After(cfg, s, steps[..i]))
    decreases i
  {
    hide Inv, Next, Enabled, After;
    if i == 0 {
      AfterNone(cfg, s, steps);
    } else {
      RunKeeps(cfg, s, steps, i - 1);
      AfterNext(cfg, s, steps, i - 1);
      StepKeeps(cfg, After(cfg, s, steps[..i - 1]), steps[i - 1]);
    }
  }

  /** The empty client satisfies the invariant. */
  lemma StartsSound(cfg: Config, e: Engine)
    requires e.exchanges == map[] && e.observes == {} && e.bindings == {}
    requires (forall i :: 0 <= i < |e.tx| ==> e.tx[i].None?) && (forall i :: 0 <= i < |e.bodies| ==> e.bodies[i].None?)
    requires forall i :: 0 <= i < |e.uploads| ==> e.uploads[i].None?
    ensures Inv(cfg, State(map[], map[], map[], e))
  {
    assert CreditCalls({}, map[]) == {};
  }

  // No completion is lost.

  /** Storing an outcome for an active call always finds a slot. */
  lemma OutcomeAlwaysFits(cfg: Config, s: State, c: Call, reply: Reply)
    requires Inv(cfg, s) && c in s.active
    ensures var after := PutReply(s, cfg, c, reply);
            c in after.inbox && after.inbox[c] == reply
            && forall d :: d != c && d in s.inbox ==> d in after.inbox && after.inbox[d] == s.inbox[d]
  {
    hide InvBut;
    PutFits(cfg, s, c, None);
    PutIs(cfg, s, c, reply);
  }

  predicate Takes(step: Step, c: Call) {
    (step.Collected? || step.CollectedInto?) && step.call == c
  }

  /** A further confirmable response with the call's token whose ACK or Reset does not go out cleanly. */
  predicate Disturbs(step: Step, c: Call) {
    step.Interrupted? && step.call == c
  }

  /** What is left where a delivery was interrupted. */
  const DISTURBED: Reply := Reply(true, Err(ContinuationFailed), None, None)

  /** The untaken outcome of an ordinary call. */
  ghost predicate Settled(s: State, c: Call) {
    Contains(s, c) && c !in s.engine.observes
  }

  lemma SettledIsOver(cfg: Config, s: State, c: Call)
    requires Inv(cfg, s) && Settled(s, c)
    ensures c in s.active && c !in s.engine.exchanges && !Waiting(s, c) && !Cancellable(s, c)
  {
  }

  /** Every step but its own collection leaves an outcome, and it is the one stored unless a delivery
      to the call is interrupted, which puts a failure in its place. */
  lemma OutcomeAfter(cfg: Config, s: State, step: Step, c: Call)
    requires Inv(cfg, s) && Enabled(cfg, s, step) && Settled(s, c) && !Takes(step, c)
    ensures var after := Next(cfg, s, step);
            && Settled(after, c) && c in s.inbox && c in after.inbox
            && after.inbox[c] == (if Disturbs(step, c) then DISTURBED else s.inbox[c])
  {
    hide InvBut, Loose, Next;
    StepSound(cfg, s, step);
    SettledIsOver(cfg, s, c);
    if step.Expired? {
      hide Waiting, ExpireBackoffs, SameFor;
      NotDue(s, step.now, step.due, c);
      assert SameFor(s, Next(cfg, s, step), c);
      SettledSame(s, Next(cfg, s, step), c);
    } else if Disturbs(step, c) {
      DisturbedIs(cfg, s, step, c);
    } else if About(s, step) == Some(c) {
      OwnStepsOnly(cfg, s, step, c);
    } else {
      assert Robs(s, step) != Some(c);
      assert SameFor(s, Next(cfg, s, step), c);
    }
  }

  lemma DisturbedIs(cfg: Config, s: State, step: Step, c: Call)
    requires Inv(cfg, s) && Enabled(cfg, s, step) && Disturbs(step, c)
    ensures var after := Next(cfg, s, step); Settled(after, c) && after.inbox[c] == DISTURBED
  {
    hide InvBut, Loose, Interrupt, Delivered;
    InterruptDelivers(cfg, s, step.now, step.call, step.rx, step.message, step.failed);
  }

  /** Exactly when a stored response survives a step: unless it is collected, or a further delivery
      to the call is interrupted. */
  lemma OutcomeStaysIff(cfg: Config, s: State, step: Step, c: Call)
    requires Inv(cfg, s) && Enabled(cfg, s, step) && Settled(s, c) && !Takes(step, c)
    ensures Settled(Next(cfg, s, step), c) && c in s.inbox && c in Next(cfg, s, step).inbox
    ensures s.inbox[c].meta.Ok? ==> (Next(cfg, s, step).inbox[c] == s.inbox[c] <==> !Disturbs(step, c))
  {
    hide InvBut, Enabled, Next;
    OutcomeAfter(cfg, s, step, c);
  }

  lemma SettledSame(s: State, after: State, c: Call)
    requires Settled(s, c) && SameFor(s, after, c)
    ensures Settled(after, c) && after.inbox[c] == s.inbox[c]
  {
  }

  lemma NotDue(s: State, now: nat, due: seq<(Call, Failure)>, c: Call)
    requires !Waiting(s, c) && ListsDue(ExpireBackoffs(s, now), now, due)
    ensures !Listed(due, c)
  {
    assert !Waiting(ExpireBackoffs(s, now), c);
  }

  lemma OwnStepsOnly(cfg: Config, s: State, step: Step, c: Call)
    requires c in s.active && c !in s.engine.exchanges && !Waiting(s, c) && !Cancellable(s, c)
    requires Enabled(cfg, s, step) && About(s, step) == Some(c) && Settled(s, c) && !Takes(step, c) && !Disturbs(step, c)
    ensures Settled(Next(cfg, s, step), c) && Next(cfg, s, step).inbox[c] == s.inbox[c]
  {
    hide ResetTarget, ForTx, Authority.ResetBy, GiveUp;
    NamedHaveExchanges(s, step);
    assert !step.Continued? && !step.UploadFailed? && !step.FailBy? && !step.Admitting?;
    assert step.Replacing? || step.ReplacingDropped? ==> !Waiting(ExpireBackoffs(s, step.now), c);
  }

  /** A Reset or a packet given up ends only a call that still has its exchange. */
  lemma NamedHaveExchanges(s: State, step: Step)
    ensures (step.ResetBy? || step.GivenUp?) && About(s, step).Some? ==> About(s, step).value in s.engine.exchanges
  {
    hide ResetTarget, ForTx;
    if step.ResetBy? {
      ResetTargetsExchange(step.order, s.engine, step.mid, step.peer);
    } else if step.GivenUp? {
      ForTxFound(step.order, s.engine, step.slot);
    }
  }

  /** Over any run an ordinary call keeps an outcome until it is collected. */
  lemma {:induction false} OutcomeRemains(cfg: Config, s: State, steps: seq<Step>, c: Call, i: nat)
    requires Inv(cfg, s) && Runs(cfg, s, steps) && i <= |steps| && Settled(s, c)
    requires forall k :: 0 <= k < i ==> !Takes(steps[k], c)
    ensures var after := After(cfg, s, steps[..i]);
            && Settled(after, c) && c in s.inbox && c in after.inbox
            && after.inbox[c] == (if exists k :: 0 <= k < i && Disturbs(steps[k], c) then DISTURBED else s.inbox[c])
    decreases i
  {
    hide Inv, Next, Enabled, After, Disturbs;
    if i == 0 {
      AfterNone(cfg, s, steps);
    } else {
      OutcomeRemains(cfg, s, steps, c, i - 1);
      RunKeeps(cfg, s, steps, i - 1);
      AfterNext(cfg, s, steps, i - 1);
      OutcomeAfter(cfg, After(cfg, s, steps[..i - 1]), steps[i - 1], c);
      assert (exists k :: 0 <= k < i && Disturbs(steps[k], c)) <==>
             ((exists k :: 0 <= k < i - 1 && Disturbs(steps[k], c)) || Disturbs(steps[i - 1], c));
    }
  }

  /** Over any run a stored response is there, exactly as stored, until it is collected, if and only
      if no further delivery to the call was interrupted. */
  lemma OutcomeKeptIff(cfg: Config, s: State, steps: seq<Step>, c: Call, i: nat)
    requires Inv(cfg, s) && Runs(cfg, s, steps) && i <= |steps| && Settled(s, c) && s.inbox[c].meta.Ok?
    requires forall k :: 0 <= k < i ==> !Takes(steps[k], c)
    ensures Settled(After(cfg, s, steps[..i]), c) && c in After(cfg, s, steps[..i]).inbox
    ensures After(cfg, s, steps[..i]).inbox[c] == s.inbox[c] <==> forall k :: 0 <= k < i ==> !Disturbs(steps[k], c)
  {
    hide Inv, Next, Enabled, After, Disturbs, Runs;
    OutcomeRemains(cfg, s, steps, c, i);
  }

  // At most once.

  /** What a step hands to the application for this call. */
  function Handed(s: State, step: Step, c: Call): Option<Result<Meta, Failure>> {
    match step
    case Collected(d, tooLarge) => if d == c then Take(s, d, tooLarge).1 else None
    case CollectedInto(d, fits) => if d == c then TakeInto(s, d, fits).1 else None
    case _ => None
  }

  lemma CollectedIsGone(cfg: Config, s: State, step: Step, c: Call)
    requires Inv(cfg, s) && Handed(s, step, c).Some?
    ensures !Contains(Next(cfg, s, step), c)
    ensures c !in s.engine.observes ==> c !in Next(cfg, s, step).active
  {
    hide InvBut, Tame, Collect;
    CollectKeeps(cfg, s, c);
    if c !in s.engine.observes {
      CollectOrdinary(cfg, s, c);
    }
  }

  lemma AbsentStays(cfg: Config, s: State, step: Step, c: Call)
    requires Inv(cfg, s) && Enabled(cfg, s, step) && c !in s.active && !(step.Admitting? && step.call == c)
    ensures c !in Next(cfg, s, step).active && Handed(s, step, c).None?
  {
    hide InvBut, Loose, Next;
    StepSound(cfg, s, step);
    AbsentHandsNothing(cfg, s, step, c);
    if step.Expired? {
      NotDue(s, step.now, step.due, c);
    } else if About(s, step) == Some(c) {
      AbsentSteps(cfg, s, step, c);
    } else {
      assert Robs(s, step) != Some(c);
      assert SameFor(s, Next(cfg, s, step), c);
    }
  }

  lemma AbsentHandsNothing(cfg: Config, s: State, step: Step, c: Call)
    requires Inv(cfg, s) && c !in s.active
    ensures Handed(s, step, c).None? && c !in s.inbox && c !in s.engine.exchanges && c !in s.engine.observes
  {
  }

  lemma AbsentSteps(cfg: Config, s: State, step: Step, c: Call)
    requires c !in s.active && c !in s.inbox && c !in s.engine.exchanges && c !in s.engine.observes
    requires Enabled(cfg, s, step) && About(s, step) == Some(c) && !step.Admitting?
    ensures c !in Next(cfg, s, step).active
  {
    hide ResetTarget, ForTx, Authority.ResetBy, GiveUp;
    NamedHaveExchanges(s, step);
    assert !step.Continued? && !step.UploadFailed? && !step.FailBy? && !step.Replacing? && !step.ReplacingDropped? && !step.Interrupted?;
  }

  lemma {:induction false} AbsentRun(cfg: Config, s: State, steps: seq<Step>, c: Call, i: nat, j: nat)
    requires Inv(cfg, s) && Runs(cfg, s, steps) && i <= j <= |steps|
    requires c !in After(cfg, s, steps[..i]).active
    requires forall k :: i <= k < j ==> !(steps[k].Admitting? && steps[k].call == c)
    ensures c !in After(cfg, s, steps[..j]).active
    decreases j
  {
    hide Inv, Next, Enabled, After;
    if i < j {
      AbsentRun(cfg, s, steps, c, i, j - 1);
      RunKeeps(cfg, s, steps, j - 1);
      AfterNext(cfg, s, steps, j - 1);
      AbsentStays(cfg, After(cfg, s, steps[..j - 1]), steps[j - 1], c);
    }
  }

  /** An ordinary call's outcome is handed out at most once, until its token is admitted anew. */
  lemma HandedOnce(cfg: Config, s: State, steps: seq<Step>, c: Call, i: nat, j: nat)
    requires Inv(cfg, s) && Runs(cfg, s, steps) && i < j < |steps|
    requires c !in After(cfg, s, steps[..i]).engine.observes
    requires Handed(After(cfg, s, steps[..i]), steps[i], c).Some?
    requires forall k :: i < k < j ==> !(steps[k].Admitting? && steps[k].call == c)
    ensures Handed(After(cfg, s, steps[..j]), steps[j], c).None?
  {
    hide Inv, Next, Enabled, Handed, After;
    RunKeeps(cfg, s, steps, i);
    RunKeeps(cfg, s, steps, j);
    AfterNext(cfg, s, steps, i);
    CollectedIsGone(cfg, After(cfg, s, steps[..i]), steps[i], c);
    AbsentRun(cfg, s, steps, c, i + 1, j);
    AbsentHandsNothing(cfg, After(cfg, s, steps[..j]), steps[j], c);
  }

  // Packets and credits.

  /** Calls whose row retains a packet. */
  ghost function Retaining(s: State): set<Call> {
    set c | c in s.inbox && s.inbox[c].datagram.Some?
  }

  /** Retained packets are within the credits, and with complete responses the credits leave at
      least one receive packet free. */
  lemma HeadroomHolds(cfg: Config, s: State)
    requires Inv(cfg, s)
    ensures |Retaining(s)| <= Credits(s)
    ensures cfg.full ==> Credits(s) == 0 || Credits(s) + 1 <= cfg.rxSlots
    ensures !cfg.full ==> Retaining(s) == {}
  {
    hide Bodies, Uploads, Lives, TxOk, Uploading;
    assert OrphanReplies(s.active.Keys, s.inbox) == {};
    Smaller(Retaining(s), CreditCalls(s.active.Keys, s.inbox));
  }

  /** The credits are the active calls that have not failed: a recorded failure frees its call's. */
  lemma CreditsExact(cfg: Config, s: State)
    requires Inv(cfg, s)
    ensures Credits(s) + |set c | c in s.inbox && s.inbox[c].meta.Err?| == |s.active|
  {
    hide Packets, Bodies, Uploads, Lives, TxOk, Uploading, Credited;
    var failed := set c | c in s.inbox && s.inbox[c].meta.Err?;
    assert OrphanReplies(s.active.Keys, s.inbox) == {};
    FailedIsComplete(cfg, s);
    assert CreditCalls(s.active.Keys, s.inbox) + failed == s.active.Keys;
    assert CreditCalls(s.active.Keys, s.inbox) * failed == {};
  }

  lemma FailedIsComplete(cfg: Config, s: State)
    requires Inv(cfg, s)
    ensures forall c :: c in s.inbox && s.inbox[c].meta.Err? ==> c in s.active && s.inbox[c].complete
  {
    hide Packets, Bodies, Uploads, Lives, TxOk, Uploading, Credited;
  }

  /** Over every run, the same bound in every state. */
  lemma HeadroomAlways(cfg: Config, s: State, steps: seq<Step>, i: nat)
    requires Inv(cfg, s) && Runs(cfg, s, steps) && i <= |steps|
    ensures var t := After(cfg, s, steps[..i]);
            |Retaining(t)| <= Credits(t) && (cfg.full ==> Credits(t) == 0 || Credits(t) + 1 <= cfg.rxSlots)
  {
    hide InvBut;
    RunKeeps(cfg, s, steps, i);
    HeadroomHolds(cfg, After(cfg, s, steps[..i]));
  }
}
