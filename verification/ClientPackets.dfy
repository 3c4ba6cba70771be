/**
 Who may stop the request a call has pending, and with it the retransmissions. The packet is marked by
 Message ID and peer, and a response whose Message ID the server chose is looked up by the same mark.
 */
module ClientPackets {
  import opened Common
  import opened Engines
  import opened ClientModel
  import opened ClientInvariant
  import opened ClientSteps
  import opened ClientDelivery
  import opened ClientAdmission
  import opened ClientEndings
  import opened ClientRuns
  import opened Authority
  import Observe

  /** The call's own request that is pending. */
  function PacketOf(e: Engine, d: Call): Option<Packet> {
    if d in e.exchanges && e.exchanges[d].tx < |e.tx| && Mine(e.tx[e.exchanges[d].tx], d) then e.tx[e.exchanges[d].tx] else None
  }

  /** The mark of the call's request: what it is stopped by. */
  predicate Marked(e: Engine, d: Call, mid: nat, peer: Peer) {
    d in e.exchanges && e.exchanges[d].mid == mid && d.peer == peer
  }

  /** Another exchange with the same peer still carries the same Message ID. */
  predicate Twins(e: Engine, c: Call, d: Call) {
    c != d && c in e.exchanges && Marked(e, d, e.exchanges[c].mid, c.peer)
  }

  // One operation on the transmit slots.

  /** Every pending request of the call is where it was, and there is no new one. */
  predicate Kept(tx: seq<Option<Packet>>, after: seq<Option<Packet>>, d: Call) {
    |after| == |tx| && forall i :: 0 <= i < |tx| && (Mine(tx[i], d) || Mine(after[i], d)) ==> after[i] == tx[i]
  }

  predicate Effect(tx: seq<Option<Packet>>, after: seq<Option<Packet>>, d: Call, stops: bool) {
    |after| == |tx| && if stops then Quiet(after, d) else Kept(tx, after, d)
  }

  lemma EffectThen(tx: seq<Option<Packet>>, mid: seq<Option<Packet>>, after: seq<Option<Packet>>, d: Call, a: bool, b: bool)
    requires Effect(tx, mid, d, a) && Effect(mid, after, d, b)
    ensures Effect(tx, after, d, a || b)
  {
  }

  lemma KeptSame(tx: seq<Option<Packet>>, d: Call)
    ensures Effect(tx, tx, d, false)
  {
  }

  /** Taking the mark of a Message ID stops the call's request exactly when it is the one marked. */
  lemma StopEffect(s: State, mid: nat, peer: Peer, d: Call)
    requires TxOk(s.engine.exchanges, s.engine.tx)
    ensures Effect(s.engine.tx, StopPending(s, mid, peer).engine.tx, d, Marked(s.engine, d, mid, peer))
  {
    var tx := s.engine.tx;
    StopOk(s.engine, mid, peer, d);
    var found := LookupPending(tx, mid, peer);
    if found.Some? && !Marked(s.engine, d, mid, peer) {
      assert Attributed(s.engine.exchanges, tx[found.value], found.value);
    }
  }

  lemma DropEffect(e: Engine, c: Call, d: Call)
    requires TxOk(e.exchanges, e.tx) && c != d
    ensures Effect(e.tx, DropExchange(e, c, true).tx, d, Twins(e, c, d))
  {
    if c in e.exchanges {
      NeverUnsent(e, c);
      var s := State(map[], map[], map[], e);
      StopEffect(s, e.exchanges[c].mid, c.peer, d);
      assert DropExchange(e, c, true).tx == StopPending(s, e.exchanges[c].mid, c.peer).engine.tx;
    }
  }

  lemma AbandonEffect(tx: seq<Option<Packet>>, c: Call, d: Call)
    requires c != d
    ensures Effect(tx, TxWithout(tx, c), d, false)
  {
  }

  lemma PlaceEffect(tx: seq<Option<Packet>>, c: Call, x: Exchange, timer: Option<Rto>, d: Call)
    requires c != d
    ensures Effect(tx, PlacePacket(tx, c, x, timer), d, false)
  {
  }

  lemma ReleaseEffect(e: Engine, slot: Slot, d: Call)
    requires TxOk(e.exchanges, e.tx) && slot < |e.tx|
    ensures Effect(e.tx, e.tx[slot := None], d, d in e.exchanges && e.exchanges[d].tx == slot)
  {
    forall i | 0 <= i < |e.tx| && Mine(e.tx[i], d)
      ensures d in e.exchanges && e.exchanges[d].tx == i
    {
      FoundIsMine(e.exchanges, e.tx, d, i);
    }
  }

  // Failing and following up.

  /** Neither exchanges nor packets differ. */
  predicate SameTx(e: Engine, after: Engine) {
    after.exchanges == e.exchanges && after.tx == e.tx
  }

  lemma PutTx(s: State, cfg: Config, c: Call, reply: Reply)
    ensures SameTx(s.engine, PutReply(s, cfg, c, reply).engine)
  {
  }

  lemma DatagramTx(s: State, c: Call)
    ensures SameTx(s.engine, DropDatagram(s, c).engine)
  {
  }

  lemma FailTx(s: State, cfg: Config, c: Call, failure: Failure, release: bool)
    ensures Fail(s, cfg, c, failure, release).engine.tx == DropExchange(s.engine, c, release).tx
  {
    hide DropExchange, DropUpload, BodiesWithout, PutReply, DropDatagram;
    var reply := Reply(true, Err(failure), None, None);
    var s1 := Detach(s, c, release);
    var s2 := DropDatagram(s1, c);
    DatagramTx(s1, c);
    PutTx(s2, cfg, c, reply);
    DropUploadOnly(DropBodies(PutReply(s2, cfg, c, reply), c), c);
  }

  lemma FailEffects(s: State, cfg: Config, c: Call, failure: Failure, d: Call)
    requires TxOk(s.engine.exchanges, s.engine.tx) && c != d
    ensures Effect(s.engine.tx, Fail(s, cfg, c, failure, true).engine.tx, d, Twins(s.engine, c, d))
  {
    hide Fail, DropExchange, TxOk, Twins, Effect;
    FailTx(s, cfg, c, failure, true);
    DropEffect(s.engine, c, d);
  }

  /** A call whose send was abandoned has no exchange left to drop. */
  lemma EndEffects(s: State, cfg: Config, c: Call, failure: Failure, d: Call)
    requires c != d
    ensures Effect(s.engine.tx, Fail(Abandon(s, c), cfg, c, failure, true).engine.tx, d, false)
  {
    hide Fail, Effect;
    FailTx(Abandon(s, c), cfg, c, failure, true);
    AbandonEffect(s.engine.tx, c, d);
  }

  lemma FollowupEffects(s: State, cfg: Config, c: Call, f: Followup, d: Call)
    requires c != d
    ensures Effect(s.engine.tx, SendFollowup(s, cfg, c, f).engine.tx, d, false)
  {
    hide Fail, Abandon, Effect, PlacePacket, PlaceUpload;
    EndEffects(s, cfg, c, ContinuationFailed, d);
    KeptSame(s.engine.tx, d);
    if f.Sent? && f.exchange.Some? {
      PlaceEffect(s.engine.tx, c, f.exchange.value, f.timer, d);
    }
  }

  // Delivering a response.

  /** Dropping the call's exchange stops nothing more. */
  predicate Calm(e: Engine, c: Call) {
    DropExchange(e, c, true).tx == e.tx
  }

  lemma CalmFail(s: State, cfg: Config, c: Call, failure: Failure)
    requires Calm(s.engine, c)
    ensures Fail(s, cfg, c, failure, true).engine.tx == s.engine.tx
  {
    hide Fail, DropExchange;
    FailTx(s, cfg, c, failure, true);
  }

  lemma CalmSame(e: Engine, after: Engine, c: Call)
    requires Calm(e, c) && SameTx(e, after)
    ensures Calm(after, c)
  {
  }

  lemma StoreTx(s: State, cfg: Config, c: Call, meta: Meta, body: Option<Slot>)
    ensures StoreReply(s, cfg, c, meta, body).engine.tx == s.engine.tx
  {
    hide DropDatagram, PutReply;
    DatagramTx(s, c);
    PutTx(DropDatagram(s, c), cfg, c, Reply(true, Ok(meta), body, None));
  }

  lemma PartialTx(s: State, cfg: Config, c: Call, meta: Meta, body: Slot)
    ensures SameTx(s.engine, RetainPartial(DropDatagram(s, c), cfg, c, meta, body).engine)
  {
    hide DropDatagram, PutReply;
    DatagramTx(s, c);
    PutTx(DropDatagram(s, c), cfg, c, Reply(false, Ok(meta), Some(body), None));
  }

  lemma NotedTx(s: State, c: Call, m: Message, now: nat)
    ensures RecordBackoff(s, c, m, now).engine == s.engine && RecordObservation(s, c, Notice(m, now)).engine == s.engine
  {
  }

  lemma AcceptTx(s: State, c: Call, header: Header, via: bool, room: bool)
    ensures AcceptObserve(s, c, header, via, room).engine.tx == s.engine.tx
  {
  }

  lemma FinishTx(s: State, cfg: Config, c: Call, body: Slot, meta: Meta, env: Env, via: bool)
    requires Calm(s.engine, c)
    ensures Finish(s, cfg, c, body, meta, env, via).engine.tx == s.engine.tx
  {
    hide Fail, StoreReply, AcceptObserve, Calm;
    CalmFail(s, cfg, c, ResponseBodyBounds);
    var kept := c in s.inbox && !s.inbox[c].complete && s.inbox[c].body == Some(body) && s.inbox[c].meta.Ok?;
    var first := if kept then s.inbox[c].meta.value else meta;
    AcceptTx(s, c, first.header, via, env.room);
    StoreTx(TakeExchange(AcceptObserve(s, c, first.header, via, env.room), c), cfg, c, first, Some(body));
  }

  lemma AssembleEffects(s: State, cfg: Config, now: nat, c: Call, rx: Slot, m: Message, env: Env, via: bool, d: Call)
    requires Calm(s.engine, c) && c != d
    ensures Effect(s.engine.tx, Assemble(s, cfg, now, c, rx, m, env, via).engine.tx, d, false)
  {
    hide Fail, Finish, RetainPartial, DropDatagram, SendFollowup, RecordObservation, Calm, Effect;
    KeptSame(s.engine.tx, d);
    if env.apply.Broken? {
      CalmFail(s, cfg, c, BlockTransfer(env.apply.error));
    } else if env.apply.Progress? && Assembles(s.engine.bodies, env.apply.slot, c) {
      var slot, meta := env.apply.slot, Meta(HeaderOf(m), now);
      var s0 := Admitted(s, c, slot, m.block.QBlock2?);
      var s1 := RecordObservation(s0, c, Notice(m, now));
      NotedTx(s0, c, m, now);
      CalmSame(s.engine, s1.engine, c);
      FinishTx(s1, cfg, c, slot, meta, env, via);
      PartialTx(s1, cfg, c, meta, slot);
      var s2 := RetainPartial(DropDatagram(s1, c), cfg, c, meta, slot);
      FollowupEffects(TakeExchange(s2, c), cfg, c, env.followup, d);
    }
  }

  lemma KeepTx(s: State, cfg: Config, now: nat, c: Call, rx: Slot, m: Message, env: Env, via: bool)
    requires Calm(s.engine, c)
    ensures Keep(s, cfg, now, c, rx, m, env, via).engine.tx == s.engine.tx
  {
    hide Fail, StoreReply, AcceptObserve, RecordObservation, Calm;
    CalmFail(s, cfg, c, PacketHeadroom);
    NotedTx(s, c, m, now);
    var noted := RecordObservation(s, c, Notice(m, now));
    AcceptTx(noted, c, HeaderOf(m), via, env.room);
    StoreTx(TakeExchange(AcceptObserve(noted, c, HeaderOf(m), via, env.room), c), cfg, c, Meta(HeaderOf(m), now), None);
  }

  lemma AnswerEffects(s: State, cfg: Config, now: nat, c: Call, rx: Slot, m: Message, env: Env, via: bool, d: Call)
    requires Calm(s.engine, c) && c != d
    ensures Effect(s.engine.tx, Answer(s, cfg, now, c, rx, m, env, via).engine.tx, d, false)
  {
    hide Fail, Assemble, Keep, SendFollowup, RecordBackoff, Calm, Effect, LookupUpload, DropUpload;
    FollowupEffects(s, cfg, c, env.followup, d);
    KeptSame(s.engine.tx, d);
    DropUploadOnly(s, c);
    var s1 := DropUpload(s, c);
    CalmSame(s.engine, s1.engine, c);
    if env.meta.Some? {
      CalmFail(s1, cfg, c, env.meta.value);
    }
    NotedTx(s1, c, m, now);
    AssembleEffects(RecordBackoff(s1, c, m, now), cfg, now, c, rx, m, env, via, d);
    KeepTx(RecordBackoff(s1, c, m, now), cfg, now, c, rx, m, env, via);
  }

  /** After both marks are taken, the answered call's exchange has nothing left to stop. */
  lemma ReadyCalm(e: Engine, tx: seq<Option<Packet>>, c: Call)
    requires TxOk(e.exchanges, tx) && (c in e.exchanges ==> LookupPending(tx, e.exchanges[c].mid, c.peer).None?)
    ensures Calm(e.(tx := tx), c)
  {
    if c in e.exchanges {
      NeverUnsent(e.(tx := tx), c);
    }
  }

  lemma StopGone(s: State, mid: nat, peer: Peer)
    requires TxOk(s.engine.exchanges, s.engine.tx)
    ensures LookupPending(StopPending(s, mid, peer).engine.tx, mid, peer).None?
  {
  }

  lemma GoneStays(s: State, mid: nat, peer: Peer, other: nat)
    requires LookupPending(s.engine.tx, mid, peer).None?
    ensures LookupPending(StopPending(s, other, peer).engine.tx, mid, peer).None?
  {
  }

  /** The delivery takes the mark of the call's own request, or drops its exchange. */
  predicate StopsOwn(s: State, cfg: Config, now: nat, c: Call, m: Message, env: Env) {
    if m.critical then m.kind.Ack?
    else if !Observe.Admissible(RecordOf(s, c), Notice(m, now), cfg.protected) then true
    else (m.kind.Con? ==> env.ackSent) && env.committed && (m.kind.Ack? || Accepts(s, cfg, now, c, m, env))
  }

  /** When a delivery to one call stops the request of another: the response is taken as an answer and
      carries that request's Message ID, or the two exchanges share theirs. */
  predicate DeliveryStops(s: State, cfg: Config, now: nat, c: Call, m: Message, env: Env, d: Call) {
    || (Accepts(s, cfg, now, c, m, env) && Marked(s.engine, d, m.mid, c.peer))
    || ((MatchesExchange(s.engine, c, m.kind, m.mid) || MatchesObserve(s.engine, c, m.kind))
        && StopsOwn(s, cfg, now, c, m, env) && Twins(s.engine, c, d))
  }

  /** What an accepted response finds when its body is looked at. */
  lemma ReadyEffects(cfg: Config, s: State, c: Call, m: Message, d: Call)
    requires Inv(cfg, s) && c != d
    requires MatchesExchange(s.engine, c, m.kind, m.mid) || MatchesObserve(s.engine, c, m.kind)
    ensures var via := MatchesExchange(s.engine, c, m.kind, m.mid);
            var mid := if via then s.engine.exchanges[c].mid else 0;
            var acked := if m.kind.Ack? && via then StopPending(s, mid, c.peer) else s;
            var stopped := if via then StopPending(acked, mid, c.peer) else acked;
            var ready := StopPending(stopped, m.mid, c.peer);
            && Effect(s.engine.tx, acked.engine.tx, d, m.kind.Ack? && Twins(s.engine, c, d))
            && Effect(s.engine.tx, ready.engine.tx, d, Twins(s.engine, c, d) || Marked(s.engine, d, m.mid, c.peer))
            && Calm(ready.engine, c)
  {
    hide InvRest, TxOk, StopPending, Effect, LookupPending, Unsent, Calm;
    var via := MatchesExchange(s.engine, c, m.kind, m.mid);
    var mid := if via then s.engine.exchanges[c].mid else 0;
    var acked := if m.kind.Ack? && via then StopPending(s, mid, c.peer) else s;
    var stopped := if via then StopPending(acked, mid, c.peer) else acked;
    var ready := StopPending(stopped, m.mid, c.peer);
    MatchedIsVia(s, c, m);
    StopIs(s, mid, c.peer);
    StopIs(acked, mid, c.peer);
    StopIs(stopped, m.mid, c.peer);
    KeptSame(s.engine.tx, d);
    if via {
      StopKeeps(cfg, s, mid, c.peer, None, c);
      StopKeeps(cfg, acked, mid, c.peer, None, c);
      StopEffect(s, mid, c.peer, d);
      StopEffect(acked, mid, c.peer, d);
      EffectThen(s.engine.tx, acked.engine.tx, stopped.engine.tx, d, m.kind.Ack? && Twins(s.engine, c, d), Twins(s.engine, c, d));
      StopGone(acked, mid, c.peer);
      GoneStays(stopped, mid, c.peer, m.mid);
    }
    StopKeeps(cfg, stopped, m.mid, c.peer, None, c);
    StopEffect(stopped, m.mid, c.peer, d);
    EffectThen(s.engine.tx, stopped.engine.tx, ready.engine.tx, d, Twins(s.engine, c, d), Marked(s.engine, d, m.mid, c.peer));
    ReadyCalm(s.engine, ready.engine.tx, c);
  }

  lemma MatchedIsVia(s: State, c: Call, m: Message)
    requires TxOk(s.engine.exchanges, s.engine.tx)
    requires MatchesExchange(s.engine, c, m.kind, m.mid) || MatchesObserve(s.engine, c, m.kind)
    ensures c in s.engine.exchanges <==> MatchesExchange(s.engine, c, m.kind, m.mid)
  {
    if c in s.engine.exchanges {
      NeverUnsent(s.engine, c);
    }
  }

  lemma CompleteEffects(cfg: Config, s: State, now: nat, c: Call, rx: Slot, m: Message, env: Env, d: Call)
    requires Inv(cfg, s) && c != d
    ensures Effect(s.engine.tx, Complete(s, cfg, now, c, rx, m, env).engine.tx, d, DeliveryStops(s, cfg, now, c, m, env, d))
  {
    hide InvRest, TxOk, StopPending, Effect, Answer, Fail, Unsent, Calm, Observe.Admissible, Observe.RecordFresh, Twins, Marked;
    var via := MatchesExchange(s.engine, c, m.kind, m.mid);
    KeptSame(s.engine.tx, d);
    if via || MatchesObserve(s.engine, c, m.kind) {
      var mid := if via then s.engine.exchanges[c].mid else 0;
      var acked := if m.kind.Ack? && via then StopPending(s, mid, c.peer) else s;
      var stopped := if via then StopPending(acked, mid, c.peer) else acked;
      var ready := StopPending(stopped, m.mid, c.peer);
      ReadyEffects(cfg, s, c, m, d);
      FailEffects(s, cfg, c, ObserveFormatMismatch, d);
      AnswerEffects(ready, cfg, now, c, rx, m, env, via, d);
      EffectThen(s.engine.tx, ready.engine.tx, Answer(ready, cfg, now, c, rx, m, env, via).engine.tx, d,
                 Twins(s.engine, c, d) || Marked(s.engine, d, m.mid, c.peer), false);
    }
  }

  // Every step.

  /** Exactly when a step that is not about the call stops its pending request. */
  ghost predicate Stops(cfg: Config, s: State, step: Step, d: Call) {
    match step
    case Deliver(now, c, _, m, env) => DeliveryStops(s, cfg, now, c, m, env, d)
    case Interrupted(now, c, _, m, failed) => failed && Refuses(s, cfg, now, c, m) && Twins(s.engine, c, d)
    case FailBy(c, _) => Twins(s.engine, c, d)
    case ResetBy(_, mid, peer) => Marked(s.engine, d, mid, peer)
    case GivenUp(_, slot, _) => d in s.engine.exchanges && s.engine.exchanges[d].tx == slot
    case Acknowledge(mid, peer) => Marked(s.engine, d, mid, peer)
    case Expired(_, due) => exists i :: 0 <= i < |due| && Twins(s.engine, due[i].0, d)
    case _ => false
  }

  lemma InterruptEffects(s: State, cfg: Config, now: nat, c: Call, rx: Slot, m: Message, failed: bool, d: Call)
    requires TxOk(s.engine.exchanges, s.engine.tx) && c in s.active && c != d
    ensures Effect(s.engine.tx, Interrupt(s, cfg, now, c, rx, m, failed).engine.tx, d,
                   failed && Refuses(s, cfg, now, c, m) && Twins(s.engine, c, d))
  {
    hide TxOk, Fail, Abandon, Held, Effect, Refuses, Twins;
    var at := if failed && Refuses(s, cfg, now, c, m) then Fail(s, cfg, c, ObserveFormatMismatch, true) else s;
    KeptSame(s.engine.tx, d);
    FailEffects(s, cfg, c, ObserveFormatMismatch, d);
    EndEffects(at, cfg, c, ContinuationFailed, d);
    var ended := Fail(Abandon(at, c), cfg, c, ContinuationFailed, true);
    EffectThen(s.engine.tx, at.engine.tx, ended.engine.tx, d, failed && Refuses(s, cfg, now, c, m) && Twins(s.engine, c, d), false);
    KeptSame(at.engine.tx, d);
    EffectThen(s.engine.tx, at.engine.tx, at.engine.tx, d, failed && Refuses(s, cfg, now, c, m) && Twins(s.engine, c, d), false);
  }

  lemma EndingEffects(cfg: Config, s: State, step: Step, d: Call)
    requires Inv(cfg, s) && Enabled(cfg, s, step) && (step.ResetBy? || step.GivenUp? || step.Acknowledge?)
    ensures Effect(s.engine.tx, Next(cfg, s, step).engine.tx, d, Stops(cfg, s, step, d))
  {
    hide InvRest, TxOk, Fail, StopPending, Effect, Marked, ResetTarget, ForTx, Enumerates;
    match step {
      case Acknowledge(mid, peer) => StopEffect(s, mid, peer, d);
      case ResetBy(order, mid, peer) =>
        var c := ResetTarget(order, s.engine, mid, peer);
        StopEffect(s, mid, peer, d);
        if c.Some? {
          FailTx(s, cfg, c.value, Reset, false);
          StoppedTx(s, Fail(s, cfg, c.value, Reset, false), mid, peer);
        }
      case GivenUp(order, slot, failure) =>
        var c := ForTx(order, s.engine, slot);
        ReleaseEffect(s.engine, slot, d);
        if c.Some? {
          FailTx(s, cfg, c.value, failure, false);
        }
    }
  }

  lemma {:induction false} FailDueEffects(cfg: Config, s: State, due: seq<(Call, Failure)>, d: Call)
    requires Inv(cfg, s) && !Listed(due, d) && forall i :: 0 <= i < |due| ==> due[i].0 in s.active
    ensures Effect(s.engine.tx, FailDue(s, cfg, due).engine.tx, d, exists i :: 0 <= i < |due| && Twins(s.engine, due[i].0, d))
    decreases |due|
  {
    hide InvBut, TxOk, Fail, Effect, Twins, FailDue, Listed;
    if due == [] {
      FailDueNone(cfg, s);
      KeptSame(s.engine.tx, d);
    } else {
      var c, rest := due[0].0, due[1..];
      var next := Fail(s, cfg, c, due[0].1, true);
      assert forall i :: 0 <= i < |rest| ==> rest[i] == due[i + 1];
      ListedRest(due, d);
      FailKeeps(cfg, s, c, due[0].1, None);
      FailIs(cfg, s, c, due[0].1, true, None);
      FailSame(cfg, s, c, due[0].1);
      FailDueNext(cfg, s, due);
      assert TxOk(s.engine.exchanges, s.engine.tx) by { InvTx(cfg, s); }
      FailEffects(s, cfg, c, due[0].1, d);
      FailDueEffects(cfg, next, rest, d);
      TwinsRest(s.engine, next.engine, due, d);
      EffectThen(s.engine.tx, next.engine.tx, FailDue(next, cfg, rest).engine.tx, d,
                 Twins(s.engine, c, d), exists i :: 0 <= i < |rest| && Twins(next.engine, rest[i].0, d));
    }
  }

  lemma InvTx(cfg: Config, s: State)
    requires Inv(cfg, s)
    ensures TxOk(s.engine.exchanges, s.engine.tx)
  {
  }

  lemma TwinsRest(e: Engine, next: Engine, due: seq<(Call, Failure)>, d: Call)
    requires due != [] && d != due[0].0 && next.exchanges == e.exchanges - {due[0].0}
    ensures (exists i :: 0 <= i < |due| && Twins(e, due[i].0, d)) <==>
              Twins(e, due[0].0, d) || exists i :: 0 <= i < |due[1..]| && Twins(next, due[1..][i].0, d)
  {
    var c, rest := due[0].0, due[1..];
    forall a
      ensures Twins(next, a, d) <==> a != c && Twins(e, a, d)
    {
    }
    if exists i :: 0 <= i < |due| && Twins(e, due[i].0, d) {
      var i :| 0 <= i < |due| && Twins(e, due[i].0, d);
      if due[i].0 != c {
        assert rest[i - 1] == due[i] && Twins(next, rest[i - 1].0, d);
      }
    }
    if exists i :: 0 <= i < |rest| && Twins(next, rest[i].0, d) {
      var i :| 0 <= i < |rest| && Twins(next, rest[i].0, d);
      assert due[i + 1] == rest[i] && Twins(e, due[i + 1].0, d);
    }
    assert Twins(e, c, d) ==> Twins(e, due[0].0, d);
  }

  lemma SlotEffects(cfg: Config, s: State, step: Step, d: Call)
    requires Enabled(cfg, s, step) && step.Elsewhere?
    ensures Effect(s.engine.tx, Next(cfg, s, step).engine.tx, d, false)
  {
  }

  lemma ExpiredEffects(cfg: Config, s: State, step: Step, d: Call)
    requires Inv(cfg, s) && Enabled(cfg, s, step) && step.Expired? && !Listed(step.due, d)
    ensures Effect(s.engine.tx, Next(cfg, s, step).engine.tx, d, Stops(cfg, s, step, d))
  {
    hide InvBut, FailDue, Effect, Twins, ExpireBackoffs, Listed;
    var s0 := ExpireBackoffs(s, step.now);
    ExpireTimes(s, step.now);
    TimesKeep(cfg, s, s0, None);
    DueActive(s0, step.now, step.due);
    FailDueEffects(cfg, s0, step.due, d);
  }

  lemma ReplaceEffects(cfg: Config, s: State, step: Step, d: Call)
    requires (step.Replacing? || step.ReplacingDropped?) && step.call != d
    ensures Effect(s.engine.tx, Next(cfg, s, step).engine.tx, d, false)
  {
    hide Fail, Effect, PlacePacket, PlaceUpload, ExpireBackoffs, DropDatagram, TxWithout;
    var c, now := step.call, step.now;
    var refreshing := if step.Replacing? then step.live.observe.Register? else step.refreshing;
    var failure := if refreshing then ReregistrationFailed else CancellationFailed;
    ExpireTimes(s, now);
    EndEffects(ExpireBackoffs(s, now), cfg, c, failure, d);
    var s1 := Displace(s, cfg, now, c, refreshing);
    if step.Replacing? {
      DatagramTx(s1, c);
      PlaceEffect(s1.engine.tx, c, step.sending.exchange, step.sending.timer, d);
    } else {
      AbandonEffect(s1.engine.tx, c, d);
    }
    EffectThen(s.engine.tx, s1.engine.tx, Next(cfg, s, step).engine.tx, d, false, false);
  }

  lemma CollectTx(s: State, c: Call)
    requires Contains(s, c)
    ensures Collect(s, c).engine.tx == s.engine.tx
  {
  }

  lemma TakeTx(cfg: Config, s: State, step: Step)
    requires step.Collected? || step.CollectedInto?
    ensures Next(cfg, s, step).engine.tx == s.engine.tx
  {
    hide Collect, DropDatagram;
    DatagramTx(s, step.call);
    if Contains(s, step.call) {
      CollectTx(s, step.call);
    }
  }

  lemma IdleEffects(cfg: Config, s: State, step: Step, d: Call)
    requires step.Admitting? || step.Refused? || step.ObserveEnded? || step.Attaching? || step.Received? || step.Released?
    requires step.Admitting? ==> step.call != d
    ensures Effect(s.engine.tx, Next(cfg, s, step).engine.tx, d, false)
  {
    hide Effect, ExpireBackoffs, PlacePacket, PlaceUpload;
    KeptSame(s.engine.tx, d);
    if step.Admitting? {
      ExpireTimes(s, step.now);
      PlaceEffect(s.engine.tx, step.call, step.sending.exchange, step.sending.timer, d);
    } else if step.Refused? {
      ExpireTimes(s, step.now);
    }
  }

  /** What each step does to the pending requests of calls it is not about. */
  lemma StepEffects(cfg: Config, s: State, step: Step, d: Call)
    requires Inv(cfg, s) && Enabled(cfg, s, step) && !step.Retransmitted?
    requires if step.Expired? then !Listed(step.due, d) else About(s, step) != Some(d)
    ensures Effect(s.engine.tx, Next(cfg, s, step).engine.tx, d, Stops(cfg, s, step, d))
  {
    hide InvBut, Fail, SendFollowup, Effect, Twins, Marked, Complete, DeliveryStops, Interrupt, Refuses, ExpireBackoffs, Loose, Quiet,
      OthersSlot, ResetTarget, ForTx, Recorded, PlacePacket, PlaceUpload, Transferring, Follows, Cools, LiveOk, Take, TakeInto, Enumerates;
    InvTx(cfg, s);
    KeptSame(s.engine.tx, d);
    match step {
      case Deliver(now, c, rx, m, env) => CompleteEffects(cfg, s, now, c, rx, m, env, d);
      case Interrupted(now, c, rx, m, failed) => InterruptEffects(s, cfg, now, c, rx, m, failed, d);
      case FailBy(c, failure) => FailEffects(s, cfg, c, failure, d);
      case ResetBy(_, _, _) => EndingEffects(cfg, s, step, d);
      case GivenUp(_, _, _) => EndingEffects(cfg, s, step, d);
      case Acknowledge(_, _) => EndingEffects(cfg, s, step, d);
      case Continued(c, f) => FollowupEffects(s, cfg, c, f, d);
      case UploadFailed(order, c, own, taken) => UploadEffects(cfg, s, step, d);
      case Collected(_, _) => TakeTx(cfg, s, step);
      case CollectedInto(_, _) => TakeTx(cfg, s, step);
      case Expired(_, _) => ExpiredEffects(cfg, s, step, d);
      case Admitting(_, _, _, _) => IdleEffects(cfg, s, step, d);
      case Replacing(_, _, _, _) => ReplaceEffects(cfg, s, step, d);
      case ReplacingDropped(_, _, _) => ReplaceEffects(cfg, s, step, d);
      case Elsewhere(_, _) => SlotEffects(cfg, s, step, d);
      case _ => IdleEffects(cfg, s, step, d);
    }
  }

  lemma UploadEffects(cfg: Config, s: State, step: Step, d: Call)
    requires step.UploadFailed? && step.call != d
    ensures Effect(s.engine.tx, Next(cfg, s, step).engine.tx, d, false)
  {
    hide SendFollowup, Effect, ForTx;
    var asked := Recorded(s, step.call, step.own, step.taken);
    var e := ForTx(step.order, asked.engine, step.own.tx);
    FollowupEffects(if e.Some? then TakeExchange(asked, e.value) else asked, cfg, step.call, NotSent, d);
  }

  lemma PacketAfter(e: Engine, after: Engine, d: Call, stops: bool)
    requires Effect(e.tx, after.tx, d, stops) && (d in after.exchanges <==> d in e.exchanges)
    requires d in e.exchanges ==> after.exchanges[d] == e.exchanges[d]
    ensures PacketOf(after, d) == if stops then None else PacketOf(e, d)
  {
  }

  /** A call whose exchange a failed upload takes has no request pending. */
  lemma RobbedHasNone(cfg: Config, s: State, step: Step, d: Call)
    requires Inv(cfg, s) && Enabled(cfg, s, step) && Robs(s, step) == Some(d)
    ensures PacketOf(s.engine, d).None? && PacketOf(Next(cfg, s, step).engine, d).None? && !Stops(cfg, s, step, d)
  {
    hide InvBut, Next, Loose, SameHoldings, ForTx;
    StepSound(cfg, s, step);
    ForTxFound(step.order, Recorded(s, step.call, step.own, step.taken).engine, step.own.tx);
  }

  /** A call's pending request is stopped by a step that is not about the call exactly when `Stops` says
      so, and is otherwise as it was. */
  lemma PacketStopsIff(cfg: Config, s: State, step: Step, d: Call)
    requires Inv(cfg, s) && Enabled(cfg, s, step) && !step.Retransmitted?
    requires if step.Expired? then !Listed(step.due, d) else About(s, step) != Some(d)
    ensures PacketOf(Next(cfg, s, step).engine, d) == if Stops(cfg, s, step, d) then None else PacketOf(s.engine, d)
  {
    hide InvBut, Next, Enabled, Stops, Effect, Loose, SameHoldings, Listed, PacketOf, Robs;
    StepSound(cfg, s, step);
    if Robs(s, step) == Some(d) {
      RobbedHasNone(cfg, s, step, d);
      return;
    }
    StepEffects(cfg, s, step, d);
    assert SameFor(s, Next(cfg, s, step), d);
    PacketAfter(s.engine, Next(cfg, s, step).engine, d, Stops(cfg, s, step, d));
  }

  /** With no other exchange under its Message ID, a pending request is stopped by a step about something
      else only if that step is an ACK, a Reset or the end of the retransmissions of this very packet, or
      a response to another call that carries the packet's Message ID. */
  lemma StoppedBy(cfg: Config, s: State, step: Step, d: Call)
    requires forall c :: !Twins(s.engine, c, d)
    ensures Stops(cfg, s, step, d) <==>
              || ((step.Acknowledge? || step.ResetBy?) && Marked(s.engine, d, step.mid, step.peer))
              || (step.GivenUp? && d in s.engine.exchanges && s.engine.exchanges[d].tx == step.slot)
              || (step.Deliver? && Accepts(s, cfg, step.now, step.call, step.message, step.env)
                  && Marked(s.engine, d, step.message.mid, step.call.peer))
  {
    hide Twins, Accepts, StopsOwn;
  }

  lemma RetransmittedKeeps(cfg: Config, s: State, step: Step, d: Call)
    requires step.Retransmitted?
    ensures PacketOf(Next(cfg, s, step).engine, d).Some? <==> PacketOf(s.engine, d).Some?
  {
  }

  /** Over every run of steps about other things, a pending request goes on being pending if and only if
      none of them stops it. */
  lemma {:induction false} PendingIff(cfg: Config, s: State, steps: seq<Step>, d: Call, i: nat)
    requires Inv(cfg, s) && Runs(cfg, s, steps) && i <= |steps|
    requires forall k :: 0 <= k < i ==>
               if steps[k].Expired? then !Listed(steps[k].due, d) else About(After(cfg, s, steps[..k]), steps[k]) != Some(d)
    ensures PacketOf(After(cfg, s, steps[..i]).engine, d).Some? <==>
              PacketOf(s.engine, d).Some? && forall k :: 0 <= k < i ==> !Stops(cfg, After(cfg, s, steps[..k]), steps[k], d)
    decreases i
  {
    hide Inv, Next, Enabled, After, Stops, PacketOf, About, Listed;
    if i == 0 {
      AfterNone(cfg, s, steps);
    } else {
      var at, step := After(cfg, s, steps[..i - 1]), steps[i - 1];
      PendingIff(cfg, s, steps, d, i - 1);
      RunKeeps(cfg, s, steps, i - 1);
      AfterNext(cfg, s, steps, i - 1);
      assert PacketOf(Next(cfg, at, step).engine, d).Some? <==> PacketOf(at.engine, d).Some? && !Stops(cfg, at, step, d) by {
        OnePending(cfg, at, step, d);
      }
    }
  }

  lemma OnePending(cfg: Config, s: State, step: Step, d: Call)
    requires Inv(cfg, s) && Enabled(cfg, s, step)
    requires if step.Expired? then !Listed(step.due, d) else About(s, step) != Some(d)
    ensures PacketOf(Next(cfg, s, step).engine, d).Some? <==> PacketOf(s.engine, d).Some? && !Stops(cfg, s, step, d)
  {
    hide Inv, Next, Enabled, PacketOf, About, Listed;
    if step.Retransmitted? {
      RetransmittedKeeps(cfg, s, step, d);
    } else {
      PacketStopsIff(cfg, s, step, d);
    }
  }
}
