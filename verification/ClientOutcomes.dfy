/**
 What a call's row says: what each delivery leaves there, that a response in blocks is reported with the
 header it began with, what collection hands out, and what the clock ends a call with.
 */
module ClientOutcomes {
  import opened Common
  import opened Engines
  import opened ClientModel
  import opened ClientInvariant
  import opened ClientSteps
  import opened ClientDelivery
  import opened ClientAdmission
  import opened ClientRuns
  import opened ClientProgress
  import Authority
  import ClientEndings
  import Observe

  // What a delivery leaves.

  /** What becomes of the call's row: nothing, a failure, the beginning of a response, or the whole of it
      with its body or its packet. */
  datatype Verdict =
    | Unchanged
    | Fails(failure: Failure)
    | Part(meta: Meta, body: Slot)
    | Whole(meta: Meta, assembled: Option<Slot>, packet: Option<Slot>)

  /** The call's row is the beginning of a response assembled in this slot. */
  predicate Begun(s: State, c: Call, slot: Slot) {
    c in s.inbox && !s.inbox[c].complete && s.inbox[c].body == Some(slot) && s.inbox[c].meta.Ok?
  }

  /** What is kept of a response's header: its Observe value, whether it is a success, and when it came. */
  function Reports(m: Message, now: nat): Meta {
    Meta(Header(m.observe, IsSuccess(m)), now)
  }

  lemma ReportsIs(m: Message, now: nat)
    ensures Reports(m, now) == Meta(HeaderOf(m), now)
  {
  }

  /** A response in blocks is described by its first fragment. */
  function Described(s: State, now: nat, c: Call, slot: Slot, m: Message): Meta {
    if Begun(s, c, slot) then s.inbox[c].meta.value else Reports(m, now)
  }

  /** A response in one packet. */
  function PacketVerdict(s: State, cfg: Config, now: nat, c: Call, rx: Slot, m: Message): Verdict {
    if cfg.full && SatSub(cfg.rxSlots, |s.engine.rx|) < 1 && !(c in s.inbox && s.inbox[c].datagram.Some?) then Fails(PacketHeadroom)
    else Whole(Reports(m, now), None, if cfg.full then Some(rx) else None)
  }

  /** One block of a response; a follow-up that cannot be sent fails the call. */
  function BlockVerdict(s: State, cfg: Config, now: nat, c: Call, m: Message, env: Env): Verdict {
    match env.apply
    case Ignored => Unchanged
    case Broken(error) => Fails(BlockTransfer(error))
    case Progress(slot, complete) =>
      if !Assembles(s.engine.bodies, slot, c) then Unchanged
      else if complete && env.tooLarge && !cfg.full then Fails(ResponseBodyBounds)
      else if complete then Whole(Described(s, now, c, slot, m), Some(slot), None)
      else if AsksOn(s, c, m, env) && env.followup.NotSent? then Fails(ContinuationFailed)
      else Part(Described(s, now, c, slot, m), slot)
  }

  /** The server asks for more of an upload under way: the next block, or missing ones of an upload whose
      blocks it need not confirm. */
  predicate AsksForMore(s: State, c: Call, m: Message, env: Env) {
    && c in s.active && Some(Upload(c, s.active[c].tag)) in s.engine.uploads
    && (m.code.Continue? || (m.code.Incomplete? && m.missing && env.qUpload && !s.active[c].con))
  }

  lemma CarriesOnIff(s: State, c: Call, m: Message, env: Env)
    requires c in s.active
    ensures CarriesOn(s, c, m, env) <==> AsksForMore(s, c, m, env)
  {
  }

  function VerdictOf(s: State, cfg: Config, now: nat, c: Call, rx: Slot, m: Message, env: Env): Verdict {
    if Refuses(s, cfg, now, c, m) then Fails(ObserveFormatMismatch)
    else if !Accepts(s, cfg, now, c, m, env) then Unchanged
    else if AsksForMore(s, c, m, env) then (if env.followup.NotSent? then Fails(ContinuationFailed) else Unchanged)
    else if env.meta.Some? then Fails(env.meta.value)
    else if m.block.Plain? || m.code.Overloaded? then PacketVerdict(s, cfg, now, c, rx, m)
    else BlockVerdict(s, cfg, now, c, m, env)
  }

  /** The interest after a whole response: a subscription goes on exactly if the response says so and the
      table has it or has room for it. */
  predicate Interested(s: State, c: Call, header: Header, room: bool) {
    && c in s.active && !s.active[c].observe.Deregister?
    && (s.active[c].observe.Register? || c in s.engine.observes)
    && header.observe.Some? && header.success && (room || c in s.engine.observes)
  }

  predicate Shows(s: State, after: State, c: Call, v: Verdict, room: bool) {
    match v
    case Unchanged =>
      && (c in after.inbox <==> c in s.inbox) && (c in s.inbox ==> after.inbox[c] == s.inbox[c])
      && (c in after.engine.observes <==> c in s.engine.observes)
    case Fails(failure) => c in after.inbox && after.inbox[c] == Reply(true, Err(failure), None, None) && c !in after.engine.observes
    case Part(meta, body) =>
      && c in after.inbox && after.inbox[c] == Reply(false, Ok(meta), Some(body), None)
      && (c in after.engine.observes <==> c in s.engine.observes)
    case Whole(meta, body, packet) =>
      && c in after.inbox && after.inbox[c] == Reply(true, Ok(meta), body, packet)
      && (c in after.engine.observes <==> Interested(s, c, meta.header, room))
  }

  /** The row and the interest are all a verdict looks at. */
  lemma ShowsFrom(s: State, mid: State, after: State, c: Call, v: Verdict, room: bool)
    requires c in s.active && c in mid.active && mid.active[c].observe == s.active[c].observe
    requires mid.inbox == s.inbox && mid.engine.observes == s.engine.observes && Shows(mid, after, c, v, room)
    ensures Shows(s, after, c, v, room)
  {
  }

  lemma ShowsReleased(s: State, after: State, rx: Slot, c: Call, v: Verdict, room: bool)
    requires Shows(s, after, c, v, room)
    ensures Shows(s, ReleasePacket(after, rx), c, v, room)
  {
  }

  lemma FailShows(cfg: Config, s: State, at: State, c: Call, failure: Failure, rx: Slot, hole: Hole, room: bool)
    requires InvBut(cfg, at, hole) && c in at.active
    ensures Shows(s, ReleasePacket(Fail(at, cfg, c, failure, true), rx), c, Fails(failure), room)
  {
    hide InvBut, Fail;
    FailIs(cfg, at, c, failure, true, hole);
  }

  lemma AcceptShows(s: State, c: Call, header: Header, via: bool, room: bool)
    requires c in s.active
    ensures c in AcceptObserve(s, c, header, via, room).engine.observes <==> Interested(s, c, header, room)
  {
  }

  /** The whole response is there. */
  lemma StoreShows(cfg: Config, s: State, c: Call, via: bool, room: bool, meta: Meta, body: Option<Slot>)
    requires InvBut(cfg, s, if body.None? then None else Some((c, body.value)))
    requires Answerable(s, c) && !Uploading(s.engine.uploads, c) && Quiet(s.engine.tx, c)
    ensures Shows(s, StoreReply(TakeExchange(AcceptObserve(s, c, meta.header, via, room), c), cfg, c, meta, body), c,
                  Whole(meta, body, None), room)
  {
    hide InvBut, StoreReply, AcceptObserve, Uploading, Tame, Loose, Quiet, Interested;
    var hole := if body.None? then None else Some((c, body.value));
    var s1 := AcceptObserve(s, c, meta.header, via, room);
    AcceptKeeps(cfg, s, c, meta.header, via, room, hole);
    AcceptIs(s, c, meta.header, via, room);
    AcceptShows(s, c, meta.header, via, room);
    var s2 := TakeExchange(s1, c);
    TakeExchangeKeeps(cfg, s1, c, hole);
    StoreKeeps(cfg, s2, c, meta, body);
    StoreLinks(s2, cfg, c, meta, body);
  }

  lemma StoreLinks(s: State, cfg: Config, c: Call, meta: Meta, body: Option<Slot>)
    ensures StoreReply(s, cfg, c, meta, body).engine.observes == s.engine.observes
  {
    hide DropDatagram, PutReply;
    DatagramIs(s, c);
    PutLinks(DropDatagram(s, c), cfg, c, Reply(true, Ok(meta), body, None));
  }

  lemma KeepShows(cfg: Config, s: State, now: nat, c: Call, rx: Slot, m: Message, env: Env, via: bool)
    requires Inv(cfg, s) && Answerable(s, c) && !Uploading(s.engine.uploads, c) && Quiet(s.engine.tx, c)
    ensures Shows(s, Keep(s, cfg, now, c, rx, m, env, via), c, PacketVerdict(s, cfg, now, c, rx, m), env.room)
  {
    hide InvBut, Fail, Uploading, AcceptObserve, StoreReply, RecordObservation, Observe.Recorded, Quiet, TakeExchange, Notice, Interested;
    FailShows(cfg, s, s, c, PacketHeadroom, rx, None, env.room);
    var n, meta := Notice(m, now), Reports(m, now);
    var s0 := RecordObservation(s, c, n);
    ObservationTimes(s, c, n);
    TimesKeep(cfg, s, s0, None);
    StoreShows(cfg, s0, c, via, env.room, meta, None);
    SameInterest(s, s0, c, meta.header, env.room);
  }

  lemma SameInterest(s: State, mid: State, c: Call, header: Header, room: bool)
    requires SameButTimes(s, mid) && c in s.active
    ensures Interested(mid, c, header, room) <==> Interested(s, c, header, room)
  {
  }

  lemma FinishShows(cfg: Config, s: State, now: nat, c: Call, slot: Slot, m: Message, env: Env, via: bool)
    requires InvBut(cfg, s, Some((c, slot))) && Answerable(s, c) && !Uploading(s.engine.uploads, c) && Quiet(s.engine.tx, c)
    ensures var v := if env.tooLarge && !cfg.full then Fails(ResponseBodyBounds) else Whole(Described(s, now, c, slot, m), Some(slot), None);
            Shows(s, Finish(s, cfg, c, slot, Reports(m, now), env, via), c, v, env.room)
  {
    hide InvBut, Fail, StoreReply, AcceptObserve, Uploading, Quiet, Interested, TakeExchange;
    if !cfg.full && env.tooLarge {
      FailIs(cfg, s, c, ResponseBodyBounds, true, Some((c, slot)));
    } else {
      StoreShows(cfg, s, c, via, env.room, Described(s, now, c, slot, m), Some(slot));
    }
  }

  lemma PartialShows(cfg: Config, s: State, now: nat, c: Call, slot: Slot, m: Message)
    requires InvBut(cfg, s, Some((c, slot))) && Answerable(s, c)
    ensures var after := RetainPartial(DropDatagram(s, c), cfg, c, Reports(m, now), slot);
            forall room :: Shows(s, after, c, Part(Described(s, now, c, slot, m), slot), room)
  {
    hide InvBut, DropDatagram, PutReply, Tame;
    var hole, meta := Some((c, slot)), Reports(m, now);
    var mid := DropDatagram(s, c);
    DatagramKeeps(cfg, s, c, hole);
    DatagramIs(s, c);
    PartialRow(cfg, mid, c, hole);
    PartialRow(cfg, s, c, hole);
    if !Begun(mid, c, slot) {
      PutKeeps(cfg, mid, c, Reply(false, Ok(meta), Some(slot), None), hole);
    }
  }

  lemma PartialRow(cfg: Config, s: State, c: Call, hole: Hole)
    requires InvBut(cfg, s, hole)
    ensures c in s.inbox && !s.inbox[c].complete ==> s.inbox[c].meta.Ok? && s.inbox[c].datagram.None?
  {
  }

  lemma FollowupShows(cfg: Config, s: State, c: Call, f: Followup, room: bool)
    requires Inv(cfg, s) && c in s.active
    ensures Shows(s, SendFollowup(s, cfg, c, f), c, if f.NotSent? then Fails(ContinuationFailed) else Unchanged, room)
  {
    hide InvBut, Fail, AbandonSend, PlacePacket, PlaceUpload;
    if f.NotSent? {
      AbandonKeeps(cfg, s, c, None);
      FailIs(cfg, Abandon(s, c), c, ContinuationFailed, true, None);
    }
  }

  /** One verdict after another: a failed follow-up is what counts, one that was sent changes nothing. */
  lemma ShowsThen(s: State, mid: State, after: State, c: Call, part: Verdict, f: Followup, room: bool)
    requires part.Part? && Shows(s, mid, c, part, room)
    requires Shows(mid, after, c, if f.NotSent? then Fails(ContinuationFailed) else Unchanged, room)
    ensures Shows(s, after, c, if f.NotSent? then Fails(ContinuationFailed) else part, room)
  {
  }

  lemma AssembleShows(cfg: Config, s: State, now: nat, c: Call, rx: Slot, m: Message, env: Env, via: bool)
    requires Inv(cfg, s) && Answerable(s, c) && !Uploading(s.engine.uploads, c) && Quiet(s.engine.tx, c)
    ensures Shows(s, Assemble(s, cfg, now, c, rx, m, env, via), c, BlockVerdict(s, cfg, now, c, m, env), env.room)
  {
    hide InvBut, Fail, Uploading, Finish, RetainPartial, DropDatagram, SendFollowup, RecordObservation, Observe.Recorded, Quiet, Tame,
      Shows, Notice, Reports, HeaderOf, ReleasePacket;
    ReportsIs(m, now);
    if env.apply.Broken? {
      FailShows(cfg, s, s, c, BlockTransfer(env.apply.error), rx, None, env.room);
    } else if env.apply.Ignored? || !Assembles(s.engine.bodies, env.apply.slot, c) {
      StillShows(s, rx, c, env.room);
    } else {
      var slot := env.apply.slot;
      var s0 := Admitted(s, c, slot, m.block.QBlock2?);
      var s1 := RecordObservation(s0, c, Notice(m, now));
      AdmittedKeeps(cfg, s, c, slot, m.block.QBlock2?);
      ObservationTimes(s0, c, Notice(m, now));
      TimesKeep(cfg, s0, s1, Some((c, slot)));
      assert Described(s1, now, c, slot, m) == Described(s, now, c, slot, m);
      AssembledShows(cfg, s1, now, c, rx, slot, m, env, via);
      ShowsFrom(s, s1, Assemble(s, cfg, now, c, rx, m, env, via), c, BlockVerdict(s, cfg, now, c, m, env), env.room);
    }
  }

  lemma StillShows(s: State, rx: Slot, c: Call, room: bool)
    ensures Shows(s, ReleasePacket(s, rx), c, Unchanged, room)
  {
  }

  /** A block applied in its slot: the last one, one that asks on, and one that does not. */
  lemma AssembledShows(cfg: Config, s: State, now: nat, c: Call, rx: Slot, slot: Slot, m: Message, env: Env, via: bool)
    requires InvBut(cfg, s, Some((c, slot))) && Answerable(s, c) && !Uploading(s.engine.uploads, c) && Quiet(s.engine.tx, c)
    ensures var meta := Reports(m, now);
            var first := Described(s, now, c, slot, m);
            var s2 := RetainPartial(DropDatagram(s, c), cfg, c, meta, slot);
            var more := SendFollowup(TakeExchange(s2, c), cfg, c, env.followup);
            && Shows(s, ReleasePacket(Finish(s, cfg, c, slot, meta, env, via), rx), c,
                     if env.tooLarge && !cfg.full then Fails(ResponseBodyBounds) else Whole(first, Some(slot), None), env.room)
            && c in s2.inbox && Shows(s, ReleasePacket(s2, rx), c, Part(first, slot), env.room)
            && Shows(s, ReleasePacket(more, rx), c, if env.followup.NotSent? then Fails(ContinuationFailed) else Part(first, slot), env.room)
  {
    hide InvBut, Fail, Uploading, Finish, RetainPartial, DropDatagram, SendFollowup, Quiet, Tame, Shows, Described, ReleasePacket;
    var meta := Reports(m, now);
    var first := Described(s, now, c, slot, m);
    FinishShows(cfg, s, now, c, slot, m, env, via);
    ShowsReleased(s, Finish(s, cfg, c, slot, meta, env, via), rx, c,
                  if env.tooLarge && !cfg.full then Fails(ResponseBodyBounds) else Whole(first, Some(slot), None), env.room);
    PartialKeeps(cfg, s, c, slot, meta);
    PartialShows(cfg, s, now, c, slot, m);
    var s2 := RetainPartial(DropDatagram(s, c), cfg, c, meta, slot);
    ShowsReleased(s, s2, rx, c, Part(first, slot), env.room);
    var s3 := TakeExchange(s2, c);
    TakeExchangeKeeps(cfg, s2, c, None);
    FollowupShows(cfg, s3, c, env.followup, env.room);
    var more := SendFollowup(s3, cfg, c, env.followup);
    TakenShows(s, s2, c, Part(first, slot), env.room);
    ShowsThen(s, s3, more, c, Part(first, slot), env.followup, env.room);
    ShowsReleased(s, more, rx, c, if env.followup.NotSent? then Fails(ContinuationFailed) else Part(first, slot), env.room);
  }

  lemma TakenShows(s: State, after: State, c: Call, v: Verdict, room: bool)
    requires Shows(s, after, c, v, room)
    ensures Shows(s, TakeExchange(after, c), c, v, room)
  {
  }

  lemma AnswerShows(cfg: Config, s: State, now: nat, c: Call, rx: Slot, m: Message, env: Env, via: bool)
    requires Inv(cfg, s) && Answerable(s, c) && Quiet(s.engine.tx, c)
    ensures var v := if CarriesOn(s, c, m, env) then (if env.followup.NotSent? then Fails(ContinuationFailed) else Unchanged)
                     else if env.meta.Some? then Fails(env.meta.value)
                     else if m.block.Plain? || m.code.Overloaded? then PacketVerdict(s, cfg, now, c, rx, m)
                     else BlockVerdict(s, cfg, now, c, m, env);
            Shows(s, Answer(s, cfg, now, c, rx, m, env, via), c, v, env.room)
  {
    hide InvBut, Uploading, Assemble, Keep, RecordBackoff, SendFollowup, DropUpload, Fail, LookupUpload, Quiet, Shows, BlockVerdict, PacketVerdict,
      ReleasePacket, CarriesOn;
    if CarriesOn(s, c, m, env) {
      FollowupShows(cfg, s, c, env.followup, env.room);
      ShowsReleased(s, SendFollowup(s, cfg, c, env.followup), rx, c,
                    if env.followup.NotSent? then Fails(ContinuationFailed) else Unchanged, env.room);
    } else {
      var s1 := DropUpload(s, c);
      DropUploadKeeps(cfg, s, c, None);
      DropUploadOnly(s, c);
      if env.meta.Some? {
        FailShows(cfg, s, s1, c, env.meta.value, rx, None, env.room);
      } else {
        var s2 := RecordBackoff(s1, c, m, now);
        BackoffTimes(s1, c, m, now);
        TimesKeep(cfg, s1, s2, None);
        SameVerdicts(s, s2, cfg, now, c, rx, m, env);
        AssembleShows(cfg, s2, now, c, rx, m, env, via);
        KeepShows(cfg, s2, now, c, rx, m, env, via);
        var after := Answer(s, cfg, now, c, rx, m, env, via);
        ShowsFrom(s, s2, after, c, if m.block.Plain? || m.code.Overloaded? then PacketVerdict(s, cfg, now, c, rx, m)
                                   else BlockVerdict(s, cfg, now, c, m, env), env.room);
      }
    }
  }

  lemma SameVerdicts(s: State, t: State, cfg: Config, now: nat, c: Call, rx: Slot, m: Message, env: Env)
    requires t.inbox == s.inbox && t.engine.rx == s.engine.rx && t.engine.bodies == s.engine.bodies
    ensures PacketVerdict(t, cfg, now, c, rx, m) == PacketVerdict(s, cfg, now, c, rx, m)
    ensures BlockVerdict(t, cfg, now, c, m, env) == BlockVerdict(s, cfg, now, c, m, env)
  {
  }

  lemma SameCarriesOn(s: State, tx: seq<Option<Packet>>, c: Call, m: Message, env: Env)
    ensures CarriesOn(WithTx(s, tx), c, m, env) == CarriesOn(s, c, m, env)
  {
  }

  /** What a delivery leaves in the call's row, and of its interest: exactly what the verdict says. */
  lemma DeliveryShows(cfg: Config, s: State, now: nat, c: Call, rx: Slot, m: Message, env: Env)
    requires Inv(cfg, s)
    ensures Shows(s, Complete(s, cfg, now, c, rx, m, env), c, VerdictOf(s, cfg, now, c, rx, m, env), env.room)
  {
    hide InvBut, Answer, Fail, StopPending, Observe.Admissible, Observe.RecordFresh, Unsent, Quiet, Tame, Shows, BlockVerdict, PacketVerdict,
      CarriesOn, AsksForMore, ReleasePacket;
    var via := MatchesExchange(s.engine, c, m.kind, m.mid);
    StillShows(s, rx, c, env.room);
    if via || MatchesObserve(s.engine, c, m.kind) {
      var mid := if via then s.engine.exchanges[c].mid else 0;
      var acked := if m.kind.Ack? && via then StopPending(s, mid, c.peer) else s;
      var stopped := if via then StopPending(acked, mid, c.peer) else acked;
      var ready := StopPending(stopped, m.mid, c.peer);
      ReadyKeeps(cfg, s, c, m);
      StopIs(s, mid, c.peer);
      TargetedIsAnswerable(cfg, s, c);
      FailShows(cfg, s, s, c, ObserveFormatMismatch, rx, None, env.room);
      AckedShows(s, acked, rx, c, env.room);
      AnswerShows(cfg, ready, now, c, rx, m, env, via);
      assert ready == WithTx(s, ready.engine.tx);
      SameCarriesOn(s, ready.engine.tx, c, m, env);
      CarriesOnIff(s, c, m, env);
      SameVerdicts(s, ready, cfg, now, c, rx, m, env);
      if Accepts(s, cfg, now, c, m, env) {
        ShowsFrom(s, ready, Answer(ready, cfg, now, c, rx, m, env, via), c, VerdictOf(s, cfg, now, c, rx, m, env), env.room);
      }
    }
  }

  lemma AckedShows(s: State, acked: State, rx: Slot, c: Call, room: bool)
    requires acked.inbox == s.inbox && acked.engine.observes == s.engine.observes
    ensures Shows(s, ReleasePacket(acked, rx), c, Unchanged, room)
  {
  }

  // A response in blocks.

  /** However many blocks follow, what is kept of a response is the header it began with; and when it is
      whole, whether the subscription goes on depends on that header alone. */
  lemma FirstFragmentDescribes(cfg: Config, s: State, now: nat, c: Call, rx: Slot, m: Message, env: Env, slot: Slot, first: Meta)
    requires Inv(cfg, s) && c in s.inbox && s.inbox[c] == Reply(false, Ok(first), Some(slot), None)
    ensures var after := Complete(s, cfg, now, c, rx, m, env);
            c in after.inbox && after.inbox[c].body == Some(slot) ==>
              && after.inbox[c].meta == Ok(first) && after.inbox[c].datagram.None? && c in s.active
              && (!after.inbox[c].complete ==> (c in after.engine.observes <==> c in s.engine.observes))
              && (after.inbox[c].complete ==>
                    (c in after.engine.observes <==>
                       && !s.active[c].observe.Deregister? && (s.active[c].observe.Register? || c in s.engine.observes)
                       && first.header.observe.Some? && first.header.success && (env.room || c in s.engine.observes)))
  {
    hide InvBut, Complete, Observe.Admissible, Observe.Accepted, CarriesOn, AsksForMore, MatchesExchange;
    DeliveryShows(cfg, s, now, c, rx, m, env);
    RowsActive(cfg, s, c);
  }

  lemma RowsActive(cfg: Config, s: State, c: Call)
    requires Inv(cfg, s) && c in s.inbox
    ensures c in s.active
  {
    hide Packets, Bodies, Uploads, Lives, TxOk, Credited, Sizes, Rows;
    assert c in s.inbox.Keys;
  }

  /** Only a delivery to the call puts a response into its row. */
  lemma OnlyDeliveryStores(cfg: Config, s: State, step: Step, c: Call)
    requires Inv(cfg, s) && Enabled(cfg, s, step) && !(step.Deliver? && step.call == c)
    ensures var after := Next(cfg, s, step);
            c in after.inbox && after.inbox[c].meta.Ok? ==> c in s.inbox && after.inbox[c] == s.inbox[c]
  {
    hide InvBut, Next, Enabled, Loose, SameHoldings, Listed, Authority.ResetTarget, Authority.ForTx, Authority.Recorded;
    if step.Expired? && Listed(step.due, c) {
      ExpiredAttends(cfg, s, step, c);
    } else if Robs(s, step) == Some(c) {
      StepSound(cfg, s, step);
    } else if About(s, step) == Some(c) {
      OwnStores(cfg, s, step, c);
    } else {
      StepSound(cfg, s, step);
      assert SameFor(s, Next(cfg, s, step), c);
    }
  }

  lemma OwnStores(cfg: Config, s: State, step: Step, c: Call)
    requires Inv(cfg, s) && Enabled(cfg, s, step) && !step.Deliver? && !step.Expired? && About(s, step) == Some(c)
    ensures var after := Next(cfg, s, step);
            c in after.inbox && after.inbox[c].meta.Ok? ==> c in s.inbox && after.inbox[c] == s.inbox[c]
  {
    hide InvBut, Next, Enabled, Authority.ResetTarget, Authority.ForTx, Authority.Recorded;
    match step {
      case Continued(_, f) => ContinuedStores(cfg, s, step, c);
      case ObserveEnded(_) => EndedRow(cfg, s, step);
      case Collected(_, _) => TakenRow(cfg, s, step, c);
      case CollectedInto(_, _) => TakenRow(cfg, s, step, c);
      case Admitting(_, _, _, _) => LaunchedRow(cfg, s, step, c);
      case Replacing(_, _, _, _) => LaunchedRow(cfg, s, step, c);
      case _ => EndedAttends(cfg, s, step, c);
    }
  }

  lemma ContinuedStores(cfg: Config, s: State, step: Step, c: Call)
    requires Inv(cfg, s) && Enabled(cfg, s, step) && step.Continued? && step.call == c
    ensures var after := Next(cfg, s, step);
            c in after.inbox && after.inbox[c].meta.Ok? ==> c in s.inbox && after.inbox[c] == s.inbox[c]
  {
    hide InvBut, SendFollowup, Follows, Uploading;
    FollowupShows(cfg, s, c, step.followup, false);
  }

  lemma EndedRow(cfg: Config, s: State, step: Step)
    requires step.ObserveEnded?
    ensures Next(cfg, s, step).inbox == s.inbox
  {
  }

  lemma TakenRow(cfg: Config, s: State, step: Step, c: Call)
    requires Inv(cfg, s) && (step.Collected? || step.CollectedInto?) && step.call == c
    ensures var after := Next(cfg, s, step);
            if Handed(s, step, c).Some? then c !in after.inbox
            else (c in after.inbox <==> c in s.inbox) && (c in s.inbox ==> after.inbox[c] == s.inbox[c])
  {
    hide InvBut, Collect;
    PartialRow(cfg, s, c, None);
    if Contains(s, c) {
      CollectedGone(s, c);
    } else {
      DatagramIs(s, c);
    }
  }

  lemma CollectedGone(s: State, c: Call)
    requires Contains(s, c)
    ensures c !in Collect(s, c).inbox
  {
  }

  lemma LaunchedRow(cfg: Config, s: State, step: Step, c: Call)
    requires (step.Admitting? || step.Replacing?) && step.call == c
    ensures c !in Next(cfg, s, step).inbox
  {
    hide Displace, DropDatagram, ExpireBackoffs, PlacePacket, PlaceUpload;
  }

  /** The request is in the table with its exchange and binding, the packet that stays pending is its own, and
      nothing of an earlier request of the call is left. */
  ghost predicate Launched(after: State, c: Call, live: Live, x: Sending) {
    && c in after.active && after.active[c] == live && c !in after.inbox && c !in after.engine.observes
    && c in after.engine.exchanges && after.engine.exchanges[c] == x.exchange
    && (c in after.engine.bindings <==> x.bound)
    && (forall i :: 0 <= i < |after.engine.tx| && Mine(after.engine.tx[i], c) ==>
          && i == x.exchange.tx && x.timer.Some?
          && after.engine.tx[i] == Some(Packet(c.peer, c.token, true, Some(Pending(x.exchange.mid, x.timer.value)))))
  }

  lemma LaunchLeaves(s: State, c: Call, live: Live, x: Sending)
    requires Quiet(s.engine.tx, c) && c !in s.engine.observes && c !in s.engine.bindings
    ensures Launched(Launch(s, c, live, x), c, live, x)
  {
    hide PlaceUpload;
  }

  /** What is launched is what was asked for, whether the call is new or replaces a subscription's request. */
  lemma LaunchedIs(cfg: Config, s: State, step: Step, c: Call)
    requires Inv(cfg, s) && Enabled(cfg, s, step) && (step.Admitting? || step.Replacing?) && step.call == c
    ensures Launched(Next(cfg, s, step), c, step.live, step.sending)
  {
    hide Launched, Launch, Displace, ExpireBackoffs, Quiet, Inv, Cools, LiveOk, DropDatagram, Credits;
    if step.Admitting? {
      AgedIs(s, step.now);
      FreshIsUnknown(cfg, s, c);
      LaunchLeaves(ExpireBackoffs(s, step.now), c, step.live, step.sending);
    } else {
      AgedIs(s, step.now);
      DisplacedLeaves(cfg, s, step.now, c, step.live.observe.Register?);
      LaunchLeaves(DropDatagram(Displace(s, cfg, step.now, c, step.live.observe.Register?), c), c, step.live, step.sending);
    }
  }

  lemma DisplacedLeaves(cfg: Config, s: State, now: nat, c: Call, refreshing: bool)
    requires Inv(cfg, s) && c in s.active
    ensures var e := DropDatagram(Displace(s, cfg, now, c, refreshing), c).engine;
            Quiet(e.tx, c) && c !in e.observes && c !in e.bindings
  {
    hide Displace, Inv, Quiet, Tame, Uploading;
    DisplaceKeeps(cfg, s, now, c, refreshing);
  }

  lemma AgedIs(s: State, now: nat)
    ensures ExpireBackoffs(s, now).engine == s.engine && ExpireBackoffs(s, now).active.Keys == s.active.Keys
  {
  }

  /** The row of a response that begins is described by the message that begins it. */
  lemma Begins(cfg: Config, s: State, step: Step, c: Call, slot: Slot)
    requires Inv(cfg, s) && Enabled(cfg, s, step) && !Begun(s, c, slot) && Begun(Next(cfg, s, step), c, slot)
    ensures step.Deliver? && step.call == c
    ensures Next(cfg, s, step).inbox[c] == Reply(false, Ok(Reports(step.message, step.now)), Some(slot), None)
  {
    hide InvBut, Enabled, Next, Complete, Observe.Admissible, Observe.Accepted, CarriesOn, AsksForMore, MatchesExchange;
    if step.Deliver? && step.call == c {
      DeliverIsComplete(cfg, s, step);
      DeliveryShows(cfg, s, step.now, c, step.rx, step.message, step.env);
    } else {
      OnlyDeliveryStores(cfg, s, step, c);
    }
  }

  lemma DeliverIsComplete(cfg: Config, s: State, step: Step)
    requires step.Deliver?
    ensures Next(cfg, s, step) == Complete(s, cfg, step.now, step.call, step.rx, step.message, step.env)
  {
    hide Complete;
  }

  lemma StaysDescribed(cfg: Config, s: State, step: Step, c: Call, slot: Slot, first: Meta)
    requires Inv(cfg, s) && Enabled(cfg, s, step) && c in s.inbox && s.inbox[c] == Reply(false, Ok(first), Some(slot), None)
    requires c in Next(cfg, s, step).inbox && Next(cfg, s, step).inbox[c].body == Some(slot)
    ensures Next(cfg, s, step).inbox[c].meta == Ok(first) && Next(cfg, s, step).inbox[c].datagram.None?
  {
    hide InvBut, Enabled, Next, Complete;
    if step.Deliver? && step.call == c {
      DeliverIsComplete(cfg, s, step);
      FirstFragmentDescribes(cfg, s, step.now, c, step.rx, step.message, step.env, slot, first);
    } else {
      StepKeeps(cfg, s, step);
      BodyRow(cfg, Next(cfg, s, step), c);
      OnlyDeliveryStores(cfg, s, step, c);
    }
  }

  lemma BodyRow(cfg: Config, s: State, c: Call)
    requires Inv(cfg, s) && c in s.inbox && s.inbox[c].body.Some?
    ensures s.inbox[c].meta.Ok?
  {
  }

  /** A response begins with step `i` and is assembled in this slot until step `j`: over every run, what is
      then in the row has the header of the message that began it. */
  lemma {:induction false} BlocksDescribedByFirst(cfg: Config, s: State, steps: seq<Step>, c: Call, slot: Slot, i: nat, j: nat)
    requires Inv(cfg, s) && Runs(cfg, s, steps) && i < j <= |steps|
    requires !Begun(After(cfg, s, steps[..i]), c, slot) && Begun(After(cfg, s, steps[..i + 1]), c, slot)
    requires forall k :: i < k < j ==> Begun(After(cfg, s, steps[..k]), c, slot)
    requires c in After(cfg, s, steps[..j]).inbox && After(cfg, s, steps[..j]).inbox[c].body == Some(slot)
    ensures steps[i].Deliver? && steps[i].call == c
    ensures var row := After(cfg, s, steps[..j]).inbox[c];
            row == Reply(row.complete, Ok(Reports(steps[i].message, steps[i].now)), Some(slot), None)
    decreases j
  {
    hide Inv, Next, Enabled, After;
    RunKeeps(cfg, s, steps, j - 1);
    AfterNext(cfg, s, steps, j - 1);
    var before := After(cfg, s, steps[..j - 1]);
    if i + 1 == j {
      Begins(cfg, before, steps[i], c, slot);
    } else {
      assert Begun(before, c, slot);
      BlocksDescribedByFirst(cfg, s, steps, c, slot, i, j - 1);
      StaysDescribed(cfg, before, steps[j - 1], c, slot, Reports(steps[i].message, steps[i].now));
    }
  }

  // What collection hands out.

  /** Over every run, the first collection of an ordinary call's outcome hands out exactly what was stored,
      or the failure an interrupted delivery put in its place; a body that fits is never refused, and a
      buffer that is too small takes nothing. */
  lemma HandedIsStored(cfg: Config, s: State, steps: seq<Step>, c: Call, i: nat)
    requires Inv(cfg, s) && Runs(cfg, s, steps) && i < |steps| && Settled(s, c)
    requires Takes(steps[i], c) && forall k :: 0 <= k < i ==> !Takes(steps[k], c)
    ensures var disturbed := exists k :: 0 <= k < i && Disturbs(steps[k], c);
            var handed := Handed(After(cfg, s, steps[..i]), steps[i], c);
            && c in s.inbox
            && (disturbed ==> handed == Some(Err(ContinuationFailed)))
            && (!disturbed && steps[i].Collected? ==>
                  handed == Some(if s.inbox[c].body.Some? && steps[i].tooLarge then Err(ResponseBodyBounds) else s.inbox[c].meta))
            && (!disturbed && steps[i].CollectedInto? ==>
                  handed == if steps[i].fits || s.inbox[c].meta.Err? then Some(s.inbox[c].meta) else None)
  {
    hide Inv, Next, Enabled, After, Disturbs, Runs;
    OutcomeRemains(cfg, s, steps, c, i);
  }

  /** From the delivery that completes a response to its collection: the application is handed the header of
      that message, or of the one its blocks began with. */
  lemma HandedIsDelivered(cfg: Config, s: State, steps: seq<Step>, c: Call, j: nat)
    requires Inv(cfg, s) && Runs(cfg, s, steps) && 0 < j < |steps| && steps[0].Deliver? && steps[0].call == c
    requires var d := steps[0]; VerdictOf(s, cfg, d.now, c, d.rx, d.message, d.env).Whole?
    requires steps[j].Collected? && steps[j].call == c && c !in Next(cfg, s, steps[0]).engine.observes
    requires forall k :: 0 < k < j ==> !Takes(steps[k], c) && !Disturbs(steps[k], c)
    ensures var d := steps[0];
            var v := VerdictOf(s, cfg, d.now, c, d.rx, d.message, d.env);
            Handed(After(cfg, s, steps[..j]), steps[j], c)
              == Some(if v.assembled.Some? && steps[j].tooLarge then Err(ResponseBodyBounds) else Ok(v.meta))
  {
    hide Inv, Next, Enabled, After, Handed, VerdictOf, Complete, Disturbs;
    var d, rest := steps[0], steps[1..];
    var t := Next(cfg, s, d);
    FirstStep(cfg, s, steps);
    DeliverIsComplete(cfg, s, d);
    DeliveryShows(cfg, s, d.now, c, d.rx, d.message, d.env);
    StepKeeps(cfg, s, d);
    assert rest[j - 1] == steps[j] && forall k :: 0 <= k < j - 1 ==> rest[k] == steps[k + 1];
    HandedIsStored(cfg, t, rest, c, j - 1);
    RestAfter(cfg, s, steps, j);
  }

  lemma FirstStep(cfg: Config, s: State, steps: seq<Step>)
    requires Runs(cfg, s, steps) && steps != []
    ensures Enabled(cfg, s, steps[0]) && Runs(cfg, Next(cfg, s, steps[0]), steps[1..])
  {
    hide Next, Enabled, After;
    AfterNone(cfg, s, steps);
    assert Enabled(cfg, After(cfg, s, steps[..0]), steps[0]);
    var t, rest := Next(cfg, s, steps[0]), steps[1..];
    forall i | 0 <= i < |rest|
      ensures Enabled(cfg, After(cfg, t, rest[..i]), rest[i])
    {
      RestAfter(cfg, s, steps, i + 1);
      assert rest[i] == steps[i + 1];
    }
  }

  /** A run goes on from its first step. */
  lemma {:induction false} RestAfter(cfg: Config, s: State, steps: seq<Step>, i: nat)
    requires 0 < i <= |steps|
    ensures After(cfg, s, steps[..i]) == After(cfg, Next(cfg, s, steps[0]), steps[1..][..i - 1])
    decreases i
  {
    hide Next, After;
    var t, rest := Next(cfg, s, steps[0]), steps[1..];
    AfterNext(cfg, s, steps, i - 1);
    if i == 1 {
      AfterNone(cfg, s, steps);
      AfterNone(cfg, t, rest);
    } else {
      RestAfter(cfg, s, steps, i - 1);
      AfterNext(cfg, t, rest, i - 2);
      assert rest[i - 2] == steps[i - 1];
    }
  }

  // What the clock ends a call with.

  lemma {:induction false} FailDueLabels(cfg: Config, s: State, due: seq<(Call, Failure)>, k: nat)
    requires Inv(cfg, s) && (forall i :: 0 <= i < |due| ==> due[i].0 in s.active) && k < |due|
    requires forall i, j :: 0 <= i < j < |due| ==> due[i].0 != due[j].0
    ensures var after := FailDue(s, cfg, due);
            due[k].0 in after.inbox && after.inbox[due[k].0] == Reply(true, Err(due[k].1), None, None)
    decreases |due|
  {
    hide InvBut, Fail, FailDue, Loose, SameHoldings;
    var c, rest := due[0].0, due[1..];
    var next := Fail(s, cfg, c, due[0].1, true);
    FailKeeps(cfg, s, c, due[0].1, None);
    FailIs(cfg, s, c, due[0].1, true, None);
    FailSame(cfg, s, c, due[0].1);
    FailDueNext(cfg, s, due);
    assert forall i :: 0 <= i < |rest| ==> rest[i] == due[i + 1];
    if k > 0 {
      FailDueLabels(cfg, next, rest, k - 1);
    } else {
      FailDueKeeps(cfg, next, rest);
      assert !Listed(rest, c);
      assert SameFor(next, FailDue(next, cfg, rest), c);
    }
  }

  lemma DueIs(s: State, now: nat, c: Call)
    requires c in s.active
    ensures var live := s.active[c];
            var waiting := !(c in s.inbox && s.inbox[c].complete) || c in s.engine.observes;
            var late := live.deadline.Some? && live.deadline.value <= now;
            var over := live.due != 0 && live.due <= now && c in s.engine.exchanges;
            DueFailure(ExpireBackoffs(s, now), c, now)
              == if !waiting then None else if late then Some(DeadlineExceeded) else if over then Some(TimedOut) else None
  {
  }

  /** Expiry ends a call exactly when something still waits for it and its deadline has come, as
      DeadlineExceeded, or else its lifetime is past with a request open, as TimedOut. */
  lemma ExpiryLabels(cfg: Config, s: State, step: Step, c: Call)
    requires Inv(cfg, s) && Enabled(cfg, s, step) && step.Expired? && c in s.active
    ensures var after := Next(cfg, s, step);
            var live := s.active[c];
            var waiting := !(c in s.inbox && s.inbox[c].complete) || c in s.engine.observes;
            var late := live.deadline.Some? && live.deadline.value <= step.now;
            var over := live.due != 0 && live.due <= step.now && c in s.engine.exchanges;
            && (waiting && late ==> c in after.inbox && after.inbox[c] == Reply(true, Err(DeadlineExceeded), None, None))
            && (waiting && !late && over ==> c in after.inbox && after.inbox[c] == Reply(true, Err(TimedOut), None, None))
            && (!waiting || (!late && !over) ==> SameFor(s, after, c))
  {
    hide InvBut, FailDue, Loose, SameFor, ExpireBackoffs, DueFailure;
    var s0 := ExpireBackoffs(s, step.now);
    ExpireTimes(s, step.now);
    DueIs(s, step.now, c);
    TimesKeep(cfg, s, s0, None);
    DueActive(s0, step.now, step.due);
    StepSound(cfg, s, step);
    var f := DueFailure(s0, c, step.now);
    if f.Some? {
      var k :| 0 <= k < |step.due| && step.due[k].0 == c;
      FailDueLabels(cfg, s0, step.due, k);
    } else {
      assert !Listed(step.due, c);
    }
  }

  // What everything else ends a call with.

  /** The failure a step that ends its call leaves. */
  function Label(step: Step): Option<Failure> {
    match step
    case Interrupted(_, _, _, _, _) => Some(ContinuationFailed)
    case FailBy(_, failure) => Some(failure)
    case ResetBy(_, _, _) => Some(Reset)
    case GivenUp(_, _, failure) => Some(failure)
    case UploadFailed(_, _, _, _) => Some(ContinuationFailed)
    case ReplacingDropped(_, _, refreshing) => Some(if refreshing then ReregistrationFailed else CancellationFailed)
    case _ => None
  }

  lemma EndingLabels(cfg: Config, s: State, step: Step, c: Call)
    requires Inv(cfg, s) && Enabled(cfg, s, step) && About(s, step) == Some(c) && Label(step).Some?
    ensures var after := Next(cfg, s, step);
            && c in after.inbox && after.inbox[c] == Reply(true, Err(Label(step).value), None, None)
            && c in after.active && c !in after.engine.exchanges && c !in after.engine.observes && !Waiting(after, c)
  {
    hide InvBut, Enabled, Next, Authority.ResetTarget, Authority.ForTx, Label;
    EndingRows(cfg, s, step, c);
    StepKeeps(cfg, s, step);
    FailedIsOver(cfg, Next(cfg, s, step), c);
  }

  lemma FailedIsOver(cfg: Config, s: State, c: Call)
    requires Inv(cfg, s) && Failed(s, c)
    ensures c in s.active && c !in s.engine.exchanges && c !in s.engine.observes && !Waiting(s, c)
  {
  }

  lemma EndingRows(cfg: Config, s: State, step: Step, c: Call)
    requires Inv(cfg, s) && Enabled(cfg, s, step) && About(s, step) == Some(c) && Label(step).Some?
    ensures var after := Next(cfg, s, step); c in after.inbox && after.inbox[c] == Reply(true, Err(Label(step).value), None, None)
  {
    hide InvBut, Loose, Fail, Tame, Interrupt, Displace, AbandonSend, Authority.ResetTarget, Authority.ForTx,
      Authority.Recorded, Authority.Enumerates, Cools, ExpireBackoffs,
      Delivered, Quiet, Authority.FailUpload, Authority.ResetBy, Authority.GiveUp, Vacant;
    match step {
      case Interrupted(now, _, rx, m, failed) => InterruptDelivers(cfg, s, now, c, rx, m, failed);
      case FailBy(_, failure) => FailIs(cfg, s, c, failure, true, None);
      case ResetBy(order, mid, peer) => ClientEndings.ResetKeeps(cfg, s, order, mid, peer);
      case GivenUp(order, slot, failure) =>
        assert slot < |s.engine.tx|;
        ClientEndings.GiveUpKeeps(cfg, s, order, slot, failure);
      case UploadFailed(order, _, own, taken) => ClientEndings.FailUploadKeeps(cfg, s, order, c, own, taken);
      case ReplacingDropped(now, _, refreshing) => DroppedRow(cfg, s, now, c, refreshing);
    }
  }

  lemma DroppedRow(cfg: Config, s: State, now: nat, c: Call, refreshing: bool)
    requires Inv(cfg, s) && c in ExpireBackoffs(s, now).active
    ensures var after := Abandon(Displace(s, cfg, now, c, refreshing), c);
            && c in after.inbox
            && after.inbox[c] == Reply(true, Err(if refreshing then ReregistrationFailed else CancellationFailed), None, None)
  {
    hide InvBut, Fail, ExpireBackoffs, AbandonSend;
    var s0 := ExpireBackoffs(s, now);
    ExpireTimes(s, now);
    TimesKeep(cfg, s, s0, None);
    AbandonKeeps(cfg, s0, c, None);
    FailIs(cfg, Abandon(s0, c), c, if refreshing then ReregistrationFailed else CancellationFailed, true, None);
  }

  /** `cancel` ends a call exactly when it has no outcome yet or is a live subscription; otherwise nothing
      happens, and an outcome that is there stays. */
  lemma CancelEnds(cfg: Config, s: State, c: Call)
    requires Inv(cfg, s)
    ensures var after := Cancel(s, cfg, c);
            if c in s.active && (!(c in s.inbox && s.inbox[c].complete) || c in s.engine.observes)
            then c in after.inbox && after.inbox[c] == Reply(true, Err(Cancelled), None, None)
                 && c !in after.engine.observes && c !in after.engine.exchanges && Quiet(after.engine.tx, c)
            else after == s
  {
    hide InvBut, Fail, Quiet;
    if Cancellable(s, c) {
      FailIs(cfg, s, c, Cancelled, true, None);
      FailKeeps(cfg, s, c, Cancelled, None);
    }
  }
}
