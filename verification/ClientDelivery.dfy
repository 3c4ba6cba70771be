/** Delivering a response: whatever it is and however sending fares, the invariant is kept, other
    calls' rows stay, and the packet in hand is either retained by this call's row or given back. */
module ClientDelivery {
  import opened Common
  import opened Engines
  import opened ClientModel
  import opened ClientInvariant
  import opened ClientSteps
  import Observe

  /** Other calls are untouched and exactly the packet in hand stops being loose. */
  ghost predicate Delivered(s: State, after: State, c: Call, rx: Slot) {
    && (forall d :: d != c ==> SameFor(s, after, d))
    && (forall x :: Loose(after, x) <==> Loose(s, x) && x != rx)
  }

  lemma TameDelivered(s: State, mid: State, after: State, c: Call, rx: Slot)
    requires Tame(s, mid, c) && Delivered(mid, after, c, rx)
    ensures Delivered(s, after, c, rx)
  {
    hide Loose, SameFor;
    forall d | d != c
      ensures SameFor(s, after, d)
    {
      assert SameFor(s, mid, d) && SameFor(mid, after, d);
      SameForThen(s, mid, after, d);
    }
  }

  lemma ReleaseDelivers(cfg: Config, s: State, mid: State, c: Call, rx: Slot)
    requires Inv(cfg, mid) && Tame(s, mid, c) && Loose(s, rx)
    ensures Inv(cfg, ReleasePacket(mid, rx)) && Delivered(s, ReleasePacket(mid, rx), c, rx)
  {
    hide InvBut;
    TameLoose(s, mid, c, rx);
    ReleaseKeeps(cfg, mid, rx, None);
    var after := ReleasePacket(mid, rx);
    forall x
      ensures Loose(after, x) <==> Loose(s, x) && x != rx
    {
      assert Loose(mid, x) <==> Loose(s, x);
    }
    forall d | d != c
      ensures SameFor(s, after, d)
    {
      assert SameFor(s, mid, d);
    }
  }

  lemma FailDelivers(cfg: Config, s: State, c: Call, failure: Failure, rx: Slot)
    requires Inv(cfg, s) && c in s.active && Loose(s, rx)
    ensures var after := ReleasePacket(Fail(s, cfg, c, failure, true), rx);
            Inv(cfg, after) && Delivered(s, after, c, rx)
  {
    hide InvBut, Fail, Tame, Loose, Delivered;
    FailKeeps(cfg, s, c, failure, None);
    FailTame(cfg, s, c, failure, true, None);
    ReleaseDelivers(cfg, s, Fail(s, cfg, c, failure, true), c, rx);
  }

  // Follow-up requests.

  lemma PlaceKeeps(exchanges: map<Call, Exchange>, tx: seq<Option<Packet>>, c: Call, x: Exchange, timer: Option<Rto>)
    requires TxOk(exchanges, tx) && Quiet(tx, c)
    ensures TxOk(exchanges[c := x], PlacePacket(tx, c, x, timer))
  {
    var after := PlacePacket(tx, c, x, timer);
    forall i | 0 <= i < |tx|
      ensures Attributed(exchanges[c := x], after[i], i)
    {
      assert Attributed(exchanges, tx[i], i) && !Mine(tx[i], c);
    }
  }

  lemma PlaceUploads(active: LiveMap, uploads: seq<Option<Upload>>, slot: Option<Slot>, c: Call, tag: nat)
    requires Uploads(active, uploads) && c in active && active[c].tag == tag
    ensures Uploads(active, PlaceUpload(uploads, slot, c, tag))
    ensures forall d :: d != c ==> (Uploading(PlaceUpload(uploads, slot, c, tag), d) <==> Uploading(uploads, d))
  {
    var after := PlaceUpload(uploads, slot, c, tag);
    forall d | d != c
      ensures Uploading(after, d) <==> Uploading(uploads, d)
    {
      OthersUpload(uploads, slot, c, tag, d);
    }
  }

  lemma OthersUpload(uploads: seq<Option<Upload>>, slot: Option<Slot>, c: Call, tag: nat, d: Call)
    requires d != c
    ensures Uploading(PlaceUpload(uploads, slot, c, tag), d) <==> Uploading(uploads, d)
  {
    if Uploading(uploads, d) {
      var u :| 0 <= u < |uploads| && uploads[u].Some? && uploads[u].value.call == d;
      assert PlaceUpload(uploads, slot, c, tag)[u] == uploads[u];
    }
  }

  lemma FollowupOnly(e: Engine, after: Engine, slot: Option<Slot>, c: Call, tag: nat)
    requires after.uploads == PlaceUpload(e.uploads, slot, c, tag) && after.bodies == e.bodies && after.bindings - {c} == e.bindings - {c}
    ensures OnlyOf(e, after, c)
  {
    OnlyParts(e, after, c);
  }

  /** A follow-up finds none of the call's requests pending, or is a recovery beside one, which goes out
      unconfirmed under the exchange that is there. */
  predicate Follows(e: Engine, c: Call, f: Followup) {
    || f.NotSent?
    || Quiet(e.tx, c)
    || (c in e.exchanges && f == Sent(Some(e.exchanges[c]), None, None))
  }

  lemma FollowupKeeps(cfg: Config, s: State, c: Call, f: Followup)
    requires Inv(cfg, s) && c in s.active && (c in s.inbox ==> !s.inbox[c].complete) && Follows(s.engine, c, f)
    ensures Inv(cfg, SendFollowup(s, cfg, c, f)) && Tame(s, SendFollowup(s, cfg, c, f), c)
    ensures f.NotSent? ==> SendFollowup(s, cfg, c, f).inbox == s.inbox[c := Reply(true, Err(ContinuationFailed), None, None)]
  {
    hide Sizes, Owned, Rows, Packets, Bodies, Uploads, Lives, Credited, TxOk, Quiet, Tame, Fail, PlacePacket, PlaceUpload, AbandonSend;
    var after := SendFollowup(s, cfg, c, f);
    match f {
      case NotSent =>
        AbandonKeeps(cfg, s, c, None);
        AbandonTame(s, c);
        FailKeeps(cfg, Abandon(s, c), c, ContinuationFailed, None);
        FailIs(cfg, Abandon(s, c), c, ContinuationFailed, true, None);
        FailTame(cfg, Abandon(s, c), c, ContinuationFailed, true, None);
        TameThen(s, Abandon(s, c), after, c);
      case Sent(exchange, timer, upload) =>
        if !Quiet(s.engine.tx, c) {
          assert s.engine.exchanges[c := s.engine.exchanges[c]] == s.engine.exchanges;
          NothingPlaced(s.engine, c);
          assert after == s;
          TameLinks(s, after, c);
          return;
        }
        if exchange.Some? {
          PlaceKeeps(s.engine.exchanges, s.engine.tx, c, exchange.value, timer);
        } else {
          TakenExchange(s.engine.exchanges, s.engine.tx, c);
        }
        PlaceUploads(s.active, s.engine.uploads, upload, c, s.active[c].tag);
        FollowupRows(s, after, c);
        FollowupOnly(s.engine, after.engine, upload, c, s.active[c].tag);
        TameEngine(s, after, c);
    }
  }

  lemma NothingPlaced(e: Engine, c: Call)
    requires c in e.exchanges
    ensures PlacePacket(e.tx, c, e.exchanges[c], None) == e.tx && forall tag :: PlaceUpload(e.uploads, None, c, tag) == e.uploads
  {
  }

  lemma AbandonTame(s: State, c: Call)
    ensures Tame(s, Abandon(s, c), c) && Abandon(s, c).active == s.active && Abandon(s, c).inbox == s.inbox
    ensures c !in Abandon(s, c).engine.exchanges
  {
    AbandonOnly(s.engine, c);
    TameEngine(s, Abandon(s, c), c);
  }

  lemma FollowupRows(s: State, after: State, c: Call)
    requires c in s.active && (c in s.inbox ==> !s.inbox[c].complete)
    requires after.active == s.active && after.inbox == s.inbox
    requires after.engine.observes == s.engine.observes && after.engine.bindings == s.engine.bindings
    requires forall d :: d != c ==> (d in after.engine.exchanges <==> d in s.engine.exchanges)
    requires forall d :: d != c ==> (Uploading(after.engine.uploads, d) <==> Uploading(s.engine.uploads, d))
    ensures Rows(s.active, s.inbox, s.engine.exchanges.Keys, s.engine.observes, s.engine.uploads) ==>
              Rows(after.active, after.inbox, after.engine.exchanges.Keys, after.engine.observes, after.engine.uploads)
    ensures Owned(s.active.Keys, s.inbox.Keys, s.engine.exchanges.Keys, s.engine.observes, s.engine.bindings) ==>
              Owned(after.active.Keys, after.inbox.Keys, after.engine.exchanges.Keys, after.engine.observes, after.engine.bindings)
  {
    hide Uploading;
  }

  // Assembly.

  lemma AdmittedKeeps(cfg: Config, s: State, c: Call, slot: Slot, q: bool)
    requires Inv(cfg, s) && Assembles(s.engine.bodies, slot, c)
    ensures InvBut(cfg, Admitted(s, c, slot, q), Some((c, slot)))
  {
    hide Sizes, Owned, Rows, Packets, Uploads, Lives, Credited, TxOk;
    var bodies := Admitted(s, c, slot, q).engine.bodies;
    assert forall d, b: Slot :: BodyOf(s.engine.bodies, b, d) ==> BodyOf(bodies, b, d);
    assert forall d, b: Slot :: BodyOf(bodies, b, d) ==> (d == c && b == slot) || BodyOf(s.engine.bodies, b, d);
  }

  lemma CloseHole(cfg: Config, s: State, c: Call, slot: Slot)
    requires InvBut(cfg, s, Some((c, slot))) && Holds(s.inbox, c, slot)
    ensures Inv(cfg, s)
  {
    hide Sizes, Owned, Rows, Packets, Uploads, Lives, Credited, TxOk;
  }

  lemma AcceptIs(s: State, c: Call, header: Header, via: bool, room: bool)
    ensures var after := AcceptObserve(s, c, header, via, room);
            && after == s.(engine := s.engine.(observes := after.engine.observes))
            && after.engine.observes - {c} == s.engine.observes - {c}
  {
  }

  lemma FinishKeeps(cfg: Config, s: State, c: Call, slot: Slot, meta: Meta, env: Env, via: bool)
    requires InvBut(cfg, s, Some((c, slot))) && Answerable(s, c) && !Uploading(s.engine.uploads, c) && Quiet(s.engine.tx, c)
    ensures Inv(cfg, Finish(s, cfg, c, slot, meta, env, via)) && Tame(s, Finish(s, cfg, c, slot, meta, env, via), c)
  {
    hide InvBut, Fail, StoreReply, AcceptObserve, Tame, Uploading, Quiet;
    var hole := Some((c, slot));
    if !cfg.full && env.tooLarge {
      FailKeeps(cfg, s, c, ResponseBodyBounds, hole);
      FailTame(cfg, s, c, ResponseBodyBounds, true, hole);
    } else {
      var kept := c in s.inbox && !s.inbox[c].complete && s.inbox[c].body == Some(slot) && s.inbox[c].meta.Ok?;
      var first := if kept then s.inbox[c].meta.value else meta;
      var s1 := AcceptObserve(s, c, first.header, via, env.room);
      var s2 := TakeExchange(s1, c);
      AcceptKeeps(cfg, s, c, first.header, via, env.room, hole);
      AcceptIs(s, c, first.header, via, env.room);
      TakeExchangeKeeps(cfg, s1, c, hole);
      TameLinks(s, s2, c);
      StoreKeeps(cfg, s2, c, first, Some(slot));
      TameThen(s, s2, StoreReply(s2, cfg, c, first, Some(slot)), c);
    }
  }

  lemma PartialKeeps(cfg: Config, s: State, c: Call, slot: Slot, meta: Meta)
    requires InvBut(cfg, s, Some((c, slot))) && Answerable(s, c)
    ensures var after := RetainPartial(DropDatagram(s, c), cfg, c, meta, slot);
            && Inv(cfg, after) && Tame(s, after, c)
            && c in after.inbox && !after.inbox[c].complete && after.active == s.active && after.engine.tx == s.engine.tx
  {
    hide InvBut, DropDatagram, PutReply, Tame;
    var hole := Some((c, slot));
    var mid := DropDatagram(s, c);
    DatagramKeeps(cfg, s, c, hole);
    if c in mid.inbox && !mid.inbox[c].complete && mid.inbox[c].body == Some(slot) && mid.inbox[c].meta.Ok? {
      assert Holds(mid.inbox, c, slot);
      CloseHole(cfg, mid, c, slot);
    } else {
      var reply := Reply(false, Ok(meta), Some(slot), None);
      PutKeeps(cfg, mid, c, reply, hole);
      TameThen(s, mid, PutReply(mid, cfg, c, reply), c);
    }
  }

  lemma AssembleDelivers(cfg: Config, s: State, now: nat, c: Call, rx: Slot, m: Message, env: Env, via: bool)
    requires Inv(cfg, s) && Answerable(s, c) && !Uploading(s.engine.uploads, c) && Quiet(s.engine.tx, c) && Loose(s, rx)
    ensures var after := Assemble(s, cfg, now, c, rx, m, env, via);
            Inv(cfg, after) && Delivered(s, after, c, rx)
  {
    hide InvBut, Fail, Tame, Loose, Uploading, Finish, RetainPartial, DropDatagram, SendFollowup, Delivered,
      RecordObservation, Observe.Recorded, Quiet;
    if env.apply.Broken? {
      FailDelivers(cfg, s, c, BlockTransfer(env.apply.error), rx);
    } else if env.apply.Ignored? || !Assembles(s.engine.bodies, env.apply.slot, c) {
      TameLinks(s, s, c);
      ReleaseDelivers(cfg, s, s, c, rx);
    } else {
      var slot := env.apply.slot;
      var s0 := Admitted(s, c, slot, m.block.QBlock2?);
      var s1 := RecordObservation(s0, c, Notice(m, now));
      AdmittedKeeps(cfg, s, c, slot, m.block.QBlock2?);
      ObservationTimes(s0, c, Notice(m, now));
      TimesKeep(cfg, s0, s1, Some((c, slot)));
      TameEngine(s, s0, c);
      ObservationTame(s0, c, Notice(m, now));
      TameThen(s, s0, s1, c);
      AssembledDelivers(cfg, s, s1, now, c, rx, m, env, via, slot);
    }
  }

  lemma AssembledDelivers(cfg: Config, s: State, s1: State, now: nat, c: Call, rx: Slot, m: Message, env: Env, via: bool, slot: Slot)
    requires InvBut(cfg, s1, Some((c, slot))) && Answerable(s1, c) && !Uploading(s1.engine.uploads, c) && Quiet(s1.engine.tx, c)
    requires Tame(s, s1, c) && Loose(s, rx)
    ensures var meta := Meta(HeaderOf(m), now);
            var done := ReleasePacket(Finish(s1, cfg, c, slot, meta, env, via), rx);
            var s2 := RetainPartial(DropDatagram(s1, c), cfg, c, meta, slot);
            var more := ReleasePacket(SendFollowup(TakeExchange(s2, c), cfg, c, env.followup), rx);
            && Inv(cfg, done) && Delivered(s, done, c, rx)
            && c in s2.inbox && Inv(cfg, ReleasePacket(s2, rx)) && Delivered(s, ReleasePacket(s2, rx), c, rx)
            && Inv(cfg, more) && Delivered(s, more, c, rx)
  {
    hide InvBut, Fail, Tame, Loose, Uploading, Finish, RetainPartial, DropDatagram, SendFollowup, Delivered, ReleasePacket, Quiet;
    var meta := Meta(HeaderOf(m), now);
    FinishKeeps(cfg, s1, c, slot, meta, env, via);
    var finished := Finish(s1, cfg, c, slot, meta, env, via);
    TameThen(s, s1, finished, c);
    ReleaseDelivers(cfg, s, finished, c, rx);
    PartialKeeps(cfg, s1, c, slot, meta);
    var s2 := RetainPartial(DropDatagram(s1, c), cfg, c, meta, slot);
    TameThen(s, s1, s2, c);
    ReleaseDelivers(cfg, s, s2, c, rx);
    var s3 := TakeExchange(s2, c);
    TakeExchangeKeeps(cfg, s2, c, None);
    TameLinks(s2, s3, c);
    TameThen(s, s2, s3, c);
    FollowupKeeps(cfg, s3, c, env.followup);
    TameThen(s, s3, SendFollowup(s3, cfg, c, env.followup), c);
    ReleaseDelivers(cfg, s, SendFollowup(s3, cfg, c, env.followup), c, rx);
  }

  // A response in one packet.

  lemma KeepDelivers(cfg: Config, s: State, now: nat, c: Call, rx: Slot, m: Message, env: Env, via: bool)
    requires Inv(cfg, s) && Answerable(s, c) && !Uploading(s.engine.uploads, c) && Quiet(s.engine.tx, c) && Loose(s, rx)
    ensures var after := Keep(s, cfg, now, c, rx, m, env, via);
            Inv(cfg, after) && Delivered(s, after, c, rx)
  {
    hide InvBut, Fail, Tame, Uploading, AcceptObserve, StoreReply, Loose, Delivered, RecordObservation, Observe.Recorded, ReleasePacket, Quiet;
    var replacing := c in s.inbox && s.inbox[c].datagram.Some?;
    if cfg.full && !replacing && SatSub(cfg.rxSlots, |s.engine.rx|) < RX_HEADROOM {
      FailDelivers(cfg, s, c, PacketHeadroom, rx);
    } else {
      var n := Notice(m, now);
      var s0 := RecordObservation(s, c, n);
      ObservationTimes(s, c, n);
      TimesKeep(cfg, s, s0, None);
      var s1 := AcceptObserve(s0, c, HeaderOf(m), via, env.room);
      AcceptKeeps(cfg, s0, c, HeaderOf(m), via, env.room, None);
      AcceptIs(s0, c, HeaderOf(m), via, env.room);
      var s2 := TakeExchange(s1, c);
      TakeExchangeKeeps(cfg, s1, c, None);
      ObservationTame(s, c, n);
      TameLinks(s0, s2, c);
      TameThen(s, s0, s2, c);
      var meta := Meta(HeaderOf(m), now);
      StoreKeeps(cfg, s2, c, meta, None);
      var s3 := StoreReply(s2, cfg, c, meta, None);
      TameThen(s, s2, s3, c);
      if cfg.full {
        RetainDelivers(cfg, s, s3, c, rx, meta);
      } else {
        ReleaseDelivers(cfg, s, s3, c, rx);
      }
    }
  }

  lemma RetainDelivers(cfg: Config, s: State, s3: State, c: Call, rx: Slot, meta: Meta)
    requires Inv(cfg, s3) && Tame(s, s3, c) && Loose(s, rx) && cfg.full
    requires c in s3.inbox && s3.inbox[c] == Reply(true, Ok(meta), None, None)
    ensures var after := s3.(inbox := s3.inbox[c := s3.inbox[c].(datagram := Some(rx))]);
            Inv(cfg, after) && Delivered(s, after, c, rx)
  {
    hide Sizes, Owned, Rows, Packets, Bodies, Uploads, Lives, Credited, TxOk, Loose;
    TameLoose(s, s3, c, rx);
    var after := s3.(inbox := s3.inbox[c := s3.inbox[c].(datagram := Some(rx))]);
    RetainRows(cfg, s3, after, c, rx);
    RetainSlots(s3, after, c, rx);
    assert after.inbox.Keys == s3.inbox.Keys;
    forall x
      ensures Loose(after, x) <==> Loose(s, x) && x != rx
    {
      RetainLoose(s3, after, c, rx, x);
      assert Loose(s3, x) <==> Loose(s, x);
    }
    forall d | d != c
      ensures SameFor(s, after, d)
    {
      assert SameFor(s, s3, d);
    }
  }

  lemma RetainLoose(s: State, after: State, c: Call, rx: Slot, x: Slot)
    requires c in s.inbox && s.inbox[c].datagram.None?
    requires after == s.(inbox := s.inbox[c := s.inbox[c].(datagram := Some(rx))])
    ensures Loose(after, x) <==> Loose(s, x) && x != rx
  {
    if Loose(after, x) {
      assert after.inbox[c].datagram != Some(x);
      forall d | d in s.inbox
        ensures s.inbox[d].datagram != Some(x)
      {
        assert d in after.inbox;
      }
    }
  }

  lemma RetainRows(cfg: Config, s: State, after: State, c: Call, rx: Slot)
    requires c in s.inbox && s.inbox[c].complete && s.inbox[c].meta.Ok? && s.inbox[c].datagram.None?
    requires after == s.(inbox := s.inbox[c := s.inbox[c].(datagram := Some(rx))])
    ensures Rows(s.active, s.inbox, s.engine.exchanges.Keys, s.engine.observes, s.engine.uploads) ==>
              Rows(after.active, after.inbox, after.engine.exchanges.Keys, after.engine.observes, after.engine.uploads)
    ensures Credited(cfg, s.active.Keys, s.inbox) ==> Credited(cfg, after.active.Keys, after.inbox)
  {
    hide Uploading;
    if Credited(cfg, s.active.Keys, s.inbox) {
      CreditsShrink(cfg, s.active.Keys, s.inbox, after.active.Keys, after.inbox);
    }
  }

  lemma RetainSlots(s: State, after: State, c: Call, rx: Slot)
    requires c in s.inbox && Loose(s, rx)
    requires after == s.(inbox := s.inbox[c := s.inbox[c].(datagram := Some(rx))])
    ensures Packets(true, s.inbox, s.engine.rx) ==> Packets(true, after.inbox, after.engine.rx)
    ensures Bodies(s.inbox, s.engine.bodies, None) ==> Bodies(after.inbox, after.engine.bodies, None)
  {
    assert forall d, b: Slot :: Holds(after.inbox, d, b) <==> Holds(s.inbox, d, b);
  }

  // The whole delivery.

  lemma DigestDelivers(cfg: Config, s: State, now: nat, c: Call, rx: Slot, m: Message, env: Env, via: bool)
    requires Inv(cfg, s) && Answerable(s, c) && !Uploading(s.engine.uploads, c) && Quiet(s.engine.tx, c) && Loose(s, rx)
    ensures var after := Digest(s, cfg, now, c, rx, m, env, via);
            Inv(cfg, after) && Delivered(s, after, c, rx)
  {
    hide InvBut, Fail, Tame, Loose, Uploading, Assemble, Keep, RecordBackoff, ReleasePacket, Delivered, Quiet;
    if env.meta.Some? {
      FailDelivers(cfg, s, c, env.meta.value, rx);
    } else {
      var s1 := RecordBackoff(s, c, m, now);
      BackoffTimes(s, c, m, now);
      TimesKeep(cfg, s, s1, None);
      BackoffTame(s, c, m, now);
      TameLoose(s, s1, c, rx);
      if !m.code.Overloaded? && !m.block.Plain? {
        AssembleDelivers(cfg, s1, now, c, rx, m, env, via);
        TameDelivered(s, s1, Assemble(s1, cfg, now, c, rx, m, env, via), c, rx);
      } else {
        KeepDelivers(cfg, s1, now, c, rx, m, env, via);
        TameDelivered(s, s1, Keep(s1, cfg, now, c, rx, m, env, via), c, rx);
      }
    }
  }

  lemma TameLoose(s: State, after: State, c: Call, rx: Slot)
    requires Tame(s, after, c) && Loose(s, rx)
    ensures Loose(after, rx)
  {
  }

  lemma AnswerDelivers(cfg: Config, s: State, now: nat, c: Call, rx: Slot, m: Message, env: Env, via: bool)
    requires Inv(cfg, s) && Answerable(s, c) && Quiet(s.engine.tx, c) && Loose(s, rx)
    ensures var after := Answer(s, cfg, now, c, rx, m, env, via);
            Inv(cfg, after) && Delivered(s, after, c, rx)
  {
    hide InvBut, Tame, Loose, Uploading, Digest, SendFollowup, ReleasePacket, Delivered, LookupUpload, DropUpload, Quiet;
    if LookupUpload(s.engine.uploads, c, TagOf(s, c)).Some? {
      UploadingNotComplete(cfg, s, c);
      FollowupKeeps(cfg, s, c, env.followup);
      ReleaseDelivers(cfg, s, SendFollowup(s, cfg, c, env.followup), c, rx);
    }
    var s1 := DropUpload(s, c);
    DropUploadKeeps(cfg, s, c, None);
    DropUploadOnly(s, c);
    TameEngine(s, s1, c);
    TameLoose(s, s1, c, rx);
    DigestDelivers(cfg, s1, now, c, rx, m, env, via);
    TameDelivered(s, s1, Digest(s1, cfg, now, c, rx, m, env, via), c, rx);
  }

  lemma UploadingNotComplete(cfg: Config, s: State, c: Call)
    requires Inv(cfg, s) && LookupUpload(s.engine.uploads, c, TagOf(s, c)).Some?
    ensures c in s.inbox ==> !s.inbox[c].complete
  {
    var u := LookupUpload(s.engine.uploads, c, TagOf(s, c)).value;
    assert s.engine.uploads[u].Some? && s.engine.uploads[u].value.call == c;
    assert Uploading(s.engine.uploads, c);
  }

  lemma StopIs(s: State, mid: nat, peer: Peer)
    ensures var after := StopPending(s, mid, peer);
            after == s.(engine := s.engine.(tx := after.engine.tx))
  {
  }

  /** A notification that is no response to an exchange finds none of the call's requests pending. */
  lemma ObservedIsQuiet(cfg: Config, s: State, c: Call, kind: Kind, mid: nat)
    requires Inv(cfg, s) && !MatchesExchange(s.engine, c, kind, mid) && MatchesObserve(s.engine, c, kind)
    ensures Quiet(s.engine.tx, c)
  {
    hide InvRest, TxOk, Quiet, Unsent;
    if c in s.engine.exchanges {
      NeverUnsent(s.engine, c);
    } else {
      UnlistedIsQuiet(s.engine.exchanges, s.engine.tx, c);
    }
  }

  /** What stopping the answered request leaves: the invariant, and none of its packets. */
  lemma ReadyKeeps(cfg: Config, s: State, c: Call, m: Message)
    requires Inv(cfg, s) && (MatchesExchange(s.engine, c, m.kind, m.mid) || MatchesObserve(s.engine, c, m.kind))
    ensures var via := MatchesExchange(s.engine, c, m.kind, m.mid);
            var mid := if via then s.engine.exchanges[c].mid else 0;
            var acked := if m.kind.Ack? && via then StopPending(s, mid, c.peer) else s;
            var stopped := if via then StopPending(acked, mid, c.peer) else acked;
            var ready := StopPending(stopped, m.mid, c.peer);
            && Inv(cfg, acked) && Tame(s, acked, c)
            && Inv(cfg, ready) && Tame(s, ready, c) && Quiet(ready.engine.tx, c)
            && ready == s.(engine := s.engine.(tx := ready.engine.tx))
  {
    hide InvBut, StopPending, Quiet, Tame, Unsent;
    var via := MatchesExchange(s.engine, c, m.kind, m.mid);
    var mid := if via then s.engine.exchanges[c].mid else 0;
    var acked := if m.kind.Ack? && via then StopPending(s, mid, c.peer) else s;
    var stopped := if via then StopPending(acked, mid, c.peer) else acked;
    StopIs(s, mid, c.peer);
    StopIs(acked, mid, c.peer);
    StopIs(stopped, m.mid, c.peer);
    if via {
      StopKeeps(cfg, s, mid, c.peer, None, c);
      StopKeeps(cfg, acked, mid, c.peer, None, c);
    } else {
      ObservedIsQuiet(cfg, s, c, m.kind, m.mid);
    }
    StopKeeps(cfg, stopped, m.mid, c.peer, None, c);
    TameLinks(s, acked, c);
    TameLinks(s, StopPending(stopped, m.mid, c.peer), c);
  }

  /** Delivery keeps the invariant, whoever the response is for. */
  lemma CompleteDelivers(cfg: Config, s: State, now: nat, c: Call, rx: Slot, m: Message, env: Env)
    requires Inv(cfg, s) && Loose(s, rx)
    ensures var after := Complete(s, cfg, now, c, rx, m, env);
            Inv(cfg, after) && Delivered(s, after, c, rx)
  {
    hide InvBut, Fail, Tame, Loose, Answer, StopPending, ReleasePacket, Delivered, Observe.Admissible, Observe.RecordFresh, Unsent, Quiet;
    var via := MatchesExchange(s.engine, c, m.kind, m.mid);
    TameLinks(s, s, c);
    ReleaseDelivers(cfg, s, s, c, rx);
    if via || MatchesObserve(s.engine, c, m.kind) {
      TargetedIsAnswerable(cfg, s, c);
      FailDelivers(cfg, s, c, ObserveFormatMismatch, rx);
      ReadyKeeps(cfg, s, c, m);
      var mid := if via then s.engine.exchanges[c].mid else 0;
      var acked := if m.kind.Ack? && via then StopPending(s, mid, c.peer) else s;
      var stopped := if via then StopPending(acked, mid, c.peer) else acked;
      var ready := StopPending(stopped, m.mid, c.peer);
      ReleaseDelivers(cfg, s, acked, c, rx);
      TameLoose(s, ready, c, rx);
      AnswerDelivers(cfg, ready, now, c, rx, m, env, via);
      TameDelivered(s, ready, Answer(ready, cfg, now, c, rx, m, env, via), c, rx);
    }
  }

  // An interrupted delivery.

  /** What the `Continuation` leaves: the call failed, nothing of its sending side, the packet given back. */
  lemma EndDelivers(cfg: Config, s: State, at: State, c: Call, rx: Slot)
    requires Inv(cfg, at) && c in at.active && Tame(s, at, c) && Loose(s, rx)
    ensures var ended := Fail(Abandon(at, c), cfg, c, ContinuationFailed, true);
            && !Held(ended, rx)
            && Inv(cfg, ReleasePacket(ended, rx)) && Delivered(s, ReleasePacket(ended, rx), c, rx)
            && c in ended.inbox && ended.inbox[c] == Reply(true, Err(ContinuationFailed), None, None)
            && ended.active.Keys == at.active.Keys
            && c !in ended.engine.observes && c !in ended.engine.exchanges
  {
    hide InvBut, Fail, Tame, Loose, AbandonSend, ReleasePacket, Delivered, Quiet;
    AbandonKeeps(cfg, at, c, None);
    AbandonTame(at, c);
    var left := Abandon(at, c);
    TameThen(s, at, left, c);
    FailKeeps(cfg, left, c, ContinuationFailed, None);
    FailIs(cfg, left, c, ContinuationFailed, true, None);
    FailTame(cfg, left, c, ContinuationFailed, true, None);
    var ended := Fail(left, cfg, c, ContinuationFailed, true);
    TameThen(s, left, ended, c);
    TameLoose(s, ended, c, rx);
    LooseNotHeld(ended, rx);
    ReleaseDelivers(cfg, s, ended, c, rx);
  }

  lemma LooseNotHeld(s: State, rx: Slot)
    requires Loose(s, rx)
    ensures !Held(s, rx)
  {
  }

  /** An interrupted delivery keeps the invariant and touches no other call; the call has failed. */
  lemma InterruptDelivers(cfg: Config, s: State, now: nat, c: Call, rx: Slot, m: Message, failed: bool)
    requires Inv(cfg, s) && c in s.active && Loose(s, rx)
    ensures var after := Interrupt(s, cfg, now, c, rx, m, failed);
            && Inv(cfg, after) && Delivered(s, after, c, rx)
            && c in after.inbox && after.inbox[c] == Reply(true, Err(ContinuationFailed), None, None)
            && after.active.Keys == s.active.Keys
            && c !in after.engine.observes && c !in after.engine.exchanges
  {
    hide InvBut, Fail, Tame, Loose, Abandon, Delivered, Held, Observe.Admissible, MatchesExchange, MatchesObserve, Quiet;
    Mismatched(cfg, s, c);
    EndDelivers(cfg, s, s, c, rx);
    EndDelivers(cfg, s, Fail(s, cfg, c, ObserveFormatMismatch, true), c, rx);
  }

  lemma Mismatched(cfg: Config, s: State, c: Call)
    requires Inv(cfg, s) && c in s.active
    ensures Tame(s, s, c)
    ensures var at := Fail(s, cfg, c, ObserveFormatMismatch, true);
            Inv(cfg, at) && c in at.active && at.active.Keys == s.active.Keys && Tame(s, at, c)
  {
    hide InvBut, Fail, Tame, Quiet;
    TameLinks(s, s, c);
    FailKeeps(cfg, s, c, ObserveFormatMismatch, None);
    FailIs(cfg, s, c, ObserveFormatMismatch, true, None);
    FailTame(cfg, s, c, ObserveFormatMismatch, true, None);
  }
}
