/** A response handled in place, branch by branch, with the effect the model gives it. */
module ClientReceive {
  import opened Common
  import opened Engines
  import opened ClientModel
  import opened LiveTable
  import opened ReplyTable
  import opened Clients
  import Authority
  import Observe

  /** `record_backoff`. */
  method RecordBackoff(client: Client, call: Call, m: Message, now: nat)
    requires client.Valid()
    modifies client.lives
    ensures client.Valid() && client.S() == ClientModel.RecordBackoff(old(client.S()), call, m, now)
  {
    hide LiveTable.Views, ReplyTable.Views, OnePerEndpoint, LivesAt, RetiredAt;
    if !m.code.Overloaded? || m.maxAge.BadAge? { return; }
    var seconds := if m.maxAge.Age? then m.maxAge.seconds else DEFAULT_MAX_AGE_SECS;
    client.lives.ExpireBackoffs(now);
    if seconds == 0 { return; }
    var live := client.lives.Get(call);
    if live.Some? {
      client.lives.Update(call, live.value.(backoff := Max(live.value.backoff, SatAdd(now, seconds * 1000))));
    }
  }

  /** `record_observation`. */
  method RecordObservation(client: Client, call: Call, n: Observe.Notification)
    requires client.Valid()
    modifies client.lives
    ensures client.Valid() && client.S() == ClientModel.RecordObservation(old(client.S()), call, n)
  {
    hide LiveTable.Views, ReplyTable.Views, OnePerEndpoint;
    var live := client.lives.Get(call);
    if live.Some? {
      if n.sequence.Some? {
        var format := live.value.record.format;
        if format.None? && !Observe.Silent(n) {
          format := Some(Observe.FormatOf(n));
        }
        client.lives.Update(call, live.value.(record := Observe.Record(Some((n.sequence.value, n.now)), format)));
      } else {
        Untouched(client.S().active, call);
      }
    }
  }

  lemma Untouched(active: map<Call, Live>, call: Call)
    requires call in active
    ensures active[call := active[call].(record := active[call].record)] == active
  {
  }

  /** `accept_client_observe`. */
  method AcceptObserve(client: Client, call: Call, header: Header, viaExchange: bool, room: bool)
    requires client.Valid()
    modifies client`engine
    ensures client.Valid() && client.S() == ClientModel.AcceptObserve(old(client.S()), call, header, viaExchange, room)
  {
    hide LiveTable.Views, ReplyTable.Views, OnePerEndpoint;
    var live := client.lives.Get(call);
    if live.Some? && live.value.observe.Deregister? {
      client.engine := client.engine.(observes := client.engine.observes - {call});
      return;
    }
    var subscribed := (live.Some? && live.value.observe.Register?) || call in client.engine.observes;
    if subscribed && header.observe.Some? && header.success {
      if room {
        client.engine := client.engine.(observes := client.engine.observes + {call});
      }
    } else if viaExchange || subscribed {
      client.engine := client.engine.(observes := client.engine.observes - {call});
    }
  }

  method StopPending(client: Client, mid: nat, peer: Peer)
    requires client.Valid()
    modifies client`engine
    ensures client.Valid() && client.S() == ClientModel.StopPending(old(client.S()), mid, peer)
  {
    hide LiveTable.Views, ReplyTable.Views;
    var (e, slot) := TakePending(client.engine, mid, peer);
    client.engine := if slot.Some? then ReleaseTx(e, slot.value) else e;
  }

  /** A follow-up was sent, or could not be and the call fails. */
  method SendFollowup(client: Client, call: Call, f: Followup)
    requires client.Valid()
    modifies client`engine, client.lives, client.inbox
    ensures client.Valid() && client.S() == ClientModel.SendFollowup(old(client.S()), client.cfg, call, f)
  {
    hide LiveTable.Views, ReplyTable.Views, OnePerEndpoint, Fail, AbandonSend, PlacePacket, PlaceUpload;
    match f {
      case NotSent =>
        client.AbandonCall(call);
        client.FailCall(call, ContinuationFailed, true);
      case Sent(exchange, timer, upload) =>
        var live := client.lives.Get(call);
        var e := client.engine;
        if exchange.Some? { Placed(e.tx, call, exchange.value, timer); }
        client.engine := e.(
          exchanges := if exchange.Some? then e.exchanges[call := exchange.value] else e.exchanges - {call},
          tx := if exchange.Some? then PlacePacket(e.tx, call, exchange.value, timer) else e.tx,
          uploads := PlaceUpload(e.uploads, upload, call, if live.Some? then live.value.tag else 0));
    }
  }

  lemma Placed(tx: seq<Option<Packet>>, c: Call, x: Exchange, timer: Option<Rto>)
    ensures OnePerEndpoint(tx) ==> OnePerEndpoint(PlacePacket(tx, c, x, timer))
  {
  }

  /** `finish_assembled`, before the packet goes back. */
  method Finish(client: Client, call: Call, body: Slot, meta: Meta, env: Env, via: bool)
    requires client.Valid()
    modifies client`engine, client.lives, client.inbox
    ensures client.Valid() && client.S() == ClientModel.Finish(old(client.S()), client.cfg, call, body, meta, env, via)
  {
    hide LiveTable.Views, ReplyTable.Views, OnePerEndpoint, Fail, ClientModel.AcceptObserve, ClientModel.StoreReply;
    if !client.cfg.full && env.tooLarge {
      client.FailCall(call, ResponseBodyBounds, true);
      return;
    }
    var row := client.inbox.Get(call);
    var first := if row.Some? && !row.value.complete && row.value.body == Some(body) && row.value.meta.Ok?
                 then row.value.meta.value else meta;
    AcceptObserve(client, call, first.header, via, env.room);
    client.engine := client.engine.(exchanges := client.engine.exchanges - {call});
    client.StoreReply(call, first, Some(body));
  }

  /** The last part of `complete_client`: a response in one packet. */
  method Keep(client: Client, now: nat, call: Call, rx: Slot, m: Message, env: Env, via: bool)
    requires client.Valid()
    modifies client`engine, client.lives, client.inbox
    ensures client.Valid() && client.S() == ClientModel.Keep(old(client.S()), client.cfg, now, call, rx, m, env, via)
  {
    hide LiveTable.Views, ReplyTable.Views, OnePerEndpoint, Fail, ClientModel.AcceptObserve, ClientModel.StoreReply,
      ClientModel.RecordObservation;
    var row := client.inbox.Get(call);
    var replacing := row.Some? && row.value.datagram.Some?;
    if client.cfg.full && !replacing && SatSub(client.cfg.rxSlots, |client.engine.rx|) < RX_HEADROOM {
      client.FailCall(call, PacketHeadroom, true);
      client.engine := ReleaseRx(client.engine, rx);
      return;
    }
    RecordObservation(client, call, Notice(m, now));
    AcceptObserve(client, call, HeaderOf(m), via, env.room);
    client.engine := client.engine.(exchanges := client.engine.exchanges - {call});
    client.StoreReply(call, Meta(HeaderOf(m), now), None);
    var kept := false;
    if client.cfg.full {
      kept := client.inbox.SetDatagram(call, rx);
    }
    if !kept {
      client.engine := ReleaseRx(client.engine, rx);
    }
  }

  /** `retain_partial`, with the body it replaces given back. */
  method RetainPartial(client: Client, call: Call, meta: Meta, body: Slot) returns (kept: bool)
    requires client.Valid()
    modifies client`engine, client.inbox
    ensures client.Valid() && client.S() == ClientModel.RetainPartial(old(client.S()), client.cfg, call, meta, body)
    ensures kept == (call in client.S().inbox)
  {
    hide LiveTable.Views, ReplyTable.Views, OnePerEndpoint;
    var r := client.inbox.RetainPartial(call, meta, body);
    match r {
      case Ok(previous) =>
        if previous.Some? && previous.value != body {
          client.engine := ReleaseBody(client.engine, previous.value);
        }
        return true;
      case Err(_) =>
        client.engine := ReleaseBody(client.engine, body);
        return false;
    }
  }

  /** A block applied to the assembly. */
  method Assemble(client: Client, now: nat, call: Call, rx: Slot, m: Message, env: Env, via: bool)
    requires client.Valid()
    modifies client`engine, client.lives, client.inbox
    ensures client.Valid() && client.S() == ClientModel.Assemble(old(client.S()), client.cfg, now, call, rx, m, env, via)
  {
    hide LiveTable.Views, ReplyTable.Views, OnePerEndpoint, Fail, ClientModel.RecordObservation, ClientModel.Finish,
      ClientModel.RetainPartial, ClientModel.DropDatagram, ClientModel.SendFollowup;
    match env.apply {
      case Ignored =>
      case Broken(error) =>
        client.FailCall(call, BlockTransfer(error), true);
      case Progress(slot, complete) =>
        if Assembles(client.engine.bodies, slot, call) {
          client.engine := client.engine.(bodies := client.engine.bodies[slot := Some(Body(call, m.block.QBlock2?))]);
          RecordObservation(client, call, Notice(m, now));
          if complete {
            Finish(client, call, slot, Meta(HeaderOf(m), now), env, via);
          } else {
            client.DropDatagram(call);
            var kept := RetainPartial(client, call, Meta(HeaderOf(m), now), slot);
            if kept && !(m.block.QBlock2? && (m.kind.Con? || !env.pull)) {
              client.engine := client.engine.(exchanges := client.engine.exchanges - {call});
              SendFollowup(client, call, env.followup);
            }
          }
        }
    }
    client.engine := ReleaseRx(client.engine, rx);
  }

  method Digest(client: Client, now: nat, call: Call, rx: Slot, m: Message, env: Env, via: bool)
    requires client.Valid()
    modifies client`engine, client.lives, client.inbox
    ensures client.Valid() && client.S() == ClientModel.Digest(old(client.S()), client.cfg, now, call, rx, m, env, via)
  {
    hide LiveTable.Views, ReplyTable.Views, OnePerEndpoint, Fail, ClientModel.RecordBackoff, ClientModel.Assemble, ClientModel.Keep;
    if env.meta.Some? {
      client.FailCall(call, env.meta.value, true);
      client.engine := ReleaseRx(client.engine, rx);
      return;
    }
    RecordBackoff(client, call, m, now);
    if !m.code.Overloaded? && !m.block.Plain? {
      Assemble(client, now, call, rx, m, env, via);
    } else {
      Keep(client, now, call, rx, m, env, via);
    }
  }

  method Answer(client: Client, now: nat, call: Call, rx: Slot, m: Message, env: Env, via: bool)
    requires client.Valid()
    modifies client`engine, client.lives, client.inbox
    ensures client.Valid() && client.S() == ClientModel.Answer(old(client.S()), client.cfg, now, call, rx, m, env, via)
  {
    hide LiveTable.Views, ReplyTable.Views, OnePerEndpoint, ClientModel.SendFollowup, ClientModel.Digest, LookupUpload;
    var live := client.lives.Get(call);
    var upload := LookupUpload(client.engine.uploads, call, if live.Some? then live.value.tag else 0);
    if upload.Some? {
      var reissue := env.qUpload && m.code.Incomplete? && m.missing && live.Some? && !live.value.con;
      if reissue || m.code.Continue? {
        SendFollowup(client, call, env.followup);
        client.engine := ReleaseRx(client.engine, rx);
        return;
      }
      client.engine := ReleaseUpload(client.engine, upload.value);
    }
    Digest(client, now, call, rx, m, env, via);
  }

  /** `complete_client`. */
  method Complete(client: Client, now: nat, call: Call, rx: Slot, m: Message, env: Env)
    requires client.Valid()
    modifies client`engine, client.lives, client.inbox
    ensures client.Valid() && client.S() == ClientModel.Complete(old(client.S()), client.cfg, now, call, rx, m, env)
  {
    hide LiveTable.Views, ReplyTable.Views, OnePerEndpoint, Fail, ClientModel.StopPending, ClientModel.Answer,
      Observe.Admissible, Observe.RecordFresh, Unsent;
    var viaExchange := MatchesExchange(client.engine, call, m.kind, m.mid);
    if !viaExchange && !MatchesObserve(client.engine, call, m.kind) {
      client.engine := ReleaseRx(client.engine, rx);
      return;
    }
    var mid := if viaExchange then client.engine.exchanges[call].mid else 0;
    if m.critical {
      if m.kind.Ack? && viaExchange { StopPending(client, mid, call.peer); }
      client.engine := ReleaseRx(client.engine, rx);
      return;
    }
    var live := client.lives.Get(call);
    var record := if live.Some? then live.value.record else Observe.Record(None, None);
    var n := Notice(m, now);
    var isFresh := client.cfg.protected || Observe.RecordFresh(record, n);
    if !Observe.Admissible(record, n, client.cfg.protected) {
      client.FailCall(call, ObserveFormatMismatch, true);
      client.engine := ReleaseRx(client.engine, rx);
      return;
    }
    if (m.kind.Con? && !env.ackSent) || !env.committed {
      client.engine := ReleaseRx(client.engine, rx);
      return;
    }
    if m.kind.Ack? && viaExchange { StopPending(client, mid, call.peer); }
    if !isFresh {
      client.engine := ReleaseRx(client.engine, rx);
      return;
    }
    if viaExchange { StopPending(client, mid, call.peer); }
    StopPending(client, m.mid, call.peer);
    Answer(client, now, call, rx, m, env, viaExchange);
  }

  /** `complete_client_rst`, and the packet the Reset answers. */
  method ResetReceived(client: Client, order: seq<Call>, mid: nat, peer: Peer)
    requires client.Valid()
    modifies client`engine, client.lives, client.inbox
    ensures client.Valid() && client.S() == Authority.ResetBy(old(client.S()), client.cfg, order, mid, peer)
  {
    hide LiveTable.Views, ReplyTable.Views, OnePerEndpoint, Fail, ClientModel.StopPending, Authority.ForTx, Authority.ForMid, Unsent;
    var slot := LookupPending(client.engine.tx, mid, peer);
    var found := if slot.Some? then Authority.ForTx(order, client.engine, slot.value) else None;
    if found.None? {
      var named := Authority.ForMid(order, client.engine, mid, peer);
      if named.Some? && named.value in client.engine.exchanges && !Unsent(client.engine, named.value) {
        found := named;
      }
    }
    if found.Some? {
      client.FailCall(found.value, Reset, false);
    }
    StopPending(client, mid, peer);
  }

  /** A further upload packet whose send fails: it is recorded, `drop_exchange_for_tx` searches for its
      slot, and the call ends. */
  method UploadSendFailed(client: Client, order: seq<Call>, call: Call, own: Exchange, taken: bool)
    requires client.Valid()
    modifies client`engine, client.lives, client.inbox
    ensures client.Valid() && client.S() == Authority.FailUpload(old(client.S()), client.cfg, order, call, own, taken)
  {
    hide LiveTable.Views, ReplyTable.Views, OnePerEndpoint, ClientModel.SendFollowup, Authority.ForTx;
    if taken {
      client.engine := client.engine.(exchanges := client.engine.exchanges - {call});
    }
    if call !in client.engine.exchanges {
      client.engine := client.engine.(exchanges := client.engine.exchanges[call := own]);
    }
    var found := Authority.ForTx(order, client.engine, own.tx);
    if found.Some? {
      client.engine := client.engine.(exchanges := client.engine.exchanges - {found.value});
    }
    SendFollowup(client, call, NotSent);
  }
}
