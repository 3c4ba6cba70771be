/** Resets and packets given up: the call is failed without its packet, which is released beside it.
    Together they keep the invariant, whichever call the tables name. */
module ClientEndings {
  import opened Common
  import opened Engines
  import opened ClientModel
  import opened ClientInvariant
  import opened ClientSteps
  import opened ClientDelivery
  import opened Authority

  lemma TargetActive(cfg: Config, s: State, c: Call)
    requires Inv(cfg, s) && c in s.engine.exchanges
    ensures c in s.active && (c in s.inbox ==> !s.inbox[c].complete) && Cancellable(s, c)
  {
    hide Packets, Bodies, Uploads, Lives, TxOk, Credited, Sizes;
    assert c in s.engine.exchanges.Keys;
  }

  /** Whatever a Reset ends, the packet it releases is the last that call had pending. */
  lemma ResetQuiet(order: seq<Call>, e: Engine, mid: nat, peer: Peer, c: Call)
    requires TxOk(e.exchanges, e.tx) && ResetTarget(order, e, mid, peer) == Some(c)
    ensures c in e.exchanges
    ensures var (e1, slot) := TakePending(e, mid, peer);
            var e2 := if slot.Some? then ReleaseTx(e1, slot.value) else e1;
            TxOk(e.exchanges - {c}, e2.tx)
  {
    var (e1, slot) := TakePending(e, mid, peer);
    var e2 := if slot.Some? then ReleaseTx(e1, slot.value) else e1;
    ResetTargetsExchange(order, e, mid, peer);
    StopOk(e, mid, peer, c);
    if slot.Some? && ForTx(order, e, slot.value).Some? {
      ForTxFound(order, e, slot.value);
      forall i | 0 <= i < |e.tx|
        ensures !Mine(e2.tx[i], c)
      {
        if Mine(e.tx[i], c) {
          FoundIsMine(e.exchanges, e.tx, c, i);
        }
      }
    } else {
      ForMidFound(order, e, mid, peer);
    }
    TakenExchange(e.exchanges, e2.tx, c);
  }

  lemma GiveUpQuiet(order: seq<Call>, e: Engine, slot: Slot, c: Call)
    requires TxOk(e.exchanges, e.tx) && slot < |e.tx| && ForTx(order, e, slot) == Some(c)
    ensures c in e.exchanges && TxOk(e.exchanges - {c}, e.tx[slot := None])
  {
    ForTxFound(order, e, slot);
    ReleaseOk(e.exchanges, e.tx, slot);
    var left := e.tx[slot := None];
    forall i | 0 <= i < |left|
      ensures !Mine(left[i], c)
    {
      if Mine(e.tx[i], c) {
        FoundIsMine(e.exchanges, e.tx, c, i);
      }
    }
    TakenExchange(e.exchanges, left, c);
  }

  /** The call failed without its packet, then the transmit slots as given. */
  lemma EndKeeps(cfg: Config, s: State, c: Call, failure: Failure, tx: seq<Option<Packet>>)
    requires Inv(cfg, s) && c in s.engine.exchanges && TxOk(s.engine.exchanges - {c}, tx)
    ensures var failed := Fail(s, cfg, c, failure, false);
            var after := failed.(engine := failed.engine.(tx := tx));
            && failed.engine.tx == s.engine.tx && Inv(cfg, after) && Tame(s, after, c)
            && after.inbox == s.inbox[c := Reply(true, Err(failure), None, None)]
  {
    hide InvRest, TxOk, Fail, DropUpload, BodiesWithout, Tame;
    TargetActive(cfg, s, c);
    var failed := Fail(s, cfg, c, failure, false);
    var after := failed.(engine := failed.engine.(tx := tx));
    FailRest(cfg, s, c, failure, false, None);
    FailRestIs(cfg, s, c, failure, false, None);
    FailTame(cfg, s, c, failure, false, None);
    RestIgnoresTx(cfg, failed, tx);
    TameLinks(failed, after, c);
    TameThen(s, failed, after, c);
  }

  lemma RestIgnoresTx(cfg: Config, s: State, tx: seq<Option<Packet>>)
    ensures InvRest(cfg, s, None) ==> InvRest(cfg, s.(engine := s.engine.(tx := tx)), None)
  {
    hide Sizes, Owned, Rows, Packets, Bodies, Uploads, Lives, Credited;
  }

  lemma StoppedTx(s: State, t: State, mid: nat, peer: Peer)
    requires t.engine.tx == s.engine.tx
    ensures StopPending(t, mid, peer) == t.(engine := t.engine.(tx := StopPending(s, mid, peer).engine.tx))
  {
    hide LookupPending;
  }

  lemma ResetKeeps(cfg: Config, s: State, order: seq<Call>, mid: nat, peer: Peer)
    requires Inv(cfg, s)
    ensures var after := ResetBy(s, cfg, order, mid, peer);
            var c := ResetTarget(order, s.engine, mid, peer);
            && Inv(cfg, after)
            && (c.Some? ==> && c.value in s.engine.exchanges && Tame(s, after, c.value)
                            && after.inbox == s.inbox[c.value := Reply(true, Err(Reset), None, None)])
            && (c.None? ==> after == s.(engine := s.engine.(tx := after.engine.tx)))
  {
    hide InvRest, TxOk, Fail, StopPending, Tame, ResetTarget;
    var c := ResetTarget(order, s.engine, mid, peer);
    if c.Some? {
      ResetQuiet(order, s.engine, mid, peer, c.value);
      StopTx(s, mid, peer);
      var tx := StopPending(s, mid, peer).engine.tx;
      EndKeeps(cfg, s, c.value, Reset, tx);
      StoppedTx(s, Fail(s, cfg, c.value, Reset, false), mid, peer);
    } else {
      StopKeeps(cfg, s, mid, peer, None, Call(0, peer));
      StopIs(s, mid, peer);
    }
  }

  lemma StopTx(s: State, mid: nat, peer: Peer)
    ensures var (e1, slot) := TakePending(s.engine, mid, peer);
            StopPending(s, mid, peer).engine == if slot.Some? then ReleaseTx(e1, slot.value) else e1
  {
  }

  lemma GiveUpKeeps(cfg: Config, s: State, order: seq<Call>, slot: Slot, failure: Failure)
    requires Inv(cfg, s) && slot < |s.engine.tx|
    ensures var after := GiveUp(s, cfg, order, slot, failure);
            var c := ForTx(order, s.engine, slot);
            && Inv(cfg, after)
            && (c.Some? ==> && c.value in s.engine.exchanges && Tame(s, after, c.value)
                            && after.inbox == s.inbox[c.value := Reply(true, Err(failure), None, None)])
            && (c.None? ==> after == s.(engine := s.engine.(tx := after.engine.tx)))
  {
    hide InvRest, TxOk, Fail, Tame, ForTx;
    var c := ForTx(order, s.engine, slot);
    if c.Some? {
      GiveUpQuiet(order, s.engine, slot, c.value);
      EndKeeps(cfg, s, c.value, failure, s.engine.tx[slot := None]);
    } else {
      ReleaseOk(s.engine.exchanges, s.engine.tx, slot);
      RestIgnoresTx(cfg, s, s.engine.tx[slot := None]);
    }
  }

  lemma FreeSlotQuiet(order: seq<Call>, e: Engine, slot: Slot, d: Call)
    requires TxOk(e.exchanges, e.tx) && slot < |e.tx| && e.tx[slot].None? && ForTx(order, e, slot) == Some(d)
    ensures d in e.exchanges && Quiet(e.tx, d)
  {
    ForTxFound(order, e, slot);
    forall i | 0 <= i < |e.tx|
      ensures !Mine(e.tx[i], d)
    {
      if Mine(e.tx[i], d) {
        FoundIsMine(e.exchanges, e.tx, d, i);
        assert false;
      }
    }
  }

  /** A failed upload send touches its own call, and the exchange of at most one other. */
  lemma FailUploadKeeps(cfg: Config, s: State, order: seq<Call>, c: Call, own: Exchange, taken: bool)
    requires Inv(cfg, s) && c in s.active && !Contains(s, c) && Quiet(s.engine.tx, c)
    requires own.tx < |s.engine.tx| && s.engine.tx[own.tx].None?
    ensures var after := FailUpload(s, cfg, order, c, own, taken);
            var d := ForTx(order, Recorded(s, c, own, taken).engine, own.tx);
            && Inv(cfg, after) && after.inbox == s.inbox[c := Reply(true, Err(ContinuationFailed), None, None)]
            && (d.None? || d == Some(c) ==> Tame(s, after, c))
            && (d.Some? && d != Some(c) ==> d.value in s.engine.exchanges && Tame(TakeExchange(s, d.value), after, c))
  {
    hide InvRest, TxOk, SendFollowup, Tame, ForTx, Quiet, Recorded;
    var asked := Recorded(s, c, own, taken);
    var d := ForTx(order, asked.engine, own.tx);
    var after := FailUpload(s, cfg, order, c, own, taken);
    RecordedKeeps(cfg, s, c, own, taken);
    if d.None? {
      FollowupKeeps(cfg, asked, c, NotSent);
      TameThen(s, asked, after, c);
    } else {
      var left := TakeExchange(asked, d.value);
      FreeSlotQuiet(order, asked.engine, own.tx, d.value);
      TakeExchangeKeeps(cfg, asked, d.value, None);
      FollowupKeeps(cfg, left, c, NotSent);
      var from := if d == Some(c) then s else TakeExchange(s, d.value);
      assert d != Some(c) ==> d.value in asked.engine.exchanges - {c};
      BothWithout(asked.engine.exchanges, s.engine.exchanges, c, d.value);
      TameLinks(from, left, c);
      TameThen(from, left, after, c);
    }
  }

  lemma BothWithout(m: map<Call, Exchange>, n: map<Call, Exchange>, c: Call, d: Call)
    requires m - {c} == n - {c}
    ensures m - {d} - {c} == n - {d} - {c} && (d == c ==> m - {d} - {c} == n - {c})
  {
    assert m - {d} - {c} == m - {c} - {d} && n - {d} - {c} == n - {c} - {d};
  }

  lemma RecordedKeeps(cfg: Config, s: State, c: Call, own: Exchange, taken: bool)
    requires Inv(cfg, s) && c in s.active && !Contains(s, c) && Quiet(s.engine.tx, c)
    ensures var asked := Recorded(s, c, own, taken);
            && Inv(cfg, asked) && Tame(s, asked, c) && asked == s.(engine := s.engine.(exchanges := asked.engine.exchanges))
            && asked.engine.exchanges - {c} == s.engine.exchanges - {c}
  {
    hide InvRest, TxOk, Tame, Quiet;
    var asked, e := Recorded(s, c, own, taken), s.engine;
    if c in e.exchanges && !taken {
      TameLinks(s, s, c);
    } else {
      assert asked.engine.exchanges == e.exchanges[c := own];
      assert PlaceUpload(e.uploads, None, c, TagOf(s, c)) == e.uploads;
      assert asked == SendFollowup(s, cfg, c, Sent(Some(own), None, None));
      FollowupKeeps(cfg, s, c, Sent(Some(own), None, None));
    }
  }

  /** Transmit slots changed without their owners: a retransmission counted, or other work of the
      application in slots that hold no request. */
  lemma TxKeeps(cfg: Config, s: State, tx: seq<Option<Packet>>)
    requires Inv(cfg, s) && TxOk(s.engine.exchanges, tx)
    ensures Inv(cfg, s.(engine := s.engine.(tx := tx)))
  {
    hide InvRest, TxOk;
    RestIgnoresTx(cfg, s, tx);
  }

  lemma RetimedOk(exchanges: map<Call, Exchange>, tx: seq<Option<Packet>>, slot: Slot, rto: Rto)
    requires TxOk(exchanges, tx) && slot < |tx| && tx[slot].Some? && tx[slot].value.pending.Some? && rto.started
    ensures var p := tx[slot].value;
            TxOk(exchanges, tx[slot := Some(p.(pending := Some(p.pending.value.(rto := rto))))])
  {
    forall i | 0 <= i < |tx|
      ensures Attributed(exchanges, tx[i], i)
    {
    }
  }

  /** A slot without a request may be filled by other work that keeps the endpoint limit. */
  predicate OthersSlot(tx: seq<Option<Packet>>, slot: Slot, packet: Option<Packet>) {
    && slot < |tx| && (tx[slot].Some? ==> !tx[slot].value.request)
    && (packet.Some? ==> !packet.value.request
                         && (packet.value.pending.Some? ==> packet.value.pending.value.rto.started
                                                            && !Outstanding(tx[slot := None], packet.value.endpoint)))
  }

  lemma OthersOk(exchanges: map<Call, Exchange>, tx: seq<Option<Packet>>, slot: Slot, packet: Option<Packet>)
    requires TxOk(exchanges, tx) && OthersSlot(tx, slot, packet)
    ensures TxOk(exchanges, tx[slot := packet])
  {
    var after := tx[slot := packet];
    forall i | 0 <= i < |tx|
      ensures Attributed(exchanges, after[i], i)
    {
      assert Attributed(exchanges, tx[i], i);
    }
    forall i | 0 <= i < |tx| && i != slot && tx[i].Some? && tx[i].value.pending.Some?
      ensures packet.Some? && packet.value.pending.Some? ==> tx[i].value.endpoint != packet.value.endpoint
    {
      assert tx[slot := None][i] == tx[i];
    }
  }
}
