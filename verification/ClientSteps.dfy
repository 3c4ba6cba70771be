/** Storing, assembling and answering keep the client's invariant and disturb no other call. */
module ClientSteps {
  import opened Common
  import opened Engines
  import opened ClientModel
  import opened ClientInvariant
  import Observe

  // What an operation on one call leaves alone.

  /** An occupied receive packet that no reply row holds. */
  ghost predicate Loose(s: State, x: Slot) {
    x in s.engine.rx && forall c :: c in s.inbox ==> s.inbox[c].datagram != Some(x)
  }

  /** Nothing of this call changes but, at most, a cooldown running out; who may stop the packet it has
      pending is another matter. */
  ghost predicate SameFor(s: State, after: State, d: Call) {
    && (d in after.inbox <==> d in s.inbox) && (d in s.inbox ==> after.inbox[d] == s.inbox[d])
    && (d in after.engine.exchanges <==> d in s.engine.exchanges)
    && (d in s.engine.exchanges ==> after.engine.exchanges[d] == s.engine.exchanges[d])
    && (d in after.engine.observes <==> d in s.engine.observes)
    && (d in after.active <==> d in s.active)
    && (d in s.active ==> after.active[d] == s.active[d].(backoff := after.active[d].backoff))
    && SameHoldings(s.engine, after.engine, d)
  }

  /** Other calls are untouched, and packets not retained in rows stay as they are. */
  ghost predicate Tame(s: State, after: State, c: Call) {
    && (forall d :: d != c ==> SameFor(s, after, d))
    && (forall x :: Loose(after, x) <==> Loose(s, x))
  }

  /** Engine bookkeeping of the call itself. */
  lemma TameEngine(s: State, after: State, c: Call)
    requires after.active == s.active && after.inbox == s.inbox && after.engine.rx == s.engine.rx
    requires after.engine.exchanges - {c} == s.engine.exchanges - {c} && after.engine.observes - {c} == s.engine.observes - {c}
    requires OnlyOf(s.engine, after.engine, c)
    ensures Tame(s, after, c)
  {
    hide SameHoldings;
    forall d | d != c
      ensures SameFor(s, after, d)
    {
      assert d in s.engine.exchanges <==> d in s.engine.exchanges - {c};
      assert d in after.engine.exchanges <==> d in after.engine.exchanges - {c};
      assert d in s.engine.exchanges ==> (s.engine.exchanges - {c})[d] == s.engine.exchanges[d];
      assert d in after.engine.exchanges ==> (after.engine.exchanges - {c})[d] == after.engine.exchanges[d];
      assert d in s.engine.observes <==> d in s.engine.observes - {c};
      assert d in after.engine.observes <==> d in after.engine.observes - {c};
    }
  }

  /** Only the call's exchange, interest or packets. */
  lemma TameLinks(s: State, after: State, c: Call)
    requires after == s.(engine := s.engine.(exchanges := after.engine.exchanges, observes := after.engine.observes, tx := after.engine.tx))
    requires after.engine.exchanges - {c} == s.engine.exchanges - {c} && after.engine.observes - {c} == s.engine.observes - {c}
    ensures Tame(s, after, c)
  {
    hide Tame;
    TameEngine(s, after, c);
  }

  lemma TameTimes(s: State, after: State, c: Call)
    requires after.inbox == s.inbox && after.engine == s.engine && after.active.Keys == s.active.Keys
    requires forall d :: d in s.active && d != c ==> after.active[d] == s.active[d].(backoff := after.active[d].backoff)
    ensures Tame(s, after, c)
  {
    assert forall d :: d in after.active <==> d in after.active.Keys;
    assert forall d :: d in s.active <==> d in s.active.Keys;
  }

  lemma ExpireTame(s: State, now: nat, c: Call)
    ensures Tame(s, ExpireBackoffs(s, now), c)
  {
    TameTimes(s, ExpireBackoffs(s, now), c);
  }

  lemma BackoffTame(s: State, c: Call, m: Message, now: nat)
    ensures Tame(s, RecordBackoff(s, c, m, now), c)
  {
    hide Tame;
    TameTimes(s, RecordBackoff(s, c, m, now), c);
  }

  lemma ObservationTame(s: State, c: Call, n: Observe.Notification)
    ensures Tame(s, RecordObservation(s, c, n), c)
  {
    hide Tame, Observe.Recorded;
    TameTimes(s, RecordObservation(s, c, n), c);
  }

  lemma TameThen(s: State, mid: State, after: State, c: Call)
    requires Tame(s, mid, c) && Tame(mid, after, c)
    ensures Tame(s, after, c)
  {
    hide Loose, SameFor;
    forall d | d != c
      ensures SameFor(s, after, d)
    {
      assert SameFor(s, mid, d) && SameFor(mid, after, d);
      SameForThen(s, mid, after, d);
    }
  }

  lemma SameForThen(s: State, mid: State, after: State, d: Call)
    requires SameFor(s, mid, d) && SameFor(mid, after, d)
    ensures SameFor(s, after, d)
  {
    hide SameHoldings;
    HoldingsThen(s.engine, mid.engine, after.engine, d);
  }

  /** Giving back what a row held, and only that, leaves the loose packets as they are. */
  lemma LooseSame(s: State, after: State, c: Call, x: Slot)
    requires forall d :: d != c ==> (d in after.inbox <==> d in s.inbox)
    requires forall d :: d != c && d in s.inbox ==> after.inbox[d] == s.inbox[d]
    requires c in after.inbox ==> after.inbox[c].datagram.None?
    requires after.engine.rx == (if c in s.inbox && s.inbox[c].datagram.Some? then s.engine.rx - {s.inbox[c].datagram.value}
                                 else s.engine.rx)
    ensures Loose(after, x) <==> Loose(s, x)
  {
    if Loose(after, x) {
      forall d | d in s.inbox
        ensures s.inbox[d].datagram != Some(x)
      {
        if d != c {
          assert d in after.inbox;
        }
      }
    }
  }

  lemma DatagramTame(full: bool, s: State, c: Call)
    requires Packets(full, s.inbox, s.engine.rx)
    ensures Tame(s, DropDatagram(s, c), c)
  {
    hide Loose;
    var after := DropDatagram(s, c);
    if c in s.inbox && s.inbox[c].datagram.Some? {
      forall x
        ensures Loose(after, x) <==> Loose(s, x)
      {
        LooseSame(s, after, c, x);
      }
    }
  }

  lemma DatagramKeeps(cfg: Config, s: State, c: Call, hole: Hole)
    requires InvBut(cfg, s, hole)
    ensures InvBut(cfg, DropDatagram(s, c), hole)
    ensures var after := DropDatagram(s, c);
            && after.inbox.Keys == s.inbox.Keys && (c in after.inbox ==> after.inbox[c].datagram.None?)
            && (c in s.inbox ==> after.inbox[c] == s.inbox[c].(datagram := None))
            && after.active == s.active && after.engine == s.engine.(rx := after.engine.rx)
            && Tame(s, after, c)
  {
    hide Sizes, Owned, Rows, Packets, Bodies, Uploads, Lives, Credited, TxOk, Tame;
    var after := DropDatagram(s, c);
    DatagramTame(cfg.full, s, c);
    DatagramIs(s, c);
    DatagramRows(s, c);
    DatagramSlots(cfg.full, s, c, hole);
    assert after.inbox.Keys == s.inbox.Keys;
    if Credited(cfg, s.active.Keys, s.inbox) {
      CreditsShrink(cfg, s.active.Keys, s.inbox, after.active.Keys, after.inbox);
    }
  }

  lemma DatagramRows(s: State, c: Call)
    ensures var after := DropDatagram(s, c);
            Rows(s.active, s.inbox, s.engine.exchanges.Keys, s.engine.observes, s.engine.uploads) ==>
              Rows(after.active, after.inbox, after.engine.exchanges.Keys, after.engine.observes, after.engine.uploads)
  {
    hide Uploading;
  }

  lemma DatagramSlots(full: bool, s: State, c: Call, hole: Hole)
    ensures var after := DropDatagram(s, c);
            && (Packets(full, s.inbox, s.engine.rx) ==> Packets(full, after.inbox, after.engine.rx))
            && (Bodies(s.inbox, s.engine.bodies, hole) ==> Bodies(after.inbox, after.engine.bodies, hole))
  {
    var after := DropDatagram(s, c);
    assert forall d, b: Slot :: Holds(after.inbox, d, b) <==> Holds(s.inbox, d, b);
  }

  // Putting a successful row.

  /** A row that may replace what the call has, given the body it was just admitted. */
  ghost predicate PutOk(s: State, c: Call, reply: Reply, hole: Hole) {
    && Answerable(s, c) && reply.meta.Ok? && reply.datagram.None?
    && (c in s.inbox ==> s.inbox[c].datagram.None?)
    && (reply.complete ==> c !in s.engine.exchanges && !Uploading(s.engine.uploads, c))
    && (!reply.complete ==> reply.body.Some?)
    && hole == if reply.body.None? then None else Some((c, reply.body.value))
  }

  lemma PutKeeps(cfg: Config, s: State, c: Call, reply: Reply, hole: Hole)
    requires InvBut(cfg, s, hole) && PutOk(s, c, reply, hole)
    ensures Inv(cfg, PutReply(s, cfg, c, reply))
    ensures Tame(s, PutReply(s, cfg, c, reply), c)
    ensures var after := PutReply(s, cfg, c, reply);
            after.inbox == s.inbox[c := reply] && after.active == s.active && after.retired == s.retired
            && after.engine == s.engine.(bodies := after.engine.bodies)
  {
    hide Sizes, Owned, Rows, Packets, Bodies, Uploads, Lives, Credited, TxOk, Tame, PutReply, OnlyOf;
    var after := PutReply(s, cfg, c, reply);
    PutFits(cfg, s, c, hole);
    PutIs(cfg, s, c, reply);
    PutRows(s, after, c, reply, hole);
    PutOwned(s, after, c, reply);
    PutOnly(s, after, c, reply);
    PutPackets(cfg.full, s, after, c, reply);
    PutSlots(s, after, c, reply, hole);
    PutCredits(cfg, s, after, c, reply);
  }

  lemma PutRows(s: State, after: State, c: Call, reply: Reply, hole: Hole)
    requires PutOk(s, c, reply, hole)
    requires after == State(s.active, s.retired, s.inbox[c := reply], s.engine.(bodies := after.engine.bodies))
    ensures Rows(s.active, s.inbox, s.engine.exchanges.Keys, s.engine.observes, s.engine.uploads) ==>
              Rows(after.active, after.inbox, after.engine.exchanges.Keys, after.engine.observes, after.engine.uploads)
  {
    hide Uploading;
  }

  lemma PutOwned(s: State, after: State, c: Call, reply: Reply)
    requires c in s.active
    requires after == State(s.active, s.retired, s.inbox[c := reply], s.engine.(bodies := after.engine.bodies))
    ensures Owned(s.active.Keys, s.inbox.Keys, s.engine.exchanges.Keys, s.engine.observes, s.engine.bindings) ==>
              Owned(after.active.Keys, after.inbox.Keys, after.engine.exchanges.Keys, after.engine.observes, after.engine.bindings)
  {
  }

  lemma PutOnly(s: State, after: State, c: Call, reply: Reply)
    requires after.engine == s.engine.(bodies := after.engine.bodies)
    requires c in s.inbox && s.inbox[c].body.Some? ==> BodyOf(s.engine.bodies, s.inbox[c].body.value, c)
    requires after.engine.bodies == (if c in s.inbox && s.inbox[c].body.Some? && s.inbox[c].body != reply.body
                                     then s.engine.bodies[s.inbox[c].body.value := None] else s.engine.bodies)
    ensures OnlyOf(s.engine, after.engine, c)
  {
    if c in s.inbox && s.inbox[c].body.Some? && s.inbox[c].body != reply.body {
      BodyOnly(s.engine, after.engine, c, s.inbox[c].body.value);
    }
  }

  lemma PutPackets(full: bool, s: State, after: State, c: Call, reply: Reply)
    requires after.inbox == s.inbox[c := reply] && after.active == s.active
    requires after.engine == s.engine.(bodies := after.engine.bodies)
    requires reply.datagram.None? && (c in s.inbox ==> s.inbox[c].datagram.None?)
    ensures Packets(full, s.inbox, s.engine.rx) ==> Packets(full, after.inbox, after.engine.rx)
    requires OnlyOf(s.engine, after.engine, c)
    ensures c in s.active && Packets(full, s.inbox, s.engine.rx) ==> Tame(s, after, c)
  {
    hide Tame, OnlyOf;
    if c in s.active && Packets(full, s.inbox, s.engine.rx) {
      OverwriteTame(full, s, after, c);
    }
  }

  lemma PutSlots(s: State, after: State, c: Call, reply: Reply, hole: Hole)
    requires hole == if reply.body.None? then None else Some((c, reply.body.value))
    requires after.inbox == s.inbox[c := reply]
    requires c in s.inbox && s.inbox[c].body.Some? ==> BodyOf(s.engine.bodies, s.inbox[c].body.value, c)
    requires after.engine.bodies == (if c in s.inbox && s.inbox[c].body.Some? && s.inbox[c].body != reply.body
                                     then s.engine.bodies[s.inbox[c].body.value := None] else s.engine.bodies)
    ensures Bodies(s.inbox, s.engine.bodies, hole) ==> Bodies(after.inbox, after.engine.bodies, None)
  {
    assert forall d, b: Slot :: d != c ==> (Holds(after.inbox, d, b) <==> Holds(s.inbox, d, b));
    assert forall d, b: Slot :: d != c ==> (BodyOf(after.engine.bodies, b, d) <==> BodyOf(s.engine.bodies, b, d));
    assert forall b: Slot :: BodyOf(after.engine.bodies, b, c) ==> BodyOf(s.engine.bodies, b, c);
  }

  lemma PutCredits(cfg: Config, s: State, after: State, c: Call, reply: Reply)
    requires Answerable(s, c) && after.active == s.active && after.inbox == s.inbox[c := reply]
    ensures Credited(cfg, s.active.Keys, s.inbox) ==> Credited(cfg, after.active.Keys, after.inbox)
  {
    if Credited(cfg, s.active.Keys, s.inbox) {
      CreditsShrink(cfg, s.active.Keys, s.inbox, after.active.Keys, after.inbox);
    }
  }

  /** A stored outcome is there, exactly as stored. */
  lemma StoreKeeps(cfg: Config, s: State, c: Call, meta: Meta, body: Option<Slot>)
    requires InvBut(cfg, s, if body.None? then None else Some((c, body.value)))
    requires Answerable(s, c) && c !in s.engine.exchanges && !Uploading(s.engine.uploads, c)
    ensures Inv(cfg, StoreReply(s, cfg, c, meta, body)) && Tame(s, StoreReply(s, cfg, c, meta, body), c)
    ensures var after := StoreReply(s, cfg, c, meta, body);
            && c in after.inbox && after.inbox[c] == Reply(true, Ok(meta), body, None)
            && after.active == s.active && after.engine.exchanges == s.engine.exchanges && after.engine.uploads == s.engine.uploads
            && (forall x :: Loose(s, x) ==> Loose(after, x))
  {
    hide InvBut, DropDatagram, PutReply, Loose, Uploading;
    var hole := if body.None? then None else Some((c, body.value));
    var mid := DropDatagram(s, c);
    DatagramKeeps(cfg, s, c, hole);
    PutKeeps(cfg, mid, c, Reply(true, Ok(meta), body, None), hole);
    TameThen(s, mid, StoreReply(s, cfg, c, meta, body), c);
  }

  lemma DropUploadOnly(s: State, c: Call)
    ensures var after := DropUpload(s, c);
            after == s.(engine := s.engine.(uploads := after.engine.uploads)) && OnlyOf(s.engine, after.engine, c)
  {
  }

  lemma FailOnly(s: State, after: State, c: Call)
    requires after.engine.bodies == BodiesWithout(s.engine.bodies, c) && after.engine.uploads == DropUpload(s, c).engine.uploads
    requires after.engine.bindings == s.engine.bindings - {c}
    ensures OnlyOf(s.engine, after.engine, c)
  {
    hide DropUpload, SameUploads;
    DropUploadOnly(s, c);
    forall d | d != c
      ensures SameUploads(s.engine.uploads, after.engine.uploads, d)
    {
      assert SameHoldings(s.engine, DropUpload(s, c).engine, d);
    }
    OnlyParts(s.engine, after.engine, c);
  }

  /** A body of the call given back. */
  lemma BodyOnly(e: Engine, after: Engine, c: Call, b: Slot)
    requires BodyOf(e.bodies, b, c) && after.bodies == e.bodies[b := None] && after.uploads == e.uploads
    requires after.bindings - {c} == e.bindings - {c}
    ensures OnlyOf(e, after, c)
  {
    OnlyParts(e, after, c);
  }

  lemma FailTame(cfg: Config, s: State, c: Call, failure: Failure, release: bool, hole: Hole)
    requires InvBut(cfg, s, hole) && c in s.active
    ensures Tame(s, Fail(s, cfg, c, failure, release), c)
  {
    hide Fail, Sizes, Owned, Rows, Packets, Bodies, Uploads, Lives, Credited, TxOk, DropUpload, DropExchange, Tame, OnlyOf;
    FailIs(cfg, s, c, failure, release, hole);
    FailOnly(s, Fail(s, cfg, c, failure, release), c);
    OverwriteTame(cfg.full, s, Fail(s, cfg, c, failure, release), c);
  }

  /** Overwriting a row is tame when the packet it held goes back. */
  lemma OverwriteTame(full: bool, s: State, after: State, c: Call)
    requires Packets(full, s.inbox, s.engine.rx)
    requires c in after.inbox && after.inbox == s.inbox[c := after.inbox[c]] && after.inbox[c].datagram.None?
    requires c in after.active
    requires after.engine.rx == (if c in s.inbox && s.inbox[c].datagram.Some? then s.engine.rx - {s.inbox[c].datagram.value}
                                 else s.engine.rx)
    requires c in s.active && after.active == s.active[c := after.active[c]]
    requires after.engine.exchanges - {c} == s.engine.exchanges - {c} && after.engine.observes - {c} == s.engine.observes - {c}
    requires OnlyOf(s.engine, after.engine, c)
    ensures Tame(s, after, c)
  {
    var moved := s.(engine := after.engine.(rx := s.engine.rx));
    hide Loose, SameHoldings;
    assert OnlyOf(s.engine, moved.engine, c) by { HoldingsIgnoreRx(s.engine, after.engine, s.engine.rx, c); }
    TameEngine(s, moved, c);
    forall d | d != c
      ensures SameFor(s, after, d)
    {
      assert SameFor(s, moved, d);
    }
    forall x
      ensures Loose(after, x) <==> Loose(s, x)
    {
      LooseSame(s, after, c, x);
    }
  }
}
