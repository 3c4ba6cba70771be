/**
 A request being prepared, reserved and sent. It can be dropped at every await; this module proves
 that dropping it leaves exactly the state it started from, and that committing it is the admission
 step of the client's state machine.
 */
module Prepared {
  import opened Common
  import opened Maps
  import opened Engines
  import opened ClientModel
  import opened LiveTable
  import opened ReplyTable
  import opened Clients
  import Send

  /** A request packet of this call. */
  ghost predicate Own(p: Option<Packet>, c: Call) {
    p.Some? && p.value.request && p.value.endpoint == c.peer && p.value.token == c.token
  }

  /** The call's exchange, if it has one. */
  function ExchangeOf(e: Engine, c: Call): Option<Exchange> {
    if c in e.exchanges then Some(e.exchanges[c]) else None
  }

  /** The sent confirmable the call's exchange names. */
  ghost predicate Retained(p: Option<Packet>, i: nat, x: Option<Exchange>) {
    p.Some? && p.value.pending.Some? && p.value.pending.value.rto.started && x == Some(Exchange(p.value.pending.value.mid, i))
  }

  /** Beyond what was there: this call's sent confirmable, and the packet being staged. */
  ghost predicate TxPart(base: seq<Option<Packet>>, tx: seq<Option<Packet>>, c: Call, x: Option<Exchange>, staged: Option<Slot>) {
    |tx| == |base| && forall i :: 0 <= i < |tx| ==>
      || tx[i] == base[i]
      || (base[i].None? && Own(tx[i], c) && (staged == Some(i) || Retained(tx[i], i, x)))
  }

  ghost predicate StagedOk(base: seq<Option<Packet>>, tx: seq<Option<Packet>>, c: Call, x: Option<Exchange>,
                           staged: Option<Slot>, pending: Option<Pending>) {
    && (staged.None? ==> pending.None?)
    && (pending.Some? && staged.Some? ==>
          !pending.value.rto.started && x == Some(Exchange(pending.value.mid, staged.value)))
    && (staged.Some? ==> && staged.value < |tx| == |base| && base[staged.value].None?
                         && Own(tx[staged.value], c) && tx[staged.value].value.pending == pending)
  }

  ghost predicate UploadPart(base: seq<Option<Upload>>, uploads: seq<Option<Upload>>, c: Call, tag: nat) {
    && |uploads| == |base|
    && (forall u :: 0 <= u < |uploads| ==> uploads[u] == base[u] || (base[u].None? && uploads[u] == Some(Upload(c, tag))))
    && (forall u, v :: 0 <= u < v < |uploads| && uploads[u] != base[u] ==> uploads[v] == base[v])
  }

  /** An engine somewhere between preparation and commitment. */
  ghost predicate Partway(base: Engine, e: Engine, c: Call, tag: nat, staged: Option<Slot>, pending: Option<Pending>) {
    && e.exchanges - {c} == base.exchanges - {c} && e.observes == base.observes && e.rx == base.rx && e.bodies == base.bodies
    && base.bindings <= e.bindings <= base.bindings + {c}
    && TxPart(base.tx, e.tx, c, ExchangeOf(e, c), staged) && StagedOk(base.tx, e.tx, c, ExchangeOf(e, c), staged, pending)
    && UploadPart(base.uploads, e.uploads, c, tag)
  }

  lemma PartwayStart(base: Engine, c: Call, tag: nat)
    ensures Partway(base, base, c, tag, None, None)
  {
  }

  // Dropping.

  function Unstage(e: Engine, c: Call, staged: Option<Slot>, pending: Option<Pending>): Engine {
    var e1 := if pending.Some? && staged.Some? then CancelPending(e, staged.value, c.peer, pending.value).0 else e;
    if staged.Some? then ReleaseTx(e1, staged.value) else e1
  }

  lemma UnstageIs(base: Engine, e: Engine, c: Call, tag: nat, staged: Option<Slot>, pending: Option<Pending>)
    requires Partway(base, e, c, tag, staged, pending)
    ensures Unstage(e, c, staged, pending) == (if staged.Some? then e.(tx := e.tx[staged.value := None]) else e)
    ensures OnePerEndpoint(e.tx) ==> OnePerEndpoint(Unstage(e, c, staged, pending).tx)
  {
    if staged.Some? {
      var i := staged.value;
      assert e.tx[i := Unmarked(e.tx[i])][i := None] == e.tx[i := None];
    }
  }

  lemma DroppedTx(base: seq<Option<Packet>>, tx: seq<Option<Packet>>, c: Call, x: Option<Exchange>, staged: Option<Slot>)
    requires TxPart(base, tx, c, x, staged) && (staged.Some? ==> staged.value < |tx| && base[staged.value].None?)
    ensures TxWithout(if staged.Some? then tx[staged.value := None] else tx, c) == TxWithout(base, c)
  {
    var left := if staged.Some? then tx[staged.value := None] else tx;
    forall i | 0 <= i < |tx|
      ensures TxWithout(left, c)[i] == TxWithout(base, c)[i]
    {
    }
  }

  lemma DroppedUploads(base: seq<Option<Upload>>, uploads: seq<Option<Upload>>, c: Call, tag: nat)
    requires UploadPart(base, uploads, c, tag)
    ensures UploadsWithout(uploads, c) == UploadsWithout(base, c)
  {
    forall u | 0 <= u < |uploads|
      ensures UploadsWithout(uploads, c)[u] == UploadsWithout(base, c)[u]
    {
    }
  }

  /** From anywhere between, cancelling, releasing and abandoning gives what abandoning gives at once. */
  lemma DropRestores(base: Engine, e: Engine, c: Call, tag: nat, staged: Option<Slot>, pending: Option<Pending>)
    requires Partway(base, e, c, tag, staged, pending)
    ensures AbandonSend(Unstage(e, c, staged, pending), c) == AbandonSend(base, c)
  {
    hide Unstage, TxWithout, UploadsWithout;
    UnstageIs(base, e, c, tag, staged, pending);
    DroppedTx(base.tx, e.tx, c, ExchangeOf(e, c), staged);
    DroppedUploads(base.uploads, e.uploads, c, tag);
    assert e.bindings - {c} == base.bindings - {c};
  }

  /** A call the engine knows nothing about has nothing to abandon. */
  ghost predicate Unknown(e: Engine, c: Call) {
    c !in e.exchanges && c !in e.bindings && !Uploading(e.uploads, c) && Quiet(e.tx, c)
  }

  lemma NothingToAbandon(e: Engine, c: Call)
    requires Unknown(e, c)
    ensures AbandonSend(e, c) == e
  {
    assert e.exchanges - {c} == e.exchanges;
    assert e.bindings - {c} == e.bindings;
    assert TxWithout(e.tx, c) == e.tx;
    assert UploadsWithout(e.uploads, c) == e.uploads;
  }

  // Steps.

  lemma StageKeeps(base: Engine, e: Engine, c: Call, tag: nat, slot: Slot, upload: Option<Slot>)
    requires Partway(base, e, c, tag, None, None) && slot < |e.tx| && e.tx[slot].None?
    requires upload.Some? ==> !Uploading(base.uploads, c)
    ensures Partway(base, e.(tx := e.tx[slot := Some(Packet(c.peer, c.token, true, None))],
                             uploads := PlaceUpload(e.uploads, upload, c, tag), bindings := e.bindings + {c}),
                    c, tag, Some(slot), None)
  {
    var placed := PlaceUpload(e.uploads, upload, c, tag);
    if placed != e.uploads {
      assert forall u :: 0 <= u < |e.uploads| ==> e.uploads[u] == base.uploads[u] by {
        if u :| 0 <= u < |e.uploads| && e.uploads[u] != base.uploads[u] {
          assert Uploading(e.uploads, c);
        }
      }
    }
  }

  lemma AdmitKeeps(base: Engine, e: Engine, c: Call, tag: nat, slot: Slot, x: Exchange)
    requires Partway(base, e, c, tag, Some(slot), None) && c !in e.exchanges
    ensures Partway(base, e.(exchanges := e.exchanges[c := x]), c, tag, Some(slot), None)
  {
    assert e.exchanges[c := x] - {c} == e.exchanges - {c};
  }

  lemma ReserveIs(base: Engine, e: Engine, c: Call, tag: nat, slot: Slot, mid: nat)
    requires Partway(base, e, c, tag, Some(slot), None) && ExchangeOf(e, c) == Some(Exchange(mid, slot))
    ensures var (e1, p) := ReservePending(e, slot, c.peer, mid);
            && (p.Some? <==> !Outstanding(e.tx, c.peer))
            && (p.None? ==> e1 == e)
            && (p.Some? ==> p == Some(Pending(mid, RESERVED)) && Partway(base, e1, c, tag, Some(slot), p))
            && slot < |e.tx| && e1 == e.(tx := if p.None? then e.tx else e.tx[slot := Some(Packet(c.peer, c.token, true, p))])
  {
    var (e1, p) := ReservePending(e, slot, c.peer, mid);
    if p.None? {
      assert e1 == e.(tx := e.tx);
    }
  }

  lemma SentKeeps(base: Engine, e: Engine, c: Call, tag: nat, slot: Slot, pending: Option<Pending>, now: nat, jitter: nat)
    requires Partway(base, e, c, tag, Some(slot), pending)
    ensures Partway(base, ReleaseTx(e, slot), c, tag, None, None)
    ensures pending.Some? ==> Partway(base, CommitPending(e, slot, c.peer, pending.value, now, jitter).0, c, tag, None, None)
  {
  }

  /** An owner can always be made for a staged packet: its slot is occupied by exactly its reservation. */
  lemma NeverRefused(base: Engine, e: Engine, c: Call, tag: nat, slot: Slot, pending: Option<Pending>)
    requires Partway(base, e, c, tag, Some(slot), pending)
    ensures !Send.Refuses(e, slot, c.peer, if pending.Some? then Some(pending.value.mid) else None, pending)
    ensures Send.Occupied(e, slot) && Send.Retarget(e, slot, c.peer) == e
  {
    assert e.tx[slot := Some(e.tx[slot].value.(endpoint := c.peer))] == e.tx;
  }

  /** How `accept` ends; `ProgressRequired` is for other work of the application that is due. */
  datatype Acceptance = Taken | Elapsed | ProgressRequired(at: nat) | NotTaken

  /** What is reported when the earlier of the two deadlines is reached. */
  function Overdue(own: Option<nat>, other: Option<nat>): Acceptance {
    var due := EarlierOf(own, other);
    if due.None? then NotTaken else if own == due then Elapsed else ProgressRequired(due.value)
  }

  predicate Reached(at: Option<nat>, now: nat) {
    at.Some? && at.value <= now
  }

  /** The call's own deadline is named when it is the first of the two, and otherwise the other time is. */
  lemma OverdueIs(own: Option<nat>, other: Option<nat>)
    ensures own.Some? && (other.Some? ==> own.value <= other.value) ==> Overdue(own, other) == Elapsed
    ensures other.Some? && (own.Some? ==> other.value < own.value) ==> Overdue(own, other) == ProgressRequired(other.value)
    ensures own.None? && other.None? ==> Overdue(own, other) == NotTaken
  {
  }

  /** What a packet handed to the transport leaves: a confirmable that was taken stays, with its timer running
      from the time the clock then showed; any other slot is free again. */
  function Submitted(e: Engine, slot: Slot, peer: Peer, pending: Option<Pending>, outcome: Send.Outcome): Engine {
    if pending.Some? && outcome.Accepted? && outcome.clock.Some? && slot < |e.tx| && e.tx[slot].Some?
    then e.(tx := e.tx[slot := Some(e.tx[slot].value.(
                                      pending := Some(Pending(pending.value.mid, Started(outcome.clock.value, outcome.jitter)))))])
    else ReleaseTx(e, slot)
  }

  class PreparedCall {
    const client: Client
    const call: Call
    const replacing: bool
    const con: bool
    const tag: nat
    var staged: Option<Slot>
    var mid: nat
    var pending: Option<Pending>
    var live: Option<Live>
    var now: nat
    var accepted: bool
    var owned: bool
    ghost const base: State

    /** Nothing but the engine has changed, and only for this call. */
    ghost predicate Valid()
      reads this, client, client.lives, client.inbox
    {
      && client.Valid() && owned
      && client.S() == base.(engine := client.engine)
      && Partway(base.engine, client.engine, call, tag, staged, pending)
    }

    constructor (app: Client, c: Call, isReplacement: bool, request: Live, time: nat)
      requires app.Valid()
      ensures Valid() && client == app && call == c && replacing == isReplacement && base == app.S()
      ensures staged.None? && pending.None? && live == Some(request) && now == time && con == request.con && tag == request.tag
      ensures !accepted
    {
      client, call, replacing, con, tag := app, c, isReplacement, request.con, request.tag;
      staged, mid, pending, live, now, accepted, owned := None, 0, None, Some(request), time, false, true;
      base := app.S();
      new;
      PartwayStart(base.engine, call, tag);
    }

    /** `stage_client` or `stage_next_q`: a free slot is filled, an upload may begin. */
    method Stage(slot: Slot, upload: Option<Slot>, messageId: nat) returns (ok: bool)
      requires Valid() && staged.None? && (upload.Some? ==> !Uploading(base.engine.uploads, call))
      modifies this, client`engine
      ensures Valid() && (ok ==> staged == Some(slot) && pending.None? && mid == messageId)
      ensures ok <==> slot < |old(client.engine.tx)| && old(client.engine).tx[slot].None?
      ensures !ok ==> staged.None? && client.engine == old(client.engine)
      ensures ok ==> client.engine == old(client.engine).(
                       tx := old(client.engine).tx[slot := Some(Packet(call.peer, call.token, true, None))],
                       uploads := PlaceUpload(old(client.engine).uploads, upload, call, tag),
                       bindings := old(client.engine).bindings + {call})
      ensures live == old(live) && now == old(now) && !accepted
    {
      hide LiveTable.Views, ReplyTable.Views, Partway, PlaceUpload, Uploading;
      accepted := false;
      if slot >= |client.engine.tx| || client.engine.tx[slot].Some? { return false; }
      Unpending();
      StageKeeps(base.engine, client.engine, call, tag, slot, upload);
      client.engine := client.engine.(
        tx := client.engine.tx[slot := Some(Packet(call.peer, call.token, true, None))],
        uploads := PlaceUpload(client.engine.uploads, upload, call, tag),
        bindings := client.engine.bindings + {call});
      staged, mid := Some(slot), messageId;
      return true;
    }

    lemma Unpending()
      requires Valid() && staged.None?
      ensures pending.None?
    {
    }

    /** `admit`: the exchange is recorded once, and a confirmable, of which there is only one, reserves
        its endpoint. */
    method Admit(room: bool) returns (ok: bool)
      requires Valid() && staged.Some? && pending.None? && (con ==> call !in client.engine.exchanges)
      modifies this, client`engine
      ensures Valid() && staged == old(staged) && live == old(live) && now == old(now)
      ensures ok <==> (call in old(client.engine).exchanges || room) && (con ==> !Outstanding(old(client.engine).tx, call.peer))
      ensures ok ==> call in client.engine.exchanges && (con <==> pending.Some?)
      ensures call in client.engine.exchanges ==>
                client.engine.exchanges[call] == if call in old(client.engine).exchanges then old(client.engine).exchanges[call]
                                                 else Exchange(mid, staged.value)
      ensures mid == old(mid) && (pending.Some? ==> pending.value == Pending(mid, RESERVED))
      ensures client.engine == old(client.engine).(
                exchanges := if call !in old(client.engine).exchanges && room
                             then old(client.engine).exchanges[call := Exchange(mid, staged.value)] else old(client.engine).exchanges,
                tx := if con && ok && staged.value < |old(client.engine).tx|
                      then old(client.engine).tx[staged.value := Some(Packet(call.peer, call.token, true, Some(Pending(mid, RESERVED))))]
                      else old(client.engine).tx)
    {
      hide LiveTable.Views, ReplyTable.Views, Partway;
      if call !in client.engine.exchanges {
        if !room { return false; }
        AdmitKeeps(base.engine, client.engine, call, tag, staged.value, Exchange(mid, staged.value));
        client.engine := client.engine.(exchanges := client.engine.exchanges[call := Exchange(mid, staged.value)]);
      }
      if con {
        ReserveKeeps(client.engine, staged.value, call.peer, mid);
        ReserveIs(base.engine, client.engine, call, tag, staged.value, mid);
        var (e, reserved) := ReservePending(client.engine, staged.value, call.peer, mid);
        client.engine := e;
        if reserved.None? { return false; }
        pending := reserved;
      }
      return true;
    }

    /** The staged packet is handed to its send owner; either way it is not staged any more. */
    method Submit(outcome: Send.Outcome) returns (ok: bool)
      requires Valid() && staged.Some?
      modifies this, client`engine
      ensures Valid() && staged.None? && pending.None? && !accepted && live == old(live) && now == old(now)
      ensures client.engine.exchanges == old(client.engine.exchanges)
      ensures ok <==> outcome.Accepted? && (old(pending).Some? ==> outcome.clock.Some?)
      ensures client.engine == Submitted(old(client.engine), old(staged).value, call.peer, old(pending), outcome)
    {
      hide LiveTable.Views, ReplyTable.Views, Partway, Send.Refuses, OnePerEndpoint;
      ghost var e := client.engine;
      var slot, p := staged.value, pending;
      NeverRefused(base.engine, e, call, tag, slot, p);
      ghost var time := if outcome.Accepted? && outcome.clock.Some? then outcome.clock.value else 0;
      ghost var jitter := if outcome.Accepted? then outcome.jitter else 0;
      SentKeeps(base.engine, e, call, tag, slot, p, time, jitter);
      var expectedMid := if p.Some? then Some(p.value.mid) else None;
      var owner := Send.Prepare(client, slot, call.peer, expectedMid, p);
      staged, pending, accepted := None, None, false;
      ok := Send.Finish(owner.value, outcome);
    }

    /** `accept`, given when other work of the application is due. If that or the deadline has come, nothing
        is sent and the packet stays staged. Otherwise, whatever the transport and the clock do, the slot
        is this call's own pending packet or it is free again, and the request goes ahead only if it was
        sent and the clock then shows a time that has not gone back and is before the deadline. */
    method Transmit(outcome: Send.Outcome, other: Option<nat>) returns (r: Acceptance)
      requires Valid() && staged.Some? && live.Some?
      modifies this, client`engine
      ensures Valid() && live == old(live) && accepted == r.Taken?
      ensures client.engine.exchanges == old(client.engine.exchanges)
      ensures if Reached(live.value.deadline, old(now)) || Reached(other, old(now)) then
                && r == Overdue(live.value.deadline, other)
                && staged == old(staged) && pending == old(pending) && now == old(now) && client.engine == old(client.engine)
              else
                && staged.None? && pending.None?
                && client.engine == Submitted(old(client.engine), old(staged).value, call.peer, old(pending), outcome)
                && (outcome.Dropped? ==> r == Overdue(live.value.deadline, other))
                && (r.Taken? <==> && outcome.Accepted? && outcome.clock.Some? && outcome.clock.value >= old(now)
                                  && (live.value.deadline.Some? ==> outcome.clock.value < live.value.deadline.value))
                && (r.Taken? ==> now == outcome.clock.value)
                && (outcome.Accepted? && outcome.clock.Some? && outcome.clock.value >= old(now) && !r.Taken? ==> r == Elapsed)
    {
      hide LiveTable.Views, ReplyTable.Views, Partway, OnePerEndpoint;
      var own := live.value.deadline;
      var due := EarlierOf(own, other);
      if due.Some? && due.value <= now {
        accepted := false;
        return Overdue(own, other);
      }
      var ok := Submit(outcome);
      if outcome.Dropped? { return Overdue(own, other); }
      if !ok || outcome.clock.None? { return NotTaken; }
      if outcome.clock.value < now { return NotTaken; }
      now := outcome.clock.value;
      if own.Some? && now >= own.value { return Elapsed; }
      accepted := true;
      return Taken;
    }

    /** `drop`: the engine is as if the call had been abandoned where it started. */
    method Drop()
      requires Valid()
      modifies this, client`engine
      ensures client.Valid() && client.S() == Abandon(base, call)
      ensures Unknown(base.engine, call) ==> client.S() == base
    {
      hide LiveTable.Views, ReplyTable.Views, Partway, OnePerEndpoint, AbandonSend;
      UnstageIs(base.engine, client.engine, call, tag, staged, pending);
      DropRestores(base.engine, client.engine, call, tag, staged, pending);
      client.engine := Unstage(client.engine, call, staged, pending);
      staged, pending, owned := None, None, false;
      client.AbandonCall(call);
      if Unknown(base.engine, call) {
        NothingToAbandon(base.engine, call);
      }
    }

    /** `commit`: the call is installed; a replaced call's recorded failure goes. */
    method Commit()
      requires Valid() && staged.None? && live.Some? && accepted
      requires call in base.active || |base.active| + |base.retired| < client.cfg.calls
      requires forall t :: t in base.retired ==> base.retired[t].call != call
      requires call in base.inbox ==> replacing && base.inbox[call].datagram.None?
      modifies this, client`engine, client.lives, client.inbox
      ensures client.Valid() && live.None? && !owned
      ensures var installed := old(live).value.(due := Lifetime(old(live).value, now));
              client.S() == State(base.active[call := installed], base.retired, base.inbox - {call}, old(client.engine))
    {
      hide LiveTable.Views, ReplyTable.Views, Partway, OnePerEndpoint;
      var request := live.value;
      live := None;
      if replacing {
        Same(base.inbox, call);
        client.DropDatagram(call);
        client.inbox.Discard(call);
      } else {
        MapSame(base.inbox, call);
      }
      client.lives.Insert(call, request.(due := Lifetime(request, now)));
      owned := false;
    }
  }

  lemma Same(inbox: map<Call, Reply>, c: Call)
    ensures c in inbox ==> inbox[c := inbox[c].(datagram := None)] - {c} == inbox - {c}
  {
  }

  // A committed call is an admission step.

  lemma OneUpload(base: seq<Option<Upload>>, uploads: seq<Option<Upload>>, c: Call, tag: nat) returns (slot: Option<Slot>)
    requires UploadPart(base, uploads, c, tag) && !Uploading(base, c)
    ensures PlaceUpload(base, slot, c, tag) == uploads
  {
    if u :| 0 <= u < |uploads| && uploads[u] != base[u] {
      slot := Some(u);
      assert uploads == base[u := Some(Upload(c, tag))];
    } else {
      slot := None;
      assert uploads == base;
    }
  }

  lemma OnePacket(base: seq<Option<Packet>>, tx: seq<Option<Packet>>, c: Call, x: Exchange) returns (timer: Option<Rto>)
    requires TxPart(base, tx, c, Some(x), None) && OnePerEndpoint(tx)
    ensures PlacePacket(base, c, x, timer) == tx
  {
    if i :| 0 <= i < |tx| && tx[i] != base[i] {
      timer := Some(tx[i].value.pending.value.rto);
      assert forall j :: 0 <= j < |tx| && j != i ==> tx[j] == base[j];
      assert tx == base[i := tx[i]];
      assert !Outstanding(base, c.peer);
    } else {
      timer := None;
      assert tx == base;
    }
  }

  /** What a committed call leaves in the engine is what the admission step installs. */
  lemma CommitIsLaunch(base: State, e: Engine, c: Call, live: Live) returns (x: Sending)
    requires Partway(base.engine, e, c, live.tag, None, None) && OnePerEndpoint(e.tx)
    requires c in e.exchanges && !Uploading(base.engine.uploads, c)
    ensures State(base.active[c := live], base.retired, base.inbox - {c}, e) == Launch(base, c, live, x)
  {
    hide PlacePacket, PlaceUpload, Uploading, OnePerEndpoint;
    var slot := OneUpload(base.engine.uploads, e.uploads, c, live.tag);
    var timer := OnePacket(base.engine.tx, e.tx, c, e.exchanges[c]);
    x := Sending(e.exchanges[c], timer, slot, c in e.bindings);
    OneMore(base.engine.exchanges, e.exchanges, c);
    assert e.bindings == if x.bound then base.engine.bindings + {c} else base.engine.bindings;
  }

  lemma OneMore(base: map<Call, Exchange>, exchanges: map<Call, Exchange>, c: Call)
    requires exchanges - {c} == base - {c} && c in exchanges
    ensures exchanges == base[c := exchanges[c]]
  {
    forall d | d in base && d != c
      ensures d in exchanges && exchanges[d] == base[d]
    {
      assert d in base - {c} && (base - {c})[d] == base[d];
    }
    forall d | d in exchanges && d != c
      ensures d in base
    {
      assert d in exchanges - {c};
    }
  }
}
