/** Who an inbound response or Reset may end: never a request that is reserved but not yet sent. */
module Authority {
  import opened Common
  import opened Engines
  import opened ClientModel
  import Observe

  // Responses.

  /** Between reservation and commit no response is the call's: the packet is dropped and nothing
      else changes. */
  lemma UnsentIgnoresResponses(s: State, cfg: Config, now: nat, c: Call, rx: Slot, m: Message, env: Env)
    requires c in s.engine.exchanges && Unsent(s.engine, c) && c !in s.engine.observes
    ensures Complete(s, cfg, now, c, rx, m, env) == ReleasePacket(s, rx)
  {
    hide Answer, Fail, StopPending;
  }

  /** Once committed, the same response is the call's. */
  lemma CommittedAccepts(e: Engine, c: Call, now: nat, jitter: nat, kind: Kind, mid: nat)
    requires c in e.exchanges && Unsent(e, c)
    ensures var x := e.exchanges[c];
            var (e1, ok) := CommitPending(e, x.tx, c.peer, PendingAt(e, x.tx).value, now, jitter);
            ok && (MatchesExchange(e1, c, kind, mid) <==> (kind.Ack? ==> mid == x.mid))
  {
  }

  /** A reservation another request made on a reused slot neither blocks the older exchange nor is
      cancelled when that exchange is dropped. */
  lemma ReusedSlotIsForeign(e: Engine, c: Call, release: bool)
    requires c in e.exchanges && PendingAt(e, e.exchanges[c].tx).Some?
    requires var x := e.exchanges[c];
             PendingAt(e, x.tx).value.mid != x.mid || e.tx[x.tx].value.endpoint != c.peer
    ensures !Unsent(e, c)
    ensures DropExchange(e, c, release).tx[e.exchanges[c].tx] == e.tx[e.exchanges[c].tx]
  {
  }

  // Resets.

  /** The table's own order decides which exchange is found first. */
  ghost predicate Enumerates(order: seq<Call>, e: Engine) {
    && (forall i :: 0 <= i < |order| ==> order[i] in e.exchanges)
    && (forall c :: c in e.exchanges ==> c in order)
  }

  /** `exchange_for_tx`. */
  function ForTx(order: seq<Call>, e: Engine, tx: Slot): Option<Call> {
    if order == [] then None
    else if order[0] in e.exchanges && e.exchanges[order[0]].tx == tx then Some(order[0])
    else ForTx(order[1..], e, tx)
  }

  /** `exchange_for_mid`. */
  function ForMid(order: seq<Call>, e: Engine, mid: nat, peer: Peer): Option<Call> {
    if order == [] then None
    else if order[0] in e.exchanges && e.exchanges[order[0]].mid == mid && order[0].peer == peer then Some(order[0])
    else ForMid(order[1..], e, mid, peer)
  }

  lemma {:induction false} ForTxFound(order: seq<Call>, e: Engine, tx: Slot)
    ensures var r := ForTx(order, e, tx);
            && (r.Some? ==> r.value in order && r.value in e.exchanges && e.exchanges[r.value].tx == tx)
            && (r.None? ==> forall c :: c in order && c in e.exchanges ==> e.exchanges[c].tx != tx)
  {
    if order != [] {
      ForTxFound(order[1..], e, tx);
    }
  }

  /** And it is the first such call in the table's order. */
  lemma {:induction false} ForTxFirst(order: seq<Call>, e: Engine, tx: Slot, k: nat)
    requires k < |order| && order[k] in e.exchanges && e.exchanges[order[k]].tx == tx
    requires forall j :: 0 <= j < k && order[j] in e.exchanges ==> e.exchanges[order[j]].tx != tx
    ensures ForTx(order, e, tx) == Some(order[k])
    decreases k
  {
    if k > 0 {
      assert forall j :: 0 <= j < k ==> order[1..][j] == order[j + 1];
      ForTxFirst(order[1..], e, tx, k - 1);
    }
  }

  lemma {:induction false} ForMidFound(order: seq<Call>, e: Engine, mid: nat, peer: Peer)
    ensures var r := ForMid(order, e, mid, peer);
            r.Some? ==> r.value in e.exchanges && e.exchanges[r.value].mid == mid && r.value.peer == peer
  {
    if order != [] {
      ForMidFound(order[1..], e, mid, peer);
    }
  }

  /** The call `complete_client_rst` fails for a Reset with this Message ID from this peer. */
  function ResetTarget(order: seq<Call>, e: Engine, mid: nat, peer: Peer): Option<Call> {
    var tx := LookupPending(e.tx, mid, peer);
    var owner := if tx.Some? then ForTx(order, e, tx.value) else None;
    if owner.Some? then owner else
      var named := ForMid(order, e, mid, peer);
      if named.Some? && named.value in e.exchanges && !Unsent(e, named.value) then named else None
  }

  /** No Reset, whatever its Message ID and sender, ends a call whose request is not yet sent. */
  lemma ResetSparesUnsent(order: seq<Call>, e: Engine, mid: nat, peer: Peer, c: Call)
    requires c in e.exchanges && Unsent(e, c)
    ensures ResetTarget(order, e, mid, peer) != Some(c)
  {
    ForMidFound(order, e, mid, peer);
    var tx := LookupPending(e.tx, mid, peer);
    if tx.Some? {
      ForTxFound(order, e, tx.value);
    }
  }

  /** Whatever it ends has an exchange. */
  lemma ResetTargetsExchange(order: seq<Call>, e: Engine, mid: nat, peer: Peer)
    ensures var r := ResetTarget(order, e, mid, peer); r.Some? ==> r.value in e.exchanges
  {
    ForMidFound(order, e, mid, peer);
    var tx := LookupPending(e.tx, mid, peer);
    if tx.Some? {
      ForTxFound(order, e, tx.value);
    }
  }

  /** A Reset: the call it is taken for fails, and the packet it answers is released. */
  function ResetBy(s: State, cfg: Config, order: seq<Call>, mid: nat, peer: Peer): State {
    var c := ResetTarget(order, s.engine, mid, peer);
    StopPending(if c.Some? then Fail(s, cfg, c.value, Reset, false) else s, mid, peer)
  }

  /** A packet given up, after its last attempt or a send in doubt: whichever call the table finds for
      its slot fails, and the slot is released. */
  function GiveUp(s: State, cfg: Config, order: seq<Call>, slot: Slot, failure: Failure): State {
    var c := ForTx(order, s.engine, slot);
    var failed := if c.Some? then Fail(s, cfg, c.value, failure, false) else s;
    failed.(engine := ReleaseTx(failed.engine, slot))
  }

  /** `record_request` of a further upload packet: an entry the call still has stays as it is, one that
      was taken beforehand is made anew. */
  function Recorded(s: State, c: Call, own: Exchange, taken: bool): State {
    var left := if taken then s.engine.exchanges - {c} else s.engine.exchanges;
    s.(engine := s.engine.(exchanges := if c in left then left else left[c := own]))
  }

  /** A further upload packet is recorded and its send fails: `drop_exchange_for_tx` takes the first
      exchange that names its slot, and the call fails. */
  function FailUpload(s: State, cfg: Config, order: seq<Call>, c: Call, own: Exchange, taken: bool): State {
    var asked := Recorded(s, c, own, taken);
    var d := ForTx(order, asked.engine, own.tx);
    SendFollowup(if d.Some? then TakeExchange(asked, d.value) else asked, cfg, c, NotSent)
  }

  /** The call whose own request carried this Message ID to this peer. */
  ghost predicate Sent(e: Engine, c: Call, mid: nat, peer: Peer) {
    c in e.exchanges && e.exchanges[c].mid == mid && c.peer == peer
  }

  /** A packet pending in this slot: what a Reset or the last retransmission is about. */
  ghost predicate PendingIn(e: Engine, mid: nat, peer: Peer, tx: Slot) {
    LookupPending(e.tx, mid, peer) == Some(tx)
  }

  /** Every exchange that names the slot belongs to the packet now in it. */
  ghost predicate SlotIsOwn(e: Engine, mid: nat, peer: Peer, tx: Slot) {
    forall c :: c in e.exchanges && e.exchanges[c].tx == tx ==> Sent(e, c, mid, peer)
  }

  /** In every table order a Reset, or a retransmission given up, ends only the call whose own
      request is pending, if and only if no foreign exchange still names the slot. */
  lemma EndsOnlyTheSenderIff(e: Engine, mid: nat, peer: Peer, tx: Slot)
    requires PendingIn(e, mid, peer, tx)
    ensures (forall order :: Enumerates(order, e) && ResetTarget(order, e, mid, peer).Some? ==>
               Sent(e, ResetTarget(order, e, mid, peer).value, mid, peer)) <==> SlotIsOwn(e, mid, peer, tx)
    ensures (forall order :: Enumerates(order, e) && ForTx(order, e, tx).Some? ==>
               Sent(e, ForTx(order, e, tx).value, mid, peer)) <==> SlotIsOwn(e, mid, peer, tx)
  {
    if SlotIsOwn(e, mid, peer, tx) {
      forall order | Enumerates(order, e)
        ensures ResetTarget(order, e, mid, peer).Some? ==> Sent(e, ResetTarget(order, e, mid, peer).value, mid, peer)
        ensures ForTx(order, e, tx).Some? ==> Sent(e, ForTx(order, e, tx).value, mid, peer)
      {
        ForTxFound(order, e, tx);
        ForMidFound(order, e, mid, peer);
      }
    } else {
      var d :| d in e.exchanges && e.exchanges[d].tx == tx && !Sent(e, d, mid, peer);
      var rest := Sequence(e.exchanges.Keys);
      var order := [d] + rest;
      assert Enumerates(order, e);
      assert ForTx(order, e, tx) == Some(d);
      assert ResetTarget(order, e, mid, peer) == Some(d);
    }
  }

  /** A failed upload send takes no other call's exchange, in any table order, if and only if no other
      call's exchange names its slot. */
  lemma RobsNoneIff(s: State, c: Call, own: Exchange, taken: bool)
    ensures var e := Recorded(s, c, own, taken).engine;
            (forall order :: Enumerates(order, e) && ForTx(order, e, own.tx).Some? ==> ForTx(order, e, own.tx) == Some(c)) <==>
              forall d :: d in s.engine.exchanges && s.engine.exchanges[d].tx == own.tx ==> d == c
  {
    var e, slot := Recorded(s, c, own, taken).engine, own.tx;
    assert forall d :: d != c ==> (d in e.exchanges <==> d in s.engine.exchanges);
    assert forall d :: d != c && d in e.exchanges ==> e.exchanges[d] == s.engine.exchanges[d];
    if forall d :: d in s.engine.exchanges && s.engine.exchanges[d].tx == slot ==> d == c {
      forall order | Enumerates(order, e) && ForTx(order, e, slot).Some?
        ensures ForTx(order, e, slot) == Some(c)
      {
        ForTxFound(order, e, slot);
      }
    } else {
      var d :| d in s.engine.exchanges && s.engine.exchanges[d].tx == slot && d != c;
      var rest := Sequence(e.exchanges.Keys);
      var order := [d] + rest;
      assert Enumerates(order, e);
      assert ForTx(order, e, slot) == Some(d);
    }
  }

  /** With nothing pending under the Message ID, only its own sender can be meant. */
  lemma ResetByMessageId(order: seq<Call>, e: Engine, mid: nat, peer: Peer)
    requires LookupPending(e.tx, mid, peer).None?
    ensures var r := ResetTarget(order, e, mid, peer); r.Some? ==> Sent(e, r.value, mid, peer)
  {
    ForMidFound(order, e, mid, peer);
  }

  lemma {:induction false} Sequence(calls: set<Call>) returns (order: seq<Call>)
    ensures forall c :: c in calls <==> c in order
    decreases |calls|
  {
    if calls == {} {
      order := [];
    } else {
      var c :| c in calls;
      var rest := Sequence(calls - {c});
      order := [c] + rest;
    }
  }
}
