/**
 Slot ownership across an initial send. The owner is made before anything is sent; dropping it at
 any point before the packet is committed cancels its reservation and releases its slot.
 */
module Send {
  import opened Common
  import opened Engines
  import opened ClientModel
  import opened LiveTable
  import opened ReplyTable
  import opened Clients

  /** `SendOwner::prepare` turns this slot away without touching it: it belongs to other work. */
  predicate Refuses(e: Engine, tx: Slot, dest: Peer, mid: Option<nat>, expected: Option<Pending>) {
    if expected.Some? then
      || PendingAt(e, tx) != expected || expected.value.rto.started
      || e.tx[tx].value.endpoint != dest || Some(expected.value.mid) != mid
    else PendingAt(e, tx).Some?
  }

  function Retarget(e: Engine, tx: Slot, dest: Peer): Engine {
    if tx < |e.tx| && e.tx[tx].Some? then e.(tx := e.tx[tx := Some(e.tx[tx].value.(endpoint := dest))]) else e
  }

  predicate Occupied(e: Engine, tx: Slot) {
    tx < |e.tx| && e.tx[tx].Some?
  }

  class SendOwner {
    const client: Client
    const tx: Slot
    const dest: Peer
    var reserved: Option<Pending>
    var release: bool

    constructor (c: Client, slot: Slot, peer: Peer, r: Option<Pending>)
      ensures client == c && tx == slot && dest == peer && reserved == r && release
    {
      client, tx, dest, reserved, release := c, slot, peer, r, true;
    }

    /** The owned slot carries exactly the owner's reservation. */
    ghost predicate Owns()
      reads this, client
    {
      && release && Occupied(client.engine, tx) && client.engine.tx[tx].value.endpoint == dest
      && PendingAt(client.engine, tx) == reserved && (reserved.Some? ==> !reserved.value.rto.started)
    }

    /** `drop`: before a commit the slot is emptied, after it nothing happens. */
    method Drop()
      requires client.Valid() && (Owns() || (reserved.None? && !release))
      modifies this, client`engine
      ensures client.Valid() && reserved.None?
      ensures client.engine == if old(release) then ReleaseTx(old(client.engine), tx) else old(client.engine)
    {
      if reserved.Some? {
        var (e, ok) := CancelPending(client.engine, tx, dest, reserved.value);
        client.engine := e;
        reserved := None;
      }
      if release {
        client.engine := ReleaseTx(client.engine, tx);
      }
    }

    /** `commit`: a reserved packet starts its timer and stays; anything else is for `drop`. */
    method Commit(now: nat, jitter: nat) returns (ok: bool)
      requires client.Valid() && Owns()
      modifies this, client`engine
      ensures client.Valid() && ok
      ensures old(reserved).None? ==> Owns() && client.engine == old(client.engine) && reserved.None?
      ensures old(reserved).Some? ==>
                && reserved.None? && !release
                && client.engine == CommitPending(old(client.engine), tx, dest, old(reserved).value, now, jitter).0
                && PendingAt(client.engine, tx) == Some(Pending(old(reserved).value.mid, Started(now, jitter)))
    {
      if reserved.Some? {
        var (e, committed) := CommitPending(client.engine, tx, dest, reserved.value, now, jitter);
        if !committed { return false; }
        client.engine := e;
        reserved := None;
        release := false;
      }
      return true;
    }
  }

  /** `SendOwner::prepare`. */
  method Prepare(client: Client, tx: Slot, dest: Peer, mid: Option<nat>, expected: Option<Pending>)
    returns (owner: Option<SendOwner>)
    requires client.Valid()
    modifies client`engine
    ensures client.Valid()
    ensures Refuses(old(client.engine), tx, dest, mid, expected) ==> owner.None? && client.engine == old(client.engine)
    ensures owner.Some? ==> fresh(owner.value) && owner.value.client == client && owner.value.tx == tx && owner.value.dest == dest
                            && owner.value.Owns() && (owner.value.reserved.Some? <==> mid.Some?)
    ensures owner.Some? && expected.Some? ==> owner.value.reserved == expected && client.engine == old(client.engine)
    ensures owner.Some? && mid.None? ==> client.engine == Retarget(old(client.engine), tx, dest)
    ensures !Refuses(old(client.engine), tx, dest, mid, expected) && owner.None? ==>
              client.engine == ReleaseTx(old(client.engine), tx)
    ensures !Refuses(old(client.engine), tx, dest, mid, expected) && expected.Some? ==> owner.Some?
    ensures !Refuses(old(client.engine), tx, dest, mid, expected) && mid.None? && Occupied(old(client.engine), tx) ==> owner.Some?
    ensures !Refuses(old(client.engine), tx, dest, mid, expected) && mid.Some? && expected.None? ==>
              && (owner.Some? <==> Occupied(old(client.engine), tx) && !Outstanding(old(client.engine).tx, dest))
              && (owner.Some? ==> owner.value.reserved == Some(Pending(mid.value, RESERVED))
                                  && client.engine == old(client.engine).(
                                       tx := old(client.engine).tx[tx := Some(old(client.engine).tx[tx].value.(
                                               endpoint := dest, pending := Some(Pending(mid.value, RESERVED))))]))
  {
    hide LiveTable.Views, ReplyTable.Views;
    if expected.Some? {
      var current := PendingAt(client.engine, tx);
      if current != expected || expected.value.rto.started
         || client.engine.tx[tx].value.endpoint != dest || Some(expected.value.mid) != mid {
        return None;
      }
    } else {
      var current := PendingAt(client.engine, tx);
      if current.Some? { return None; }
    }
    var o := new SendOwner(client, tx, dest, expected);
    if !Occupied(client.engine, tx) {
      client.engine := ReleaseTx(client.engine, tx);
      return None;
    }
    client.engine := Retarget(client.engine, tx, dest);
    SameSlot(old(client.engine), tx, dest);
    if mid.Some? && expected.None? {
      var (e, reserved) := ReservePending(client.engine, tx, dest, mid.value);
      ReserveKeeps(client.engine, tx, dest, mid.value);
      client.engine := e;
      if reserved.None? {
        client.engine := ReleaseTx(client.engine, tx);
        return None;
      }
      o.reserved := reserved;
    }
    return Some(o);
  }

  lemma SameSlot(e: Engine, tx: Slot, dest: Peer)
    requires OnePerEndpoint(e.tx) && (PendingAt(e, tx).Some? ==> e.tx[tx].value.endpoint == dest)
    ensures OnePerEndpoint(Retarget(e, tx, dest).tx)
    ensures PendingAt(e, tx).Some? ==> Retarget(e, tx, dest) == e
    ensures ReleaseTx(Retarget(e, tx, dest), tx) == ReleaseTx(e, tx)
    ensures PendingAt(e, tx).None? ==> (Outstanding(Retarget(e, tx, dest).tx, dest) <==> Outstanding(e.tx, dest))
  {
    if Occupied(e, tx) && PendingAt(e, tx).Some? {
      assert e.tx[tx := Some(e.tx[tx].value.(endpoint := dest))] == e.tx;
    }
    if tx < |e.tx| {
      assert Retarget(e, tx, dest).tx[tx := None] == e.tx[tx := None];
    }
    if PendingAt(e, tx).None? {
      var after := Retarget(e, tx, dest).tx;
      assert forall i :: 0 <= i < |after| && after[i].Some? && after[i].value.pending.Some? ==> after[i] == e.tx[i];
      assert forall i :: 0 <= i < |after| && e.tx[i].Some? && e.tx[i].value.pending.Some? ==> after[i] == e.tx[i];
    }
  }

  /** What becomes of a send: dropped before or during transport, refused by it, or accepted, with what
      the clock then says and the jitter drawn for it. */
  datatype Outcome = Dropped | Failed | Accepted(clock: Option<nat>, jitter: nat)

  /** `finish`, `finish_prepared` and `finish_async` once the owner exists: an unsent or uncertain
      packet and its reservation are gone, a sent NON is released without asking the clock, a sent
      CON keeps its slot with a running timer. */
  method Finish(owner: SendOwner, outcome: Outcome) returns (sent: bool)
    requires owner.client.Valid() && owner.Owns()
    modifies owner, owner.client`engine
    ensures owner.client.Valid()
    ensures sent <==> outcome.Accepted? && (old(owner.reserved).Some? ==> outcome.clock.Some?)
    ensures owner.client.engine ==
              if sent && old(owner.reserved).Some?
              then CommitPending(old(owner.client.engine), owner.tx, owner.dest, old(owner.reserved).value,
                                 outcome.clock.value, outcome.jitter).0
              else ReleaseTx(old(owner.client.engine), owner.tx)
  {
    hide LiveTable.Views, ReplyTable.Views;
    sent := outcome.Accepted?;
    if sent && owner.reserved.Some? {
      if outcome.clock.Some? {
        sent := owner.Commit(outcome.clock.value, outcome.jitter);
      } else {
        sent := false;
      }
    }
    owner.Drop();
  }
}
