/** `revoke_association` in place. */
module ClientRevoke {
  import opened Common
  import opened Engines
  import opened ClientModel
  import opened Clients
  import LiveTable
  import ReplyTable
  import R = Revocation

  /** The calls in the peer's rows, in table order. */
  function CallsOf(rows: LiveTable.Rows, peer: Peer): seq<Call> {
    if rows == [] then [] else
      var last := rows[|rows| - 1];
      CallsOf(rows[..|rows| - 1], peer) + if last.Some? && last.value.call.peer == peer then [last.value.call] else []
  }

  ghost predicate InRow(rows: LiveTable.Rows, c: Call) {
    exists i :: 0 <= i < |rows| && rows[i].Some? && rows[i].value.call == c
  }

  lemma InRowNext(rows: LiveTable.Rows, c: Call)
    requires rows != []
    ensures var n := |rows| - 1;
            InRow(rows, c) <==> InRow(rows[..n], c) || (rows[n].Some? && rows[n].value.call == c)
  {
  }

  lemma {:induction false} CallsOfAre(rows: LiveTable.Rows, peer: Peer, c: Call)
    ensures c in CallsOf(rows, peer) <==> c.peer == peer && InRow(rows, c)
    decreases |rows|
  {
    if rows != [] {
      hide InRow;
      InRowNext(rows, c);
      CallsOfAre(rows[..|rows| - 1], peer, c);
    }
  }

  lemma SnocDistinct(calls: seq<Call>, c: Call)
    requires (forall i, j :: 0 <= i < j < |calls| ==> calls[i] != calls[j]) && c !in calls
    ensures var more := calls + [c]; forall i, j :: 0 <= i < j < |more| ==> more[i] != more[j]
  {
  }

  lemma {:induction false} CallsOfDistinct(rows: LiveTable.Rows, peer: Peer)
    requires LiveTable.Distinct(rows)
    ensures var calls := CallsOf(rows, peer); forall i, j :: 0 <= i < j < |calls| ==> calls[i] != calls[j]
    decreases |rows|
  {
    if rows != [] {
      var n := |rows| - 1;
      CallsOfDistinct(rows[..n], peer);
      if rows[n].Some? {
        var c := rows[n].value.call;
        assert !InRow(rows[..n], c);
        CallsOfAre(rows[..n], peer, c);
        SnocDistinct(CallsOf(rows[..n], peer), c);
      }
    }
  }

  lemma CallsOfNext(rows: LiveTable.Rows, peer: Peer, i: nat)
    requires i < |rows|
    ensures var calls := CallsOf(rows[..i], peer);
            CallsOf(rows[..i + 1], peer)
            == if rows[i].Some? && rows[i].value.call.peer == peer then calls + [rows[i].value.call] else calls
  {
    assert rows[..i + 1][..i] == rows[..i];
  }

  lemma RowsOf(rows: LiveTable.Rows, s: State, c: Call)
    requires LiveTable.Views(rows, s.active, s.retired)
    ensures R.HasRow(s, c) <==> InRow(rows, c)
  {
    if c in s.active {
      assert LiveTable.HasActive(rows, c);
      var i: nat :| LiveTable.IsActive(rows, i, c);
    } else if R.Retires(s.retired, c) {
      var t :| t in s.retired && s.retired[t].call == c;
      assert LiveTable.HasRetired(rows, t);
      var i: nat :| LiveTable.IsRetired(rows, i, t);
      assert LiveTable.Shows(rows[i].value, s.active, s.retired);
    }
    forall i | 0 <= i < |rows| && rows[i].Some? && rows[i].value.call == c
      ensures R.HasRow(s, c)
    {
      assert LiveTable.Shows(rows[i].value, s.active, s.retired);
    }
  }

  lemma CallsListed(rows: LiveTable.Rows, s: State, peer: Peer)
    requires LiveTable.Views(rows, s.active, s.retired)
    ensures R.ListsRows(s, peer, CallsOf(rows, peer))
  {
    hide InRow, R.HasRow, CallsOf;
    CallsOfDistinct(rows, peer);
    forall c: Call
      ensures c in CallsOf(rows, peer) <==> c.peer == peer && R.HasRow(s, c)
    {
      CallsOfAre(rows, peer, c);
      RowsOf(rows, s, c);
    }
  }

  lemma {:induction false} RevokeSnoc(s: State, cfg: Config, calls: seq<Call>, c: Call)
    ensures Revoke(s, cfg, calls + [c]) == RevokeOne(Revoke(s, cfg, calls), cfg, c)
    decreases |calls|
  {
    hide RevokeOne;
    if calls == [] {
      assert ([] + [c])[1..] == [] && ([] + [c])[0] == c;
    } else {
      RevokeSnoc(RevokeOne(s, cfg, calls[0]), cfg, calls[1..], c);
      assert (calls + [c])[1..] == calls[1..] + [c];
    }
  }

  lemma RevokeOneParts(s: State, cfg: Config, c: Call)
    ensures var failed := Fail(s, cfg, c, AssociationRevoked, true);
            RevokeOne(s, cfg, c) == State(failed.active - {c}, Uncooled(failed.retired, {c}), failed.inbox, failed.engine)
  {
    hide Fail, Uncooled;
  }

  method RevokeRow(client: Client, i: nat)
    requires client.Valid() && i < |client.lives.rows| && client.lives.rows[i].Some?
    modifies client`engine, client.lives, client.inbox
    ensures client.Valid()
    ensures client.S() == RevokeOne(old(client.S()), client.cfg, old(client.lives.rows)[i].value.call)
    ensures LiveTable.SameCalls(client.lives.rows, old(client.lives.rows), i + 1)
  {
    hide LiveTable.Views, ReplyTable.Views, RevokeOne, OnePerEndpoint, Fail, Uncooled;
    var call := client.lives.rows[i].value.call;
    RevokeOneParts(client.S(), client.cfg, call);
    client.FailCall(call, AssociationRevoked, true);
    client.lives.Clear(i);
  }

  /** Every row of the peer, active or retired, is failed and cleared. */
  method RevokeRows(client: Client, peer: Peer)
    requires client.Valid()
    modifies client`engine, client.lives, client.inbox
    ensures client.Valid()
    ensures client.S() == Revoke(old(client.S()), client.cfg, CallsOf(old(client.lives.rows), peer))
  {
    hide LiveTable.Views, ReplyTable.Views, Revoke, RevokeOne, OnePerEndpoint, CallsOf;
    ghost var before, s := client.lives.rows, client.S();
    NoCalls(before, s, client.cfg, peer);
    for i := 0 to |client.lives.rows|
      invariant client.Valid() && |client.lives.rows| == |before|
      invariant client.S() == Revoke(s, client.cfg, CallsOf(before[..i], peer))
      invariant LiveTable.SameCalls(client.lives.rows, before, i)
    {
      CallsOfNext(before, peer, i);
      if client.lives.rows[i].Some? && client.lives.rows[i].value.call.peer == peer {
        RevokeSnoc(s, client.cfg, CallsOf(before[..i], peer), before[i].value.call);
        RevokeRow(client, i);
      }
    }
    assert before[..|before|] == before;
  }

  /** `revoke_association`, with the calls it ends. */
  method RevokeAssociation(client: Client, peer: Peer) returns (ghost calls: seq<Call>)
    requires client.Valid()
    modifies client`engine, client.lives, client.inbox
    ensures client.Valid() && R.ListsRows(old(client.S()), peer, calls)
    ensures client.S() == Revoke(old(client.S()), client.cfg, calls)
  {
    hide LiveTable.Views, ReplyTable.Views, Revoke, R.ListsRows, OnePerEndpoint, CallsOf;
    CallsListed(client.lives.rows, client.S(), peer);
    calls := CallsOf(client.lives.rows, peer);
    RevokeRows(client, peer);
  }

  lemma NoCalls(rows: LiveTable.Rows, s: State, cfg: Config, peer: Peer)
    ensures CallsOf(rows[..0], peer) == [] && Revoke(s, cfg, []) == s
  {
  }
}
