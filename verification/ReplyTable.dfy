/** The table of replies waiting to be collected, proved against the map its rows stand for. */
module ReplyTable {
  import opened Common
  import opened Maps
  import opened Slots
  import opened Engines
  import opened ClientModel

  datatype Row = Row(call: Call, reply: Reply)

  type Rows = seq<Option<Row>>

  ghost predicate At(rows: Rows, i: nat, c: Call) {
    i < |rows| && rows[i].Some? && rows[i].value.call == c
  }

  ghost predicate Has(rows: Rows, c: Call) {
    exists i: nat :: At(rows, i, c)
  }

  ghost predicate Distinct(rows: Rows) {
    forall i, j :: 0 <= i < j < |rows| && rows[i].Some? && rows[j].Some? ==> rows[i].value.call != rows[j].value.call
  }

  ghost predicate AllShow(rows: Rows, inbox: map<Call, Reply>) {
    forall i :: 0 <= i < |rows| && rows[i].Some? ==>
      rows[i].value.call in inbox && inbox[rows[i].value.call] == rows[i].value.reply
  }

  /** The rows are exactly these replies. */
  ghost predicate Views(rows: Rows, inbox: map<Call, Reply>) {
    Distinct(rows) && AllShow(rows, inbox) && forall c :: c in inbox ==> Has(rows, c)
  }

  lemma StillThere(rows: Rows, i: nat, row: Option<Row>)
    requires i < |rows|
    ensures forall c :: Has(rows, c) && !At(rows, i, c) ==> Has(rows[i := row], c)
  {
    forall c | Has(rows, c) && !At(rows, i, c)
      ensures Has(rows[i := row], c)
    {
      var j: nat :| At(rows, j, c);
      assert At(rows[i := row], j, c);
    }
  }

  lemma Set(rows: Rows, inbox: map<Call, Reply>, i: nat, c: Call, reply: Reply)
    requires Views(rows, inbox) && i < |rows| && (At(rows, i, c) || (rows[i].None? && c !in inbox))
    ensures Views(rows[i := Some(Row(c, reply))], inbox[c := reply])
  {
    hide Has;
    StillThere(rows, i, Some(Row(c, reply)));
    ThereNow(rows, i, c, reply);
  }

  lemma ThereNow(rows: Rows, i: nat, c: Call, reply: Reply)
    requires i < |rows|
    ensures Has(rows[i := Some(Row(c, reply))], c)
  {
    assert At(rows[i := Some(Row(c, reply))], i, c);
  }

  lemma Drop(rows: Rows, inbox: map<Call, Reply>, i: nat, c: Call)
    requires Views(rows, inbox) && At(rows, i, c)
    ensures Views(rows[i := None], inbox - {c})
  {
    hide Has;
    StillThere(rows, i, None);
  }

  lemma TailViews(rows: Rows, inbox: map<Call, Reply>)
    requires Views(rows, inbox) && rows != []
    ensures rows[0].None? ==> Views(rows[1..], inbox)
    ensures rows[0].Some? ==> rows[0].value.call in inbox && Views(rows[1..], inbox - {rows[0].value.call})
  {
    var tail := rows[1..];
    assert forall i :: 0 <= i < |tail| ==> tail[i] == rows[i + 1];
    forall c | c in inbox && !At(rows, 0, c)
      ensures Has(tail, c)
    {
      var j: nat :| At(rows, j, c);
      assert At(tail, j - 1, c);
    }
  }

  lemma {:induction false} ViewsCount(rows: Rows, inbox: map<Call, Reply>)
    requires Views(rows, inbox)
    ensures Used(rows) == |inbox|
    decreases |rows|
  {
    if rows == [] {
      assert forall c :: !Has([], c);
      assert inbox == map[];
    } else {
      hide Views;
      TailViews(rows, inbox);
      if rows[0].None? {
        ViewsCount(rows[1..], inbox);
      } else {
        ViewsCount(rows[1..], inbox - {rows[0].value.call});
        MapMinus(inbox, rows[0].value.call);
      }
    }
  }

  class ClientInbox {
    var rows: Rows
    ghost var inbox: map<Call, Reply>

    ghost predicate Valid()
      reads this
    {
      Views(rows, inbox)
    }

    constructor (calls: nat)
      ensures Valid() && |rows| == calls && inbox == map[]
    {
      rows := seq(calls, _ => None);
      inbox := map[];
    }

    method Find(call: Call) returns (i: nat)
      requires Valid()
      ensures i <= |rows| && (i < |rows| <==> call in inbox)
      ensures i < |rows| ==> At(rows, i, call) && rows[i].value.reply == inbox[call]
    {
      i := 0;
      while i < |rows| && !(rows[i].Some? && rows[i].value.call == call)
        invariant i <= |rows| && forall j: nat :: j < i ==> !At(rows, j, call)
      {
        i := i + 1;
      }
      assert i == |rows| && call in inbox ==> Has(rows, call);
    }

    method Put(i: nat, call: Call, reply: Reply)
      requires Valid() && i < |rows| && (At(rows, i, call) || (rows[i].None? && call !in inbox))
      modifies this
      ensures Valid() && |rows| == |old(rows)| && inbox == old(inbox)[call := reply]
    {
      hide Views;
      Set(rows, inbox, i, call, reply);
      rows := rows[i := Some(Row(call, reply))];
      inbox := inbox[call := reply];
    }

    /** `insert`: the call's own row, or the first free one; refused only when every row is another
        call's, and then nothing changes. */
    method Insert(call: Call, meta: Result<Meta, Failure>, body: Option<Slot>) returns (r: Result<Option<Slot>, ()>)
      requires Valid()
      modifies this
      ensures Valid() && |rows| == |old(rows)|
      ensures r.Ok? <==> call in old(inbox) || |old(inbox)| < |rows|
      ensures r.Ok? ==> r.value == if call in old(inbox) then old(inbox)[call].body else None
      ensures inbox == if r.Ok? then old(inbox)[call := Reply(true, meta, body, None)] else old(inbox)
    {
      hide Views, Used;
      ViewsCount(rows, inbox);
      FullIff(rows);
      var i := Find(call);
      var previous: Option<Slot> := None;
      if i < |rows| {
        previous := rows[i].value.reply.body;
      } else {
        i := FindFree(rows);
        if i == |rows| { return Err(()); }
      }
      Put(i, call, Reply(true, meta, body, None));
      return Ok(previous);
    }

    method TakeDatagram(call: Call) returns (rx: Option<Slot>)
      requires Valid()
      modifies this
      ensures Valid() && |rows| == |old(rows)|
      ensures rx == if call in old(inbox) then old(inbox)[call].datagram else None
      ensures inbox == if call in old(inbox) then old(inbox)[call := old(inbox)[call].(datagram := None)] else old(inbox)
    {
      hide Views;
      var i := Find(call);
      if i == |rows| { return None; }
      rx := rows[i].value.reply.datagram;
      Put(i, call, rows[i].value.reply.(datagram := None));
    }

    /** A row of this call is given the packet it keeps. */
    method SetDatagram(call: Call, rx: Slot) returns (kept: bool)
      requires Valid()
      modifies this
      ensures Valid() && |rows| == |old(rows)| && kept == (call in old(inbox))
      ensures inbox == if kept then old(inbox)[call := old(inbox)[call].(datagram := Some(rx))] else old(inbox)
    {
      hide Views;
      var i := Find(call);
      if i == |rows| { return false; }
      Put(i, call, rows[i].value.reply.(datagram := Some(rx)));
      return true;
    }

    method HoldsDatagram(rx: Slot) returns (held: bool)
      requires Valid()
      ensures held <==> exists c :: c in inbox && inbox[c].datagram == Some(rx)
    {
      held := false;
      for i := 0 to |rows|
        invariant !held && forall j :: 0 <= j < i && rows[j].Some? ==> rows[j].value.reply.datagram != Some(rx)
      {
        if rows[i].Some? && rows[i].value.reply.datagram == Some(rx) {
          assert rows[i].value.call in inbox;
          return true;
        }
      }
      forall c | c in inbox
        ensures inbox[c].datagram != Some(rx)
      {
        assert Has(rows, c);
        var j: nat :| At(rows, j, c);
      }
    }

    method Get(call: Call) returns (reply: Option<Reply>)
      requires Valid()
      ensures reply == if call in inbox then Some(inbox[call]) else None
    {
      var i := Find(call);
      return if i < |rows| then Some(rows[i].value.reply) else None;
    }

    /** `discard`: every row of the call. */
    method Discard(call: Call)
      requires Valid()
      modifies this
      ensures Valid() && |rows| == |old(rows)| && inbox == old(inbox) - {call}
    {
      ghost var before := rows;
      for i := 0 to |rows|
        invariant |rows| == |before| && inbox == old(inbox)
        invariant forall k :: 0 <= k < i ==> rows[k] == if before[k].Some? && before[k].value.call == call then None else before[k]
        invariant forall k :: i <= k < |rows| ==> rows[k] == before[k]
      {
        if rows[i].Some? && rows[i].value.call == call {
          rows := rows[i := None];
        }
      }
      inbox := inbox - {call};
      Discarded(before, old(inbox), rows, call);
    }

    /** `retain_partial`: the first fragment's header is kept with its body. */
    method RetainPartial(call: Call, meta: Meta, body: Slot) returns (r: Result<Option<Slot>, ()>)
      requires Valid()
      modifies this
      ensures Valid() && |rows| == |old(rows)|
      ensures var same := call in old(inbox) && !old(inbox)[call].complete && old(inbox)[call].body == Some(body)
                          && old(inbox)[call].meta.Ok?;
              && (same ==> r == Ok(None) && inbox == old(inbox))
              && (!same ==> && (r.Ok? <==> call in old(inbox) || |old(inbox)| < |rows|)
                            && (r.Ok? ==> r.value == if call in old(inbox) then old(inbox)[call].body else None)
                            && inbox == if r.Ok? then old(inbox)[call := Reply(false, Ok(meta), Some(body), None)] else old(inbox))
    {
      hide Views;
      var held := Get(call);
      if held.Some? && !held.value.complete && held.value.body == Some(body) && held.value.meta.Ok? { return Ok(None); }
      r := Insert(call, Ok(meta), Some(body));
      if r.Ok? {
        var i := Find(call);
        ghost var inserted := inbox;
        Put(i, call, rows[i].value.reply.(complete := false));
        MapTwice(old(inbox), call, inserted[call], Reply(false, Ok(meta), Some(body), None));
      }
    }

    /** `take`: only a complete row leaves, and it leaves for good. */
    method Take(call: Call) returns (reply: Option<Reply>)
      requires Valid()
      modifies this
      ensures Valid() && |rows| == |old(rows)|
      ensures reply == if call in old(inbox) && old(inbox)[call].complete then Some(old(inbox)[call]) else None
      ensures inbox == if reply.Some? then old(inbox) - {call} else old(inbox)
    {
      hide Views;
      var i := Find(call);
      if i == |rows| || !rows[i].value.reply.complete { return None; }
      reply := Some(rows[i].value.reply);
      Drop(rows, inbox, i, call);
      rows := rows[i := None];
      inbox := inbox - {call};
    }
  }

  lemma Discarded(before: Rows, inbox: map<Call, Reply>, after: Rows, call: Call)
    requires Views(before, inbox) && |after| == |before|
    requires forall k :: 0 <= k < |after| ==> after[k] == if before[k].Some? && before[k].value.call == call then None else before[k]
    ensures Views(after, inbox - {call})
  {
    forall c | c in inbox - {call}
      ensures Has(after, c)
    {
      assert Has(before, c);
      var j: nat :| At(before, j, c);
      assert At(after, j, c);
    }
  }
}
