/**
 The table of live calls: fixed rows scanned in order, some active, some retired to a cooldown.
 Every method is proved against the two maps the rows stand for.
 */
module LiveTable {
  import opened Common
  import opened Maps
  import opened Slots
  import opened Engines
  import opened ClientModel
  import Observe

  datatype Row = Row(call: Call, live: Live, retired: bool)

  type Rows = seq<Option<Row>>

  type Actives = map<Call, Live>
  type Coolings = map<Target, Cooling>

  ghost predicate IsActive(rows: Rows, i: nat, c: Call) {
    i < |rows| && rows[i].Some? && !rows[i].value.retired && rows[i].value.call == c
  }

  ghost predicate IsRetired(rows: Rows, i: nat, t: Target) {
    i < |rows| && rows[i].Some? && rows[i].value.retired && rows[i].value.live.target == t
  }

  /** No call has two rows, and no target two retired ones. */
  ghost predicate Distinct(rows: Rows) {
    && (forall i, j :: 0 <= i < j < |rows| && rows[i].Some? && rows[j].Some? ==> rows[i].value.call != rows[j].value.call)
    && (forall i, j :: 0 <= i < j < |rows| && rows[i].Some? && rows[j].Some? && rows[i].value.retired && rows[j].value.retired ==>
          rows[i].value.live.target != rows[j].value.live.target)
  }

  ghost predicate Shows(row: Row, active: Actives, retired: Coolings) {
    if row.retired then
      && row.live.backoff != 0 && row.live.target in retired
      && retired[row.live.target] == Cooling(row.live.backoff, row.call)
    else row.call in active && active[row.call] == row.live
  }

  ghost predicate HasActive(rows: Rows, c: Call) {
    exists i: nat :: IsActive(rows, i, c)
  }

  ghost predicate HasRetired(rows: Rows, t: Target) {
    exists i: nat :: IsRetired(rows, i, t)
  }

  ghost predicate AllShow(rows: Rows, active: Actives, retired: Coolings) {
    forall i :: 0 <= i < |rows| && rows[i].Some? ==> Shows(rows[i].value, active, retired)
  }

  ghost predicate AllShown(rows: Rows, active: Actives, retired: Coolings) {
    (forall c :: c in active ==> HasActive(rows, c)) && (forall t :: t in retired ==> HasRetired(rows, t))
  }

  /** The rows are exactly these active calls and these cooldowns. */
  ghost predicate Views(rows: Rows, active: Actives, retired: Coolings) {
    Distinct(rows) && AllShow(rows, active, retired) && AllShown(rows, active, retired)
  }

  // One row at a time.

  /** A row other than the one replaced still shows what it showed. */
  lemma StillThere(rows: Rows, i: nat, row: Option<Row>)
    requires i < |rows|
    ensures forall c :: HasActive(rows, c) && !IsActive(rows, i, c) ==> HasActive(rows[i := row], c)
    ensures forall t :: HasRetired(rows, t) && !IsRetired(rows, i, t) ==> HasRetired(rows[i := row], t)
  {
    forall c | HasActive(rows, c) && !IsActive(rows, i, c)
      ensures HasActive(rows[i := row], c)
    {
      var j: nat :| IsActive(rows, j, c);
      assert IsActive(rows[i := row], j, c);
    }
    forall t | HasRetired(rows, t) && !IsRetired(rows, i, t)
      ensures HasRetired(rows[i := row], t)
    {
      var j: nat :| IsRetired(rows, j, t);
      assert IsRetired(rows[i := row], j, t);
    }
  }

  lemma NowThere(rows: Rows, i: nat, row: Row)
    requires i < |rows|
    ensures !row.retired ==> HasActive(rows[i := Some(row)], row.call)
    ensures row.retired ==> HasRetired(rows[i := Some(row)], row.live.target)
  {
    var after := rows[i := Some(row)];
    assert !row.retired ==> IsActive(after, i, row.call);
    assert row.retired ==> IsRetired(after, i, row.live.target);
  }

  /** No other row has this call, nor, for a retired row, this target among retired ones. */
  ghost predicate Alone(rows: Rows, i: nat, row: Row) {
    && (forall j :: 0 <= j < |rows| && j != i && rows[j].Some? ==> rows[j].value.call != row.call)
    && (row.retired ==> forall j :: 0 <= j < |rows| && j != i && rows[j].Some? && rows[j].value.retired ==>
                          rows[j].value.live.target != row.live.target)
  }

  lemma DistinctSet(rows: Rows, i: nat, row: Option<Row>)
    requires Distinct(rows) && i < |rows| && (row.Some? ==> Alone(rows, i, row.value))
    ensures Distinct(rows[i := row])
  {
  }

  lemma OwnRow(rows: Rows, i: nat, c: Call)
    requires Distinct(rows) && IsActive(rows, i, c)
    ensures forall j :: 0 <= j < |rows| && j != i && rows[j].Some? ==> rows[j].value.call != c
  {
  }

  lemma SetActive(rows: Rows, active: Actives, retired: Coolings, i: nat, c: Call, live: Live)
    requires Views(rows, active, retired) && i < |rows|
    requires IsActive(rows, i, c) || (rows[i].None? && forall j :: 0 <= j < |rows| && rows[j].Some? ==> rows[j].value.call != c)
    ensures Views(rows[i := Some(Row(c, live, false))], active[c := live], retired)
  {
    hide HasActive, HasRetired, Distinct;
    if IsActive(rows, i, c) {
      OwnRow(rows, i, c);
    }
    DistinctSet(rows, i, Some(Row(c, live, false)));
    StillThere(rows, i, Some(Row(c, live, false)));
    NowThere(rows, i, Row(c, live, false));
  }

  lemma DropActive(rows: Rows, active: Actives, retired: Coolings, i: nat, c: Call)
    requires Views(rows, active, retired) && IsActive(rows, i, c)
    ensures Views(rows[i := None], active - {c}, retired)
  {
    hide HasActive, HasRetired, Distinct;
    OwnRow(rows, i, c);
    DistinctSet(rows, i, None);
    StillThere(rows, i, None);
  }

  lemma Retire(rows: Rows, active: Actives, retired: Coolings, i: nat, c: Call, live: Live)
    requires Views(rows, active, retired) && IsActive(rows, i, c)
    requires live.target !in retired && live.backoff != 0
    ensures Views(rows[i := Some(Row(c, live, true))], active - {c}, retired[live.target := Cooling(live.backoff, c)])
  {
    hide HasActive, HasRetired, Distinct;
    OwnRow(rows, i, c);
    assert forall j :: 0 <= j < |rows| && rows[j].Some? ==> Shows(rows[j].value, active, retired);
    DistinctSet(rows, i, Some(Row(c, live, true)));
    StillThere(rows, i, Some(Row(c, live, true)));
    NowThere(rows, i, Row(c, live, true));
  }

  lemma Raise(rows: Rows, active: Actives, retired: Coolings, i: nat, t: Target, until: nat)
    requires Views(rows, active, retired) && IsRetired(rows, i, t) && until != 0
    ensures var row := rows[i].value;
            Views(rows[i := Some(row.(live := row.live.(backoff := until)))], active, retired[t := Cooling(until, row.call)])
  {
    hide HasActive, HasRetired;
    var row := rows[i].value;
    var raised := row.(live := row.live.(backoff := until));
    assert Alone(rows, i, raised);
    hide Distinct;
    DistinctSet(rows, i, Some(raised));
    StillThere(rows, i, Some(raised));
    NowThere(rows, i, raised);
  }

  /** A retired row cleared. */
  lemma DropRetired(rows: Rows, active: Actives, retired: Coolings, i: nat, t: Target)
    requires Views(rows, active, retired) && IsRetired(rows, i, t)
    ensures Views(rows[i := None], active, retired - {t})
  {
    hide HasActive, HasRetired;
    DistinctSet(rows, i, None);
    StillThere(rows, i, None);
  }

  /** Clearing a row forgets its call's cooldown and no other. */
  lemma OnlyItsCooling(rows: Rows, active: Actives, retired: Coolings, i: nat)
    requires Views(rows, active, retired) && i < |rows| && rows[i].Some?
    ensures var row := rows[i].value;
            && Uncooled(retired, {row.call}) == (if row.retired then retired - {row.live.target} else retired)
            && (row.retired ==> row.call !in active)
  {
    var row := rows[i].value;
    assert Shows(row, active, retired);
    forall t | t in retired && retired[t].call == row.call
      ensures IsRetired(rows, i, t)
    {
      assert HasRetired(rows, t);
      var j: nat :| IsRetired(rows, j, t);
      assert Shows(rows[j].value, active, retired);
    }
    if row.call in active {
      assert HasActive(rows, row.call);
      var j: nat :| IsActive(rows, j, row.call);
    }
  }

  /** The same calls in the same places, from one row on. */
  predicate SameCalls(a: Rows, b: Rows, from: nat) {
    && |a| == |b|
    && forall k :: from <= k < |a| ==> (a[k].Some? <==> b[k].Some?) && (a[k].Some? ==> a[k].value.call == b[k].value.call)
  }

  // Counting.

  lemma TailThere(rows: Rows)
    requires rows != []
    ensures forall c :: HasActive(rows, c) && !IsActive(rows, 0, c) ==> HasActive(rows[1..], c)
    ensures forall t :: HasRetired(rows, t) && !IsRetired(rows, 0, t) ==> HasRetired(rows[1..], t)
  {
    forall c | HasActive(rows, c) && !IsActive(rows, 0, c)
      ensures HasActive(rows[1..], c)
    {
      var j: nat :| IsActive(rows, j, c);
      assert IsActive(rows[1..], j - 1, c);
    }
    forall t | HasRetired(rows, t) && !IsRetired(rows, 0, t)
      ensures HasRetired(rows[1..], t)
    {
      var j: nat :| IsRetired(rows, j, t);
      assert IsRetired(rows[1..], j - 1, t);
    }
  }

  lemma TailDistinct(rows: Rows)
    requires rows != [] && Distinct(rows)
    ensures Distinct(rows[1..])
    ensures rows[0].Some? ==> Alone(rows, 0, rows[0].value)
    ensures forall i :: 0 <= i < |rows[1..]| ==> rows[1..][i] == rows[i + 1]
  {
  }

  lemma TailViews(rows: Rows, active: Actives, retired: Coolings)
    requires Views(rows, active, retired) && rows != []
    ensures rows[0].None? ==> Views(rows[1..], active, retired)
    ensures rows[0].Some? && !rows[0].value.retired ==>
              rows[0].value.call in active && Views(rows[1..], active - {rows[0].value.call}, retired)
    ensures rows[0].Some? && rows[0].value.retired ==>
              rows[0].value.live.target in retired && Views(rows[1..], active, retired - {rows[0].value.live.target})
  {
    hide HasActive, HasRetired, Distinct;
    TailThere(rows);
    TailDistinct(rows);
    assert rows[0].Some? ==> Shows(rows[0].value, active, retired);
    assert forall i :: 1 <= i < |rows| && rows[i].Some? ==> Shows(rows[i].value, active, retired);
  }

  lemma ViewsNothing(active: Actives, retired: Coolings)
    requires Views([], active, retired)
    ensures active == map[] && retired == map[]
  {
    assert forall c :: !HasActive([], c);
    assert forall t :: !HasRetired([], t);
  }

  lemma {:induction false} ViewsCount(rows: Rows, active: Actives, retired: Coolings)
    requires Views(rows, active, retired)
    ensures Used(rows) == |active| + |retired|
    decreases |rows|
  {
    hide Views;
    if rows == [] {
      ViewsNothing(active, retired);
    } else {
      TailViews(rows, active, retired);
      if rows[0].None? {
        ViewsCount(rows[1..], active, retired);
      } else if !rows[0].value.retired {
        ViewsCount(rows[1..], active - {rows[0].value.call}, retired);
        MapMinus(active, rows[0].value.call);
      } else {
        ViewsCount(rows[1..], active, retired - {rows[0].value.live.target});
        MapMinus(retired, rows[0].value.live.target);
      }
    }
  }

  // Ageing.

  function AgedRow(row: Option<Row>, now: nat): Option<Row> {
    if row.None? || row.value.live.backoff > now then row
    else if row.value.retired then None
    else Some(row.value.(live := row.value.live.(backoff := 0)))
  }

  ghost predicate Aged(rows: Rows, after: Rows, now: nat, from: nat, to: nat) {
    |after| == |rows| && forall i :: from <= i < to && i < |rows| ==> after[i] == AgedRow(rows[i], now)
  }

  lemma AgedViews(rows: Rows, active: Actives, retired: Coolings, after: Rows, now: nat)
    requires Views(rows, active, retired) && Aged(rows, after, now, 0, |rows|)
    ensures Views(after, LivesAt(active, now), RetiredAt(retired, now))
  {
    forall i | 0 <= i < |after| && after[i].Some?
      ensures rows[i].Some? && after[i].value.call == rows[i].value.call && after[i].value.retired == rows[i].value.retired
      ensures after[i].value.live.target == rows[i].value.live.target
      ensures Shows(after[i].value, LivesAt(active, now), RetiredAt(retired, now))
    {
      assert Shows(rows[i].value, active, retired);
    }
    forall c | c in LivesAt(active, now)
      ensures HasActive(after, c)
    {
      assert HasActive(rows, c);
      var i: nat :| IsActive(rows, i, c);
      assert IsActive(after, i, c);
    }
    forall t | t in RetiredAt(retired, now)
      ensures HasRetired(after, t)
    {
      assert HasRetired(rows, t);
      var i: nat :| IsRetired(rows, i, t);
      assert Shows(rows[i].value, active, retired);
      assert IsRetired(after, i, t);
    }
  }

  // Cooldowns on rows.

  ghost predicate Carries(row: Option<Row>, t: Target, until: nat) {
    row.Some? && row.value.live.target == t && row.value.live.backoff == until != 0
  }

  /** Only the tables; the rest of the client is beside the point here. */
  ghost function Only(active: Actives, retired: Coolings): State {
    State(active, retired, map[], Engine(map[], {}, [], {}, [], [], {}))
  }

  lemma CarriedIffCools(rows: Rows, active: Actives, retired: Coolings, t: Target, until: nat)
    requires Views(rows, active, retired)
    ensures Cools(Only(active, retired), t, until) <==> exists i :: 0 <= i < |rows| && Carries(rows[i], t, until)
  {
    var s := Only(active, retired);
    if exists i :: 0 <= i < |rows| && Carries(rows[i], t, until) {
      var i :| 0 <= i < |rows| && Carries(rows[i], t, until);
      assert Shows(rows[i].value, active, retired);
      if !rows[i].value.retired {
        assert rows[i].value.call in s.active && s.active[rows[i].value.call].target == t;
      }
    }
    if Cools(s, t, until) {
      if t in retired && retired[t].until == until {
        assert HasRetired(rows, t);
        var i: nat :| IsRetired(rows, i, t);
        assert Shows(rows[i].value, active, retired);
        assert Carries(rows[i], t, until);
      } else {
        var c :| c in s.active && s.active[c].target == t && s.active[c].backoff == until != 0;
        assert HasActive(rows, c);
        var i: nat :| IsActive(rows, i, c);
        assert Shows(rows[i].value, active, retired);
        assert Carries(rows[i], t, until);
      }
    }
  }

  ghost predicate TokenUsed(active: Actives, retired: Coolings, token: Token) {
    (exists c :: c in active && c.token == token) || (exists t :: t in retired && retired[t].call.token == token)
  }

  class ClientLives {
    var rows: Rows
    ghost var active: Actives
    ghost var retired: Coolings

    ghost predicate Valid()
      reads this
    {
      Views(rows, active, retired)
    }

    constructor (calls: nat)
      ensures Valid() && |rows| == calls && active == map[] && retired == map[]
    {
      rows := seq(calls, _ => None);
      active, retired := map[], map[];
    }

    /** Index of the active row of a call, or the length. */
    method Find(call: Call) returns (i: nat)
      requires Valid()
      ensures i <= |rows| && (i < |rows| <==> call in active)
      ensures i < |rows| ==> IsActive(rows, i, call) && rows[i].value.live == active[call]
    {
      i := 0;
      while i < |rows| && !(rows[i].Some? && !rows[i].value.retired && rows[i].value.call == call)
        invariant i <= |rows| && forall j: nat :: j < i ==> !IsActive(rows, j, call)
      {
        i := i + 1;
      }
      if i < |rows| {
        assert Shows(rows[i].value, active, retired);
      } else {
        assert call in active ==> HasActive(rows, call);
      }
    }

    method Get(call: Call) returns (live: Option<Live>)
      requires Valid()
      ensures live == if call in active then Some(active[call]) else None
    {
      var i := Find(call);
      return if i < |rows| then Some(rows[i].value.live) else None;
    }

    /** Occupied rows, as admission counts them. */
    method Count() returns (n: nat)
      requires Valid()
      ensures n == |active| + |retired| <= |rows|
    {
      ViewsCount(rows, active, retired);
      n := 0;
      for i := 0 to |rows|
        invariant n + Used(rows[i..]) == Used(rows)
      {
        assert rows[i..][1..] == rows[i + 1..];
        if rows[i].Some? { n := n + 1; }
      }
    }

    /** `next_token` asks this of every candidate. */
    method UsesToken(token: Token) returns (used: bool)
      requires Valid()
      ensures used <==> TokenUsed(active, retired, token)
    {
      used := false;
      for i := 0 to |rows|
        invariant !used && forall j :: 0 <= j < i && rows[j].Some? ==> rows[j].value.call.token != token
      {
        if rows[i].Some? && rows[i].value.call.token == token {
          assert Shows(rows[i].value, active, retired);
          return true;
        }
      }
      forall c | c in active
        ensures c.token != token
      {
        assert HasActive(rows, c);
        var j: nat :| IsActive(rows, j, c);
      }
      forall t | t in retired
        ensures retired[t].call.token != token
      {
        assert HasRetired(rows, t);
        var j: nat :| IsRetired(rows, j, t);
        assert Shows(rows[j].value, active, retired);
      }
    }

    /** `can_admit`: a free row, or this call's own. */
    method CanAdmit(call: Call) returns (ok: bool)
      requires Valid()
      ensures ok <==> call in active || |active| + |retired| < |rows|
    {
      ViewsCount(rows, active, retired);
      FullIff(rows);
      var i := Find(call);
      if i < |rows| { return true; }
      var free := FindFree(rows);
      return free < |rows|;
    }

    /** `insert`: over the call's own row, or in the first free one. No retired row carries the call,
        because `Outgoing.NextToken` takes a token no row uses, retired ones included. */
    method Insert(call: Call, live: Live)
      requires Valid()
      requires forall t :: t in retired ==> retired[t].call != call
      modifies this
      ensures Valid() && |rows| == |old(rows)| && retired == old(retired)
      ensures active == if call in old(active) || |old(active)| + |old(retired)| < |rows| then old(active)[call := live]
                        else old(active)
    {
      hide Views, Used;
      ViewsCount(rows, active, retired);
      FullIff(rows);
      var i := Find(call);
      if i == |rows| {
        NotInRows(rows, active, retired, call);
        i := FindFree(rows);
        if i == |rows| { return; }
      }
      SetActive(rows, active, retired, i, call, live);
      rows := rows[i := Some(Row(call, live, false))];
      active := active[call := live];
    }

    /** The loops that update a call's row in place. */
    method Update(call: Call, live: Live)
      requires Valid() && call in active
      modifies this
      ensures Valid() && |rows| == |old(rows)| && retired == old(retired) && active == old(active)[call := live]
      ensures SameCalls(rows, old(rows), 0)
    {
      hide Views;
      var i := Find(call);
      SetActive(rows, active, retired, i, call, live);
      rows := rows[i := Some(Row(call, live, false))];
      active := active[call := live];
    }

    /** A row cleared, whatever it held. */
    method Clear(i: nat)
      requires Valid() && i < |rows| && rows[i].Some?
      modifies this
      ensures Valid() && rows == old(rows)[i := None]
      ensures var c := old(rows)[i].value.call;
              active == old(active) - {c} && retired == Uncooled(old(retired), {c})
    {
      hide Views, Uncooled;
      var row := rows[i].value;
      OnlyItsCooling(rows, active, retired, i);
      if row.retired {
        DropRetired(rows, active, retired, i, row.live.target);
        MapSame(active, row.call);
      } else {
        DropActive(rows, active, retired, i, row.call);
      }
      rows := rows[i := None];
      active := active - {row.call};
      retired := Uncooled(retired, {row.call});
    }

    /** `remove`: delete, merge into the target's retired row, or retire. */
    method Remove(call: Call)
      requires Valid()
      modifies this
      ensures Valid() && |rows| == |old(rows)|
      ensures var after := ClientModel.Remove(Only(old(active), old(retired)), call);
              active == after.active && retired == after.retired
    {
      hide Views;
      var i := Find(call);
      if i == |rows| { return; }
      var live := rows[i].value.live;
      if live.backoff == 0 {
        DropActive(rows, active, retired, i, call);
        rows := rows[i := None];
        active := active - {call};
        return;
      }
      var other := FindRetired(live.target);
      if other < |rows| {
        ghost var cooling := retired[live.target];
        var until := Max(rows[other].value.live.backoff, live.backoff);
        Raise(rows, active, retired, other, live.target, until);
        rows := rows[other := Some(rows[other].value.(live := rows[other].value.live.(backoff := until)))];
        retired := retired[live.target := Cooling(until, cooling.call)];
        DropActive(rows, active, retired, i, call);
        rows := rows[i := None];
        active := active - {call};
      } else {
        var stilled := live.(due := 0, deadline := None, pace := 0, observe := Off);
        Retire(rows, active, retired, i, call, stilled);
        rows := rows[i := Some(Row(call, stilled, true))];
        active := active - {call};
        retired := retired[live.target := Cooling(live.backoff, call)];
      }
    }

    method FindRetired(target: Target) returns (i: nat)
      requires Valid()
      ensures i <= |rows| && (i < |rows| <==> target in retired)
      ensures i < |rows| ==> IsRetired(rows, i, target) && retired[target] == Cooling(rows[i].value.live.backoff, rows[i].value.call)
      ensures i < |rows| ==> rows[i].value.live.backoff != 0
    {
      i := 0;
      while i < |rows| && !(rows[i].Some? && rows[i].value.retired && rows[i].value.live.target == target)
        invariant i <= |rows| && forall j: nat :: j < i ==> !IsRetired(rows, j, target)
      {
        i := i + 1;
      }
      if i < |rows| {
        assert Shows(rows[i].value, active, retired);
      } else {
        assert target in retired ==> HasRetired(rows, target);
      }
    }

    /** `expire_backoffs`. */
    method ExpireBackoffs(now: nat)
      requires Valid()
      modifies this
      ensures Valid() && |rows| == |old(rows)|
      ensures active == LivesAt(old(active), now) && retired == RetiredAt(old(retired), now)
    {
      ghost var before := rows;
      for i := 0 to |rows|
        invariant |rows| == |before| && active == old(active) && retired == old(retired)
        invariant Aged(before, rows, now, 0, i)
        invariant forall k :: i <= k < |rows| ==> rows[k] == before[k]
      {
        if rows[i].Some? && rows[i].value.live.backoff <= now {
          if rows[i].value.retired {
            rows := rows[i := None];
          } else {
            rows := rows[i := Some(rows[i].value.(live := rows[i].value.live.(backoff := 0)))];
          }
        }
      }
      AgedViews(before, active, retired, rows, now);
      hide Views;
      active := LivesAt(active, now);
      retired := RetiredAt(retired, now);
    }

    /** `backoff_until`: the longest cooldown of the target, if it has one. */
    method BackoffUntil(target: Target) returns (until: Option<nat>)
      requires Valid()
      ensures until.None? <==> forall u: nat :: !Cools(Only(active, retired), target, u)
      ensures until.Some? ==> Cools(Only(active, retired), target, until.value)
                              && forall u: nat :: Cools(Only(active, retired), target, u) ==> u <= until.value
    {
      hide Cools;
      until := None;
      for i := 0 to |rows|
        invariant until.None? ==> forall j, u: nat :: 0 <= j < i ==> !Carries(rows[j], target, u)
        invariant until.Some? ==> exists j :: 0 <= j < i && Carries(rows[j], target, until.value)
        invariant until.Some? ==> forall j, u: nat :: 0 <= j < i && Carries(rows[j], target, u) ==> u <= until.value
      {
        if rows[i].Some? && rows[i].value.live.backoff != 0 && rows[i].value.live.target == target {
          assert Carries(rows[i], target, rows[i].value.live.backoff);
          until := Some(if until.None? then rows[i].value.live.backoff else Max(until.value, rows[i].value.live.backoff));
        }
      }
      forall u: nat
        ensures Cools(Only(active, retired), target, u) <==> exists j :: 0 <= j < |rows| && Carries(rows[j], target, u)
      {
        CarriedIffCools(rows, active, retired, target, u);
      }
      assert until.Some? ==> Cools(Only(active, retired), target, until.value);
    }
  }

  lemma NotInRows(rows: Rows, active: Actives, retired: Coolings, call: Call)
    requires Views(rows, active, retired) && call !in active
    requires forall t :: t in retired ==> retired[t].call != call
    ensures forall j :: 0 <= j < |rows| && rows[j].Some? ==> rows[j].value.call != call
  {
    forall j | 0 <= j < |rows| && rows[j].Some?
      ensures rows[j].value.call != call
    {
      assert Shows(rows[j].value, active, retired);
    }
  }
}
