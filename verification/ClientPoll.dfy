/** The scans of a poll: which calls are due, when to poll next, and how many replies may be retained. */
module ClientPoll {
  import opened Common
  import opened Engines
  import opened ClientModel
  import opened LiveTable
  import opened ReplyTable
  import opened Clients
  import T = ClientTimers

  /** An active row of this call stands before row `i`. */
  ghost predicate Before(rows: LiveTable.Rows, i: nat, c: Call) {
    exists j: nat :: j < i && IsActive(rows, j, c)
  }

  lemma BeforeNext(rows: LiveTable.Rows, i: nat)
    requires i < |rows| && LiveTable.Distinct(rows)
    ensures forall c :: Before(rows, i + 1, c) <==> Before(rows, i, c) || IsActive(rows, i, c)
    ensures forall c :: IsActive(rows, i, c) ==> !Before(rows, i, c)
  {
    forall c
      ensures Before(rows, i + 1, c) <==> Before(rows, i, c) || IsActive(rows, i, c)
    {
      if Before(rows, i + 1, c) {
        var j: nat :| j < i + 1 && IsActive(rows, j, c);
      }
      if Before(rows, i, c) {
        var j: nat :| j < i && IsActive(rows, j, c);
      }
    }
  }

  lemma RowShows(rows: LiveTable.Rows, s: State, i: nat)
    requires i < |rows| && LiveTable.Views(rows, s.active, s.retired)
    ensures LiveTable.Distinct(rows) && (rows[i].Some? ==> Shows(rows[i].value, s.active, s.retired))
    ensures rows[i].Some? && !rows[i].value.retired ==> IsActive(rows, i, rows[i].value.call)
  {
  }

  lemma BeforeAll(rows: LiveTable.Rows, active: Actives, retired: Coolings)
    requires LiveTable.Views(rows, active, retired)
    ensures forall c :: Before(rows, |rows|, c) <==> c in active
  {
    forall c
      ensures Before(rows, |rows|, c) <==> c in active
    {
      if c in active {
        assert HasActive(rows, c);
        var j: nat :| IsActive(rows, j, c);
      }
      if Before(rows, |rows|, c) {
        var j: nat :| j < |rows| && IsActive(rows, j, c);
        assert Shows(rows[j].value, active, retired);
      }
    }
  }

  ghost predicate InList(due: seq<(Call, Failure)>, c: Call) {
    exists k :: 0 <= k < |due| && due[k].0 == c
  }

  ghost predicate DueKnown(s: State, rows: LiveTable.Rows, now: nat, due: seq<(Call, Failure)>, i: nat) {
    && (forall k :: 0 <= k < |due| ==> DueFailure(s, due[k].0, now) == Some(due[k].1) && Before(rows, i, due[k].0))
    && (forall k, l :: 0 <= k < l < |due| ==> due[k].0 != due[l].0)
    && (forall c :: Before(rows, i, c) && DueFailure(s, c, now).Some? ==> InList(due, c))
  }

  lemma DueNext(s: State, rows: LiveTable.Rows, now: nat, due: seq<(Call, Failure)>, i: nat)
    requires DueKnown(s, rows, now, due, i) && i < |rows| && LiveTable.Distinct(rows)
    ensures rows[i].None? || rows[i].value.retired || DueFailure(s, rows[i].value.call, now).None? ==>
              DueKnown(s, rows, now, due, i + 1)
    ensures rows[i].Some? && !rows[i].value.retired && DueFailure(s, rows[i].value.call, now).Some? ==>
              var c := rows[i].value.call; DueKnown(s, rows, now, due + [(c, DueFailure(s, c, now).value)], i + 1)
  {
    hide DueFailure, Before;
    BeforeNext(rows, i);
    if rows[i].Some? && !rows[i].value.retired && DueFailure(s, rows[i].value.call, now).Some? {
      var c := rows[i].value.call;
      var more := due + [(c, DueFailure(s, c, now).value)];
      assert IsActive(rows, i, c);
      forall d | InList(due, d) || d == c
        ensures InList(more, d)
      {
        if d == c {
          assert more[|due|].0 == c;
        } else {
          var k :| 0 <= k < |due| && due[k].0 == d;
          assert more[k].0 == d;
        }
      }
    }
  }

  lemma DueAll(s: State, rows: LiveTable.Rows, now: nat, due: seq<(Call, Failure)>)
    requires DueKnown(s, rows, now, due, |rows|) && LiveTable.Views(rows, s.active, s.retired)
    ensures ListsDue(s, now, due)
  {
    BeforeAll(rows, s.active, s.retired);
    forall c | DueFailure(s, c, now).Some?
      ensures exists k :: 0 <= k < |due| && due[k].0 == c
    {
      assert InList(due, c);
    }
  }

  /** What one row's timers say. */
  method RowDue(client: Client, call: Call, live: Live, now: nat) returns (failure: Option<Failure>)
    requires client.Valid() && call in client.S().active && client.S().active[call] == live
    ensures failure == DueFailure(client.S(), call, now)
  {
    hide LiveTable.Views, ReplyTable.Views, OnePerEndpoint;
    var deadlineReached := live.deadline.Some? && now >= live.deadline.value;
    var lifetimeReached := live.due != 0 && now >= live.due;
    if !deadlineReached && !lifetimeReached { return None; }
    var row := client.inbox.Get(call);
    if row.Some? && row.value.complete && call !in client.engine.observes { return None; }
    return if deadlineReached then Some(DeadlineExceeded)
           else if call in client.engine.exchanges then Some(TimedOut) else None;
  }

  /** The failures are decided first, then carried out. */
  method DueCalls(client: Client, now: nat) returns (due: seq<(Call, Failure)>)
    requires client.Valid()
    ensures ListsDue(client.S(), now, due)
  {
    due := [];
    var rows := client.lives.rows;
    for i := 0 to |rows|
      invariant DueKnown(client.S(), rows, now, due, i)
    {
      hide DueKnown, DueFailure, OnePerEndpoint, LiveTable.Views, ReplyTable.Views;
      RowShows(rows, client.S(), i);
      DueNext(client.S(), rows, now, due, i);
      if rows[i].Some? && !rows[i].value.retired {
        var failure := RowDue(client, rows[i].value.call, rows[i].value.live, now);
        if failure.Some? {
          due := due + [(rows[i].value.call, failure.value)];
        }
      }
    }
    DueAll(client.S(), rows, now, due);
  }

  /** `expire_client_exchanges`. */
  method ExpireExchanges(client: Client, now: nat) returns (ghost due: seq<(Call, Failure)>)
    requires client.Valid()
    modifies client`engine, client.lives, client.inbox
    ensures client.Valid()
    ensures ListsDue(ExpireBackoffs(old(client.S()), now), now, due)
    ensures client.S() == Expire(old(client.S()), client.cfg, now, due)
  {
    hide LiveTable.Views, ReplyTable.Views, OnePerEndpoint, Fail, ListsDue;
    client.lives.ExpireBackoffs(now);
    ghost var s := client.S();
    var calls := DueCalls(client, now);
    due := calls;
    var i := 0;
    assert calls[0..] == calls;
    while i < |calls|
      invariant i <= |calls| && client.Valid()
      invariant FailDue(client.S(), client.cfg, calls[i..]) == FailDue(s, client.cfg, calls)
    {
      assert calls[i..][1..] == calls[i + 1..];
      client.FailCall(calls[i].0, calls[i].1, true);
      i := i + 1;
    }
  }

  // The next timeout.

  /** Everything `next_timeout_after` reports, the pacing of uploads included. */
  ghost predicate Pacing(s: State, at: nat) {
    exists c :: c in s.active && s.active[c].pace == at != 0
  }

  ghost predicate Timer(s: State, at: nat) {
    T.Reported(s, at) || Pacing(s, at)
  }

  ghost predicate RowTimer(s: State, row: LiveTable.Row, at: nat) {
    || row.live.backoff == at != 0
    || (!row.retired && row.live.pace == at != 0)
    || (!row.retired && T.Ending(s, row.call, at))
  }

  lemma TimerIff(rows: LiveTable.Rows, s: State, at: nat)
    requires LiveTable.Views(rows, s.active, s.retired)
    ensures Timer(s, at) <==> exists i :: 0 <= i < |rows| && rows[i].Some? && RowTimer(s, rows[i].value, at)
  {
    if Timer(s, at) {
      TimerRow(rows, s, at);
    }
    if exists i :: 0 <= i < |rows| && rows[i].Some? && RowTimer(s, rows[i].value, at) {
      var i :| 0 <= i < |rows| && rows[i].Some? && RowTimer(s, rows[i].value, at);
      assert Shows(rows[i].value, s.active, s.retired);
      var row := rows[i].value;
      if row.live.backoff == at != 0 {
        if row.retired {
          assert row.live.target in s.retired;
        } else {
          assert row.call in s.active;
        }
        assert T.Cooling(s, at);
      } else if !row.retired && row.live.pace == at != 0 {
        assert row.call in s.active && s.active[row.call].pace == at;
      }
    }
  }

  lemma TimerRow(rows: LiveTable.Rows, s: State, at: nat)
    requires LiveTable.Views(rows, s.active, s.retired) && Timer(s, at)
    ensures exists i :: 0 <= i < |rows| && rows[i].Some? && RowTimer(s, rows[i].value, at)
  {
    if exists t :: t in s.retired && s.retired[t].until == at {
      var t :| t in s.retired && s.retired[t].until == at;
      assert HasRetired(rows, t);
      var i: nat :| IsRetired(rows, i, t);
      assert Shows(rows[i].value, s.active, s.retired);
      assert RowTimer(s, rows[i].value, at);
    } else {
      var c :| c in s.active && (s.active[c].backoff == at != 0 || s.active[c].pace == at != 0 || T.Ending(s, c, at));
      assert HasActive(rows, c);
      var i: nat :| IsActive(rows, i, c);
      assert Shows(rows[i].value, s.active, s.retired);
      assert RowTimer(s, rows[i].value, at);
    }
  }

  function Sooner(best: Option<nat>, at: nat, after: Option<nat>): Option<nat> {
    if after.Some? && at <= after.value then best
    else if best.None? || at < best.value then Some(at) else best
  }

  predicate Late(at: nat, after: Option<nat>) {
    after.None? || at > after.value
  }

  /** The timers of one row, as the iterator chain yields them. */
  function RowTimers(row: LiveTable.Row, waiting: bool, exchanged: bool): seq<nat> {
    (if row.live.backoff != 0 then [row.live.backoff] else [])
    + (if !row.retired && row.live.pace != 0 then [row.live.pace] else [])
    + (if !row.retired && waiting && row.live.deadline.Some? then [row.live.deadline.value] else [])
    + (if !row.retired && waiting && row.live.due != 0 && exchanged then [row.live.due] else [])
  }

  lemma RowTimersAre(s: State, row: LiveTable.Row, at: nat)
    requires Shows(row, s.active, s.retired)
    ensures RowTimer(s, row, at) <==> at in RowTimers(row, Waiting(s, row.call), row.call in s.engine.exchanges)
  {
  }

  method Earliest(timers: seq<nat>, best: Option<nat>, after: Option<nat>) returns (r: Option<nat>)
    ensures r.None? ==> best.None? && forall at: nat :: at in timers ==> !Late(at, after)
    ensures r.Some? ==> r == best || (Late(r.value, after) && r.value in timers)
    ensures r.Some? ==> (best.Some? ==> r.value <= best.value) && forall at: nat :: at in timers && Late(at, after) ==> r.value <= at
  {
    r := best;
    for i := 0 to |timers|
      invariant r.None? ==> best.None? && forall k :: 0 <= k < i ==> !Late(timers[k], after)
      invariant r.Some? ==> r == best || (Late(r.value, after) && r.value in timers)
      invariant r.Some? ==> (best.Some? ==> r.value <= best.value)
                            && forall k :: 0 <= k < i && Late(timers[k], after) ==> r.value <= timers[k]
    {
      r := Sooner(r, timers[i], after);
    }
  }

  method RowNext(client: Client, row: LiveTable.Row, best: Option<nat>, after: Option<nat>) returns (r: Option<nat>)
    requires client.Valid() && Shows(row, client.S().active, client.S().retired)
    ensures r.None? ==> best.None? && forall at: nat :: RowTimer(client.S(), row, at) ==> !Late(at, after)
    ensures r.Some? ==> r == best || (Late(r.value, after) && RowTimer(client.S(), row, r.value))
    ensures r.Some? ==> (best.Some? ==> r.value <= best.value)
                        && forall at: nat :: RowTimer(client.S(), row, at) && Late(at, after) ==> r.value <= at
  {
    hide LiveTable.Views, ReplyTable.Views, OnePerEndpoint, RowTimer, RowTimers, Late;
    var reply := client.inbox.Get(row.call);
    var waiting := !(reply.Some? && reply.value.complete) || row.call in client.engine.observes;
    ghost var s := client.S();
    assert !row.retired ==> waiting == Waiting(s, row.call);
    r := Earliest(RowTimers(row, waiting, row.call in client.engine.exchanges), best, after);
    forall at: nat
      ensures RowTimer(s, row, at) <==> at in RowTimers(row, waiting, row.call in s.engine.exchanges)
    {
      RowTimersAre(s, row, at);
      RetiredTimers(row, waiting, Waiting(s, row.call), row.call in s.engine.exchanges);
    }
  }

  lemma RetiredTimers(row: LiveTable.Row, a: bool, b: bool, exchanged: bool)
    requires !row.retired ==> a == b
    ensures RowTimers(row, a, exchanged) == RowTimers(row, b, exchanged)
  {
  }

  /** `next_timeout_after`: the earliest timer later than `after`, and none is missed. */
  method NextTimeoutAfter(client: Client, after: Option<nat>) returns (r: Option<nat>)
    requires client.Valid()
    ensures r.None? ==> forall at: nat :: Timer(client.S(), at) ==> !Late(at, after)
    ensures r.Some? ==> Timer(client.S(), r.value) && Late(r.value, after)
    ensures r.Some? ==> forall at: nat :: Timer(client.S(), at) && Late(at, after) ==> r.value <= at
  {
    var rows := client.lives.rows;
    ghost var s := client.S();
    r := None;
    for i := 0 to |rows|
      invariant r.Some? ==> Late(r.value, after) && exists j :: 0 <= j < i && rows[j].Some? && RowTimer(s, rows[j].value, r.value)
      invariant forall j, at: nat :: 0 <= j < i && rows[j].Some? && RowTimer(s, rows[j].value, at) && Late(at, after) ==>
                  r.Some? && r.value <= at
    {
      hide RowTimer, OnePerEndpoint, LiveTable.Views, ReplyTable.Views;
      if rows[i].Some? {
        RowShows(rows, s, i);
        r := RowNext(client, rows[i].value, r, after);
      }
    }
    hide RowTimer, Timer;
    forall at: nat
      ensures Timer(s, at) <==> exists i :: 0 <= i < |rows| && rows[i].Some? && RowTimer(s, rows[i].value, at)
    {
      TimerIff(rows, s, at);
    }
  }

  // Credits.

  predicate Failed(reply: Option<Reply>) {
    reply.Some? && reply.value.complete && reply.value.meta.Err?
  }

  /** The calls counted among the first `i` rows. */
  ghost function CreditsTo(s: State, rows: LiveTable.Rows, i: nat): set<Call> {
    set c | c in s.active && Before(rows, i, c) && !(c in s.inbox && Failed(Some(s.inbox[c])))
  }

  lemma CreditsNext(s: State, rows: LiveTable.Rows, i: nat)
    requires i < |rows| && LiveTable.Views(rows, s.active, s.retired)
    ensures var row := rows[i];
            var counts := row.Some? && !row.value.retired && !(row.value.call in s.inbox && Failed(Some(s.inbox[row.value.call])));
            |CreditsTo(s, rows, i + 1)| == |CreditsTo(s, rows, i)| + if counts then 1 else 0
  {
    hide Before, LiveTable.Views;
    RowShows(rows, s, i);
    BeforeNext(rows, i);
    var row := rows[i];
    var before := CreditsTo(s, rows, i);
    if row.Some? && !row.value.retired && !(row.value.call in s.inbox && Failed(Some(s.inbox[row.value.call]))) {
      assert CreditsTo(s, rows, i + 1) == before + {row.value.call};
      assert row.value.call !in before;
    } else {
      assert CreditsTo(s, rows, i + 1) == before;
    }
  }

  lemma CreditsEnds(s: State, rows: LiveTable.Rows)
    requires LiveTable.Views(rows, s.active, s.retired)
    ensures CreditsTo(s, rows, 0) == {} && CreditsTo(s, rows, |rows|) == CreditCalls(s.active.Keys, s.inbox)
  {
    BeforeAll(rows, s.active, s.retired);
  }

  method CountActive(client: Client) returns (n: nat)
    requires client.Valid()
    ensures n == |CreditCalls(client.S().active.Keys, client.S().inbox)|
  {
    hide OnePerEndpoint, LiveTable.Views, ReplyTable.Views, CreditsTo, CreditCalls;
    var rows := client.lives.rows;
    n := 0;
    CreditsEnds(client.S(), rows);
    for i := 0 to |rows|
      invariant n == |CreditsTo(client.S(), rows, i)|
    {
      CreditsNext(client.S(), rows, i);
      if rows[i].Some? && !rows[i].value.retired {
        var reply := client.inbox.Get(rows[i].value.call);
        if !Failed(reply) {
          n := n + 1;
        }
      }
    }
  }

  ghost predicate Earlier(rows: ReplyTable.Rows, i: nat, c: Call) {
    exists j: nat :: j < i && At(rows, j, c)
  }

  ghost function OrphansTo(s: State, rows: ReplyTable.Rows, i: nat): set<Call> {
    set c | c in s.inbox && Earlier(rows, i, c) && s.inbox[c].meta.Ok? && c !in s.active
  }

  lemma EarlierNext(rows: ReplyTable.Rows, i: nat)
    requires i < |rows| && ReplyTable.Distinct(rows)
    ensures forall c :: Earlier(rows, i + 1, c) <==> Earlier(rows, i, c) || At(rows, i, c)
    ensures forall c :: At(rows, i, c) ==> !Earlier(rows, i, c)
  {
  }

  lemma OrphansNext(s: State, rows: ReplyTable.Rows, i: nat)
    requires i < |rows| && ReplyTable.Views(rows, s.inbox)
    ensures var row := rows[i];
            var counts := row.Some? && row.value.reply.meta.Ok? && row.value.call !in s.active;
            |OrphansTo(s, rows, i + 1)| == |OrphansTo(s, rows, i)| + if counts then 1 else 0
  {
    hide Earlier;
    EarlierNext(rows, i);
    var row := rows[i];
    var before := OrphansTo(s, rows, i);
    if row.Some? && row.value.reply.meta.Ok? && row.value.call !in s.active {
      assert At(rows, i, row.value.call);
      assert OrphansTo(s, rows, i + 1) == before + {row.value.call};
      assert row.value.call !in before;
    } else {
      assert OrphansTo(s, rows, i + 1) == before;
    }
  }

  lemma OrphansEnds(s: State, rows: ReplyTable.Rows)
    requires ReplyTable.Views(rows, s.inbox)
    ensures OrphansTo(s, rows, 0) == {} && OrphansTo(s, rows, |rows|) == OrphanReplies(s.active.Keys, s.inbox)
  {
    forall c | c in s.inbox
      ensures Earlier(rows, |rows|, c)
    {
      assert Has(rows, c);
      var j: nat :| At(rows, j, c);
    }
  }

  method CountOrphans(client: Client) returns (n: nat)
    requires client.Valid()
    ensures n == |OrphanReplies(client.S().active.Keys, client.S().inbox)|
  {
    hide OnePerEndpoint, LiveTable.Views, ReplyTable.Views, OrphansTo, OrphanReplies;
    var rows := client.inbox.rows;
    n := 0;
    OrphansEnds(client.S(), rows);
    for i := 0 to |rows|
      invariant n == |OrphansTo(client.S(), rows, i)|
    {
      OrphansNext(client.S(), rows, i);
      if rows[i].Some? && rows[i].value.reply.meta.Ok? {
        var live := client.lives.Get(rows[i].value.call);
        if live.None? {
          n := n + 1;
        }
      }
    }
  }

  /** `response_credits`. */
  method ResponseCredits(client: Client) returns (n: nat)
    requires client.Valid()
    ensures n == Credits(client.S())
  {
    hide LiveTable.Views, ReplyTable.Views, OnePerEndpoint, CreditCalls, OrphanReplies;
    var active := CountActive(client);
    var orphans := CountOrphans(client);
    return active + orphans;
  }
}
