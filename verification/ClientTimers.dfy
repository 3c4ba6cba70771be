/** The reported next timeout is exact: nothing expires before it, and nothing due is left after. */
module ClientTimers {
  import opened Common
  import opened Engines
  import opened ClientModel
  import opened ClientInvariant
  import opened ClientSteps
  import opened ClientAdmission

  /** The times `next_timeout_after` reports, apart from upload pacing, which is consumed elsewhere. */
  ghost predicate Cooling(s: State, at: nat) {
    || (exists c :: c in s.active && s.active[c].backoff == at != 0)
    || (exists t :: t in s.retired && s.retired[t].until == at)
  }

  ghost predicate Ending(s: State, c: Call, at: nat) {
    && Waiting(s, c)
    && (s.active[c].deadline == Some(at) || (s.active[c].due == at != 0 && c in s.engine.exchanges))
  }

  ghost predicate Reported(s: State, at: nat) {
    Cooling(s, at) || exists c :: Ending(s, c, at)
  }

  lemma NothingCooling(s: State, now: nat)
    requires Lives(s.active, s.retired) && forall at :: Cooling(s, at) ==> now < at
    ensures ExpireBackoffs(s, now) == s
  {
    var after := ExpireBackoffs(s, now);
    forall c | c in s.active
      ensures after.active[c] == s.active[c]
    {
      if s.active[c].backoff != 0 {
        assert Cooling(s, s.active[c].backoff);
      }
    }
    forall t | t in s.retired
      ensures t in after.retired
    {
      assert Cooling(s, s.retired[t].until);
    }
    assert after.active == s.active && after.retired == s.retired;
  }

  lemma NotYetDue(s: State, now: nat, c: Call)
    requires forall at :: Ending(s, c, at) ==> now < at
    ensures DueFailure(s, c, now).None?
  {
    if Waiting(s, c) {
      if s.active[c].deadline.Some? {
        assert Ending(s, c, s.active[c].deadline.value);
      }
      if s.active[c].due != 0 && c in s.engine.exchanges {
        assert Ending(s, c, s.active[c].due);
      }
    }
  }

  /** Expiring strictly before every reported time changes nothing. */
  lemma EarlyExpiryIsIdle(cfg: Config, s: State, now: nat, due: seq<(Call, Failure)>)
    requires Inv(cfg, s) && ListsDue(ExpireBackoffs(s, now), now, due)
    requires forall at :: Reported(s, at) ==> now < at
    ensures due == [] && Expire(s, cfg, now, due) == s
  {
    hide ExpireBackoffs, Cooling, Ending;
    assert Lives(s.active, s.retired);
    assert forall at :: Cooling(s, at) ==> Reported(s, at);
    NothingCooling(s, now);
    if due != [] {
      var c := due[0].0;
      assert forall at :: Ending(s, c, at) ==> Reported(s, at);
      NotYetDue(s, now, c);
      assert false;
    }
  }

  /** A failed call is over: nothing of it is waited for any more, and its cooldown is as it was. */
  lemma {:induction false} FailDueEffect(cfg: Config, s: State, due: seq<(Call, Failure)>, c: Call)
    requires Inv(cfg, s) && (forall i :: 0 <= i < |due| ==> due[i].0 in s.active) && c in s.active
    ensures var after := FailDue(s, cfg, due);
            && c in after.active && after.active[c].backoff == s.active[c].backoff
            && ((Contains(s, c) && c !in s.engine.observes) || Listed(due, c) ==> !Waiting(after, c))
    decreases |due|
  {
    hide InvBut, Fail, FailDue, SameFor, Loose;
    if due == [] {
      FailDueNone(cfg, s);
    } else {
      var d, rest := due[0].0, due[1..];
      var next := Fail(s, cfg, d, due[0].1, true);
      FailKeeps(cfg, s, d, due[0].1, None);
      FailTame(cfg, s, d, due[0].1, true, None);
      FailSame(cfg, s, d, due[0].1);
      FailBackoff(cfg, s, d, due[0].1, c);
      FailDueNext(cfg, s, due);
      assert forall i :: 0 <= i < |rest| ==> rest[i] == due[i + 1];
      if c != d {
        assert SameFor(s, next, c);
        SettledStays(s, next, c);
      }
      FailDueEffect(cfg, next, rest, c);
      ListedSplit(due, c);
    }
  }

  lemma SettledStays(s: State, next: State, c: Call)
    requires SameFor(s, next, c)
    ensures Contains(s, c) && c !in s.engine.observes ==> Contains(next, c) && c !in next.engine.observes
  {
  }

  lemma ListedSplit(due: seq<(Call, Failure)>, c: Call)
    requires due != []
    ensures Listed(due, c) ==> c == due[0].0 || Listed(due[1..], c)
  {
    if Listed(due, c) && c != due[0].0 {
      var i :| 0 <= i < |due| && due[i].0 == c;
      assert due[1..][i - 1] == due[i];
    }
  }

  lemma FailBackoff(cfg: Config, s: State, d: Call, failure: Failure, c: Call)
    requires Inv(cfg, s) && c in s.active && d in s.active
    ensures var next := Fail(s, cfg, d, failure, true);
            c in next.active && next.active[c].backoff == s.active[c].backoff
  {
    hide InvBut, Fail;
    FailIs(cfg, s, d, failure, true, None);
  }

  lemma LeftEnding(cfg: Config, s: State, now: nat, due: seq<(Call, Failure)>, c: Call, at: nat)
    requires Inv(cfg, s) && ListsDue(s, now, due) && Ending(FailDue(s, cfg, due), c, at)
    ensures now < at
  {
    hide InvBut, FailDue, Loose;
    assert forall i :: 0 <= i < |due| ==> due[i].0 in s.active;
    FailDueKeeps(cfg, s, due);
    var after := FailDue(s, cfg, due);
    assert c in after.active.Keys;
    FailDueEffect(cfg, s, due, c);
    assert SameFor(s, after, c);
    assert DueFailure(s, c, now).None?;
  }

  lemma LeftCooling(cfg: Config, s: State, now: nat, due: seq<(Call, Failure)>, at: nat)
    requires Inv(cfg, s) && (forall i :: 0 <= i < |due| ==> due[i].0 in s.active)
    requires (forall c :: c in s.active && s.active[c].backoff != 0 ==> now < s.active[c].backoff)
    requires (forall t :: t in s.retired ==> now < s.retired[t].until)
    requires Cooling(FailDue(s, cfg, due), at)
    ensures now < at
  {
    hide InvBut, FailDue, Loose, SameFor;
    FailDueKeeps(cfg, s, due);
    var after := FailDue(s, cfg, due);
    if exists c :: c in after.active && after.active[c].backoff == at != 0 {
      var c :| c in after.active && after.active[c].backoff == at != 0;
      assert c in after.active.Keys;
      FailDueEffect(cfg, s, due, c);
    }
  }

  /** After expiring at `now`, every time still reported is strictly later. */
  lemma ExpiryLeavesLater(cfg: Config, s: State, now: nat, due: seq<(Call, Failure)>, at: nat)
    requires Inv(cfg, s) && ListsDue(ExpireBackoffs(s, now), now, due)
    requires Reported(Expire(s, cfg, now, due), at)
    ensures now < at
  {
    hide InvBut, FailDue, Cooling, Ending;
    var s0 := ExpireBackoffs(s, now);
    ExpireTimes(s, now);
    TimesKeep(cfg, s, s0, None);
    assert forall i :: 0 <= i < |due| ==> due[i].0 in s0.active;
    if Cooling(FailDue(s0, cfg, due), at) {
      LeftCooling(cfg, s0, now, due, at);
    } else {
      var c :| Ending(FailDue(s0, cfg, due), c, at);
      LeftEnding(cfg, s0, now, due, c, at);
    }
  }
}
