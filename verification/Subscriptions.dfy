/**
 What the clock may end. A further request in a subscription goes out under the lifetime its
 registration was given, so a large notification can end the subscription it belongs to.
 */
module Subscriptions {
  import opened Common
  import opened Maps
  import opened Engines
  import opened ClientModel
  import opened ClientInvariant
  import opened ClientSteps
  import opened ClientAdmission
  import opened ClientRuns
  import opened ClientProgress
  import opened Scenarios
  import Observe

  /** Expiry leaves a subscription alone if and only if its deadline has not come and no request of it is
      open past the lifetime of the last registration. */
  lemma ClockSparesIff(cfg: Config, s: State, step: Step, c: Call)
    requires Inv(cfg, s) && Enabled(cfg, s, step) && step.Expired? && c in s.engine.observes && Armed(s, c)
    ensures c in s.active
    ensures c in Next(cfg, s, step).engine.observes <==>
              && (s.active[c].deadline.Some? ==> step.now < s.active[c].deadline.value)
              && (c in s.engine.exchanges ==> step.now < s.active[c].due)
  {
    hide InvBut, Next, Loose, SameHoldings;
    TargetedIsAnswerable(cfg, s, c);
    UnsettledIsArmed(cfg, s, c);
    var s0 := ExpireBackoffs(s, step.now);
    StepSound(cfg, s, step);
    if DueFailure(s0, c, step.now).Some? {
      ExpiredAttends(cfg, s, step, c);
      FailedIsSettled(cfg, Next(cfg, s, step), c);
    } else {
      assert !Listed(step.due, c);
      assert SameFor(s, Next(cfg, s, step), c);
    }
  }

  // A subscription that a large notification ends.

  /** A run in which a notification has a further block asked for, and the same instant's expiry ends the
      subscription as timed out, though it has no deadline. */
  ghost predicate Cut(cfg: Config, steps: seq<Step>, c: Call) {
    && |steps| >= 2 && Runs(cfg, IdleForBody(), steps)
    && var asks, last := steps[|steps| - 2], steps[|steps| - 1];
       var before, after := After(cfg, IdleForBody(), steps[..|steps| - 1]), After(cfg, IdleForBody(), steps);
       && asks.Deliver? && asks.call == c && last.Expired? && last.now == asks.now
       && c in before.engine.observes && c in before.engine.exchanges && c in before.active && before.active[c].deadline.None?
       && c !in after.engine.observes && c in after.inbox && after.inbox[c].meta == Err(TimedOut)
  }

  /** One body slot more. */
  function IdleForBody(): State {
    Idle().(engine := Idle().engine.(bodies := [None]))
  }

  const TARGET: Target := Target(7, 1, [], [])
  const REGISTERS: Live := Live(TARGET, true, 0, Register, Some(Identity(TARGET, 0)), Observe.Record(None, None), 247_000, None, 0, 0)
  const LATER: nat := 300_000
  const SUBSCRIBED: Call := Call(1, 7)

  /** The registration is answered at once; five minutes later a notification begins in blocks. */
  const REGISTERED: Message := Message(Ack, 1, Success, false, Some(1), Observe.Absent, false, NoAge, Plain)
  const NOTIFIED: Message := Message(Non, 9, Success, false, Some(2), Observe.Absent, false, NoAge, Block2(true))
  const ROOM: Env := CLEAR.(room := true)
  const MORE: Env := CLEAR.(apply := Progress(0, false), followup := Sent(Some(Exchange(2, 1)), Some(Started(LATER, 0)), None))

  function Registering(): State {
    State(map[SUBSCRIBED := REGISTERS], map[], map[],
          Engine(map[SUBSCRIBED := Exchange(1, 0)], {}, [Some(Packet(7, 1, true, Some(Pending(1, Started(0, 0))))), None],
                 {0}, [None], [], {SUBSCRIBED}))
  }

  function Subscribed(inbox: map<Call, Reply>, rx: set<Slot>): State {
    State(map[SUBSCRIBED := REGISTERS.(record := Observe.Record(Some((1, 0)), Some(None)))], map[], inbox,
          Engine(map[], {SUBSCRIBED}, [None, None], rx, [None], [], {SUBSCRIBED}))
  }

  function Asking(): State {
    State(map[SUBSCRIBED := REGISTERS.(record := Observe.Record(Some((2, LATER)), Some(None)))], map[],
          map[SUBSCRIBED := Reply(false, Ok(Meta(HeaderOf(NOTIFIED), LATER)), Some(0), None)],
          Engine(map[SUBSCRIBED := Exchange(2, 1)], {SUBSCRIBED},
                 [None, Some(Packet(7, 1, true, Some(Pending(2, Started(LATER, 0)))))], {}, [Some(Body(SUBSCRIBED, false))], [], {SUBSCRIBED}))
  }

  const STORED: Reply := Reply(true, Ok(Meta(HeaderOf(REGISTERED), 0)), None, None)

  lemma LaunchedIs()
    ensures Launch(IdleForBody(), SUBSCRIBED, REGISTERS, SENT) == Registering().(engine := Registering().engine.(rx := {}))
  {
    MapSame(IdleForBody().inbox, SUBSCRIBED);
  }

  lemma StoppedIs()
    ensures StopPending(Registering(), 1, 7) == Registering().(engine := Registering().engine.(tx := [None, None]))
    ensures forall s: State, mid, peer :: s.engine.tx == [None, None] ==> StopPending(s, mid, peer) == s
  {
    var tx := Registering().engine.tx;
    assert Owns(tx[0], 1, 7);
    assert LookupPending(tx, 1, 7) == Some(0);
  }

  lemma RegisteredIs(cfg: Config)
    requires cfg.calls > 0 && !cfg.full && !cfg.protected
    ensures Complete(Registering(), cfg, 0, SUBSCRIBED, 0, REGISTERED, ROOM) == Subscribed(map[SUBSCRIBED := STORED], {})
  {
    hide StopPending, Keep;
    StoppedIs();
    var ready := Registering().(engine := Registering().engine.(tx := [None, None]));
    assert Complete(Registering(), cfg, 0, SUBSCRIBED, 0, REGISTERED, ROOM) == Answer(ready, cfg, 0, SUBSCRIBED, 0, REGISTERED, ROOM, true);
    assert Answer(ready, cfg, 0, SUBSCRIBED, 0, REGISTERED, ROOM, true) == Keep(ready, cfg, 0, SUBSCRIBED, 0, REGISTERED, ROOM, true);
    RegisteredKept(cfg, ready);
  }

  lemma RegisteredKept(cfg: Config, s: State)
    requires cfg.calls > 0 && !cfg.full && s == Registering().(engine := Registering().engine.(tx := [None, None]))
    ensures Keep(s, cfg, 0, SUBSCRIBED, 0, REGISTERED, ROOM, true) == Subscribed(map[SUBSCRIBED := STORED], {})
  {
  }

  lemma CollectedIs()
    ensures Collect(Subscribed(map[SUBSCRIBED := STORED], {}), SUBSCRIBED) == Subscribed(map[], {})
  {
  }

  lemma NotifiedIs(cfg: Config)
    requires cfg.calls > 0 && !cfg.full && !cfg.protected
    ensures Complete(Subscribed(map[], {0}), cfg, LATER, SUBSCRIBED, 0, NOTIFIED, MORE) == Asking()
  {
    hide StopPending, Assemble;
    StoppedIs();
    var s := Subscribed(map[], {0});
    assert Complete(s, cfg, LATER, SUBSCRIBED, 0, NOTIFIED, MORE) == Answer(s, cfg, LATER, SUBSCRIBED, 0, NOTIFIED, MORE, false);
    assert Answer(s, cfg, LATER, SUBSCRIBED, 0, NOTIFIED, MORE, false) == Assemble(s, cfg, LATER, SUBSCRIBED, 0, NOTIFIED, MORE, false);
    NotifiedAsks(cfg, s);
  }

  lemma NotifiedAsks(cfg: Config, s: State)
    requires cfg.calls > 0 && s == Subscribed(map[], {0})
    ensures Assemble(s, cfg, LATER, SUBSCRIBED, 0, NOTIFIED, MORE, false) == Asking()
  {
  }

  function Story(): seq<Step> {
    [Admitting(0, SUBSCRIBED, REGISTERS, SENT), Received(0), Deliver(0, SUBSCRIBED, 0, REGISTERED, ROOM),
     Collected(SUBSCRIBED, false), Received(0), Deliver(LATER, SUBSCRIBED, 0, NOTIFIED, MORE), Expired(LATER, [(SUBSCRIBED, TimedOut)])]
  }

  lemma StoryOn(cfg: Config, i: nat, s: State)
    requires i < |Story()| && Runs(cfg, IdleForBody(), Story()[..i])
    requires After(cfg, IdleForBody(), Story()[..i]) == s && Enabled(cfg, s, Story()[i])
    ensures Runs(cfg, IdleForBody(), Story()[..i + 1]) && After(cfg, IdleForBody(), Story()[..i + 1]) == Next(cfg, s, Story()[i])
  {
    hide Runs, After, Enabled, Next;
    RunsOn(cfg, IdleForBody(), Story()[..i], Story()[i]);
    assert Story()[..i] + [Story()[i]] == Story()[..i + 1];
  }

  lemma Registers(cfg: Config)
    requires cfg == Config(1, 1, false, false)
    ensures Runs(cfg, IdleForBody(), Story()[..4]) && After(cfg, IdleForBody(), Story()[..4]) == Subscribed(map[], {})
  {
    hide Runs, After, Enabled, Next, Launch, Complete, Loose;
    var start := IdleForBody();
    RunsNone(cfg, start);
    assert Story()[..0] == [];
    Admits(cfg, start, SUBSCRIBED, REGISTERS, SENT);
    LaunchedIs();
    StoryOn(cfg, 0, start);
    var launched := Registering().(engine := Registering().engine.(rx := {}));
    assert Enabled(cfg, launched, Received(0)) && Next(cfg, launched, Received(0)) == Registering() by { Receiving(cfg, launched); }
    StoryOn(cfg, 1, launched);
    JustReceived(Registering());
    DeliverIs(cfg, Registering(), Story()[2]);
    StoryOn(cfg, 2, Registering());
    RegisteredIs(cfg);
    CollectedIs();
    var stored := Subscribed(map[SUBSCRIBED := STORED], {});
    assert Enabled(cfg, stored, Story()[3]) && Next(cfg, stored, Story()[3]) == Collect(stored, SUBSCRIBED) by { Collecting(cfg, stored); }
    StoryOn(cfg, 3, stored);
  }

  lemma Receiving(cfg: Config, s: State)
    requires s.engine.rx == {}
    ensures Enabled(cfg, s, Received(0)) && Next(cfg, s, Received(0)) == WithRx(s, {0})
  {
  }

  lemma DeliverIs(cfg: Config, s: State, step: Step)
    requires step.Deliver? && Loose(s, step.rx)
    ensures Enabled(cfg, s, step) && Next(cfg, s, step) == Complete(s, cfg, step.now, step.call, step.rx, step.message, step.env)
  {
    hide Complete;
  }

  lemma Collecting(cfg: Config, s: State)
    requires Contains(s, SUBSCRIBED)
    ensures Enabled(cfg, s, Collected(SUBSCRIBED, false)) && Next(cfg, s, Collected(SUBSCRIBED, false)) == Collect(s, SUBSCRIBED)
  {
    hide Collect;
  }

  lemma Asks(cfg: Config)
    requires cfg == Config(1, 1, false, false)
    ensures Runs(cfg, IdleForBody(), Story()[..6]) && After(cfg, IdleForBody(), Story()[..6]) == Asking()
  {
    hide Runs, After, Enabled, Next, Complete, Loose;
    Registers(cfg);
    Receiving(cfg, Subscribed(map[], {}));
    StoryOn(cfg, 4, Subscribed(map[], {}));
    JustReceived(Subscribed(map[], {0}));
    DeliverIs(cfg, Subscribed(map[], {0}), Story()[5]);
    StoryOn(cfg, 5, Subscribed(map[], {0}));
    NotifiedIs(cfg);
  }

  lemma Due(cfg: Config)
    ensures Enabled(cfg, Asking(), Story()[6])
  {
    var s := ExpireBackoffs(Asking(), LATER);
    assert s.active[SUBSCRIBED] == Asking().active[SUBSCRIBED];
    assert DueFailure(s, SUBSCRIBED, LATER) == Some(TimedOut);
    var due := [(SUBSCRIBED, TimedOut)];
    assert due[0].0 == SUBSCRIBED && s.active.Keys == {SUBSCRIBED};
    assert ListsDue(s, LATER, due);
  }

  lemma FailsTimedOut(cfg: Config)
    requires Inv(cfg, Asking())
    ensures var after := Next(cfg, Asking(), Story()[6]);
            SUBSCRIBED !in after.engine.observes && SUBSCRIBED in after.inbox && after.inbox[SUBSCRIBED].meta == Err(TimedOut)
  {
    hide InvBut, Fail;
    var s := ExpireBackoffs(Asking(), LATER);
    ExpireTimes(Asking(), LATER);
    TimesKeep(cfg, Asking(), s, None);
    FailIs(cfg, s, SUBSCRIBED, TimedOut, true, None);
    FailDueNext(cfg, s, [(SUBSCRIBED, TimedOut)]);
    FailDueNone(cfg, Fail(s, cfg, SUBSCRIBED, TimedOut, true));
  }

  lemma SubscriptionCut()
    ensures exists cfg, steps, c :: Cut(cfg, steps, c)
  {
    hide Runs, After, Enabled, Next, Inv;
    var cfg := Config(1, 1, false, false);
    StartsSound(cfg, IdleForBody().engine);
    Asks(cfg);
    RunKeeps(cfg, IdleForBody(), Story()[..6], 6);
    assert Story()[..6][..6] == Story()[..6];
    Due(cfg);
    StoryOn(cfg, 6, Asking());
    FailsTimedOut(cfg);
    assert Story()[..7] == Story();
    assert Cut(cfg, Story(), SUBSCRIBED);
  }
}
