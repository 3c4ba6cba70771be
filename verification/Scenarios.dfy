/**
 Runs from an idle client that end where a promise fails. Each is an input the library can receive: slots
 are taken in turn, and a request needs one more free than it uses. The exact condition under which
 the promise holds is proved where the promise is stated.
 */
module Scenarios {
  import opened Common
  import opened Maps
  import opened Engines
  import opened ClientModel
  import opened ClientInvariant
  import opened ClientSteps
  import opened ClientAdmission
  import opened ClientEndings
  import opened ClientRuns
  import opened Cooldowns
  import opened Revocation
  import opened Authority
  import ClientPackets
  import Observe

  // Runs, step by step.

  lemma RunsNone(cfg: Config, s: State)
    ensures Runs(cfg, s, []) && After(cfg, s, []) == s
  {
  }

  lemma RunsOn(cfg: Config, s: State, steps: seq<Step>, step: Step)
    requires Runs(cfg, s, steps) && Enabled(cfg, After(cfg, s, steps), step)
    ensures Runs(cfg, s, steps + [step]) && After(cfg, s, steps + [step]) == Next(cfg, After(cfg, s, steps), step)
  {
    hide Enabled, Next;
    var more := steps + [step];
    assert more[..|steps|] == steps;
    forall i | 0 <= i < |more|
      ensures Enabled(cfg, After(cfg, s, more[..i]), more[i])
    {
      if i < |steps| {
        assert more[..i] == steps[..i];
      }
    }
  }

  /** An idle client with two transmit slots, the least that lets a request out. */
  function Idle(): State {
    State(map[], map[], map[], Engine(map[], {}, [None, None], {}, [], [], {}))
  }

  lemma IdleInv(cfg: Config)
    ensures Inv(cfg, Idle())
  {
    StartsSound(cfg, Idle().engine);
  }

  function Plainly(peer: Peer, con: bool): Live {
    Live(Target(peer, 1, [], []), con, 0, Off, None, Observe.Record(None, None), 9, None, 0, 0)
  }

  // One admission.

  ghost predicate Cool(s: State) {
    s.retired == map[] && forall d :: d in s.active ==> s.active[d].backoff == 0
  }

  lemma CoolStays(s: State)
    requires Cool(s)
    ensures ExpireBackoffs(s, 0) == s && forall t, until :: !Cools(s, t, until)
  {
    var aged := ExpireBackoffs(s, 0);
    assert aged.active == s.active && aged.retired == s.retired;
  }

  /** Nothing is cooling, so a call with a free row is admitted. */
  lemma Admits(cfg: Config, s: State, c: Call, live: Live, x: Sending)
    requires Cool(s) && c !in s.active && |s.active| < cfg.calls && !cfg.full && LiveOk(c, live) && live.backoff == 0 && live.due != 0
    ensures Enabled(cfg, s, Admitting(0, c, live, x))
    ensures Next(cfg, s, Admitting(0, c, live, x)) == Launch(s, c, live, x)
  {
    CoolStays(s);
    hide Launch, ExpireBackoffs, Cools, LiveOk, Credits, Cool;
    assert |s.retired| == 0 by { CoolSize(s); }
    assert Admissible(cfg, s, c, live) by { CoolSize(s); }
  }

  lemma CoolSize(s: State)
    requires Cool(s)
    ensures |s.retired| == 0 && s.retired == map[]
  {
  }

  // One response.

  function Response(kind: Kind, code: Code): Message {
    Message(kind, 5, code, false, None, Observe.Absent, false, NoAge, Plain)
  }

  const CLEAR: Env := Env(true, true, None, false, Ignored, false, false, NotSent, false)

  /** The call waits for its response and nothing else is going on. */
  ghost predicate Awaits(s: State, c: Call) {
    && c in s.active && s.active[c].observe.Off? && s.active[c].record == Observe.Record(None, None)
    && c in s.engine.exchanges && c !in s.engine.observes && c !in s.inbox && s.engine.uploads == []
    && TxOk(s.engine.exchanges, s.engine.tx)
  }

  lemma StopIsOnlyTx(s: State, mid: nat, peer: Peer)
    ensures StopPending(s, mid, peer) == s.(engine := s.engine.(tx := StopPending(s, mid, peer).engine.tx))
  {
  }

  /** A plain response gets as far as being kept. */
  lemma ResponseKept(cfg: Config, s: State, c: Call, rx: Slot, code: Code)
    requires Awaits(s, c) && (code.Success? || code.Overloaded?)
    ensures var m := Response(Non, code);
            && Digested(s, cfg, 0, c, m, CLEAR)
            && exists tx :: Complete(s, cfg, 0, c, rx, m, CLEAR)
                            == Keep(RecordBackoff(WithTx(s, tx), c, m, 0), cfg, 0, c, rx, m, CLEAR, true)
  {
    hide Keep, RecordBackoff, StopPending, Unsent, TxOk;
    var m := Response(Non, code);
    NeverUnsent(s.engine, c);
    var mid := s.engine.exchanges[c].mid;
    var stopped := StopPending(s, mid, c.peer);
    var ready := StopPending(stopped, 5, c.peer);
    StopIsOnlyTx(s, mid, c.peer);
    StopIsOnlyTx(stopped, 5, c.peer);
    assert ready == WithTx(s, ready.engine.tx);
    assert Complete(s, cfg, 0, c, rx, m, CLEAR) == Answer(ready, cfg, 0, c, rx, m, CLEAR, true);
    assert Answer(ready, cfg, 0, c, rx, m, CLEAR, true) == Digest(ready, cfg, 0, c, rx, m, CLEAR, true);
  }

  lemma UnobservedIs(s: State, c: Call, m: Message, room: bool)
    requires c in s.active && s.active[c].observe.Off? && c !in s.engine.observes && m.observe.None?
    ensures RecordObservation(s, c, Notice(m, 0)) == s && AcceptObserve(s, c, HeaderOf(m), true, room) == s
  {
    assert s.active[c := s.active[c].(record := s.active[c].record)] == s.active;
    assert s.engine.observes - {c} == s.engine.observes;
  }

  lemma StoredIs(cfg: Config, s: State, c: Call, meta: Meta)
    requires c !in s.inbox
    ensures var after := StoreReply(s, cfg, c, meta, None);
            after == s.(inbox := if |s.inbox| < cfg.calls then s.inbox[c := Reply(true, Ok(meta), None, None)] else s.inbox)
  {
  }

  lemma KeptIs(cfg: Config, s: State, c: Call, rx: Slot, m: Message)
    requires !cfg.full && c in s.active && s.active[c].observe.Off? && c !in s.engine.observes && c !in s.inbox && m.observe.None?
    ensures var after := Keep(s, cfg, 0, c, rx, m, CLEAR, true);
            && after.active == s.active && after.retired == s.retired && c !in after.engine.exchanges && c !in after.engine.observes
            && after.inbox == (if |s.inbox| < cfg.calls then s.inbox[c := Reply(true, Ok(Meta(HeaderOf(m), 0)), None, None)] else s.inbox)
            && after.engine.rx == s.engine.rx - {rx}
  {
    hide RecordObservation, AcceptObserve, StoreReply, Fail;
    UnobservedIs(s, c, m, CLEAR.room);
    StoredIs(cfg, TakeExchange(s, c), c, Meta(HeaderOf(m), 0));
  }

  /** What the response leaves: its outcome stored if a row is free, and a cooldown if it says so. */
  lemma Answered(cfg: Config, s: State, c: Call, rx: Slot, code: Code)
    requires Awaits(s, c) && (code.Success? || code.Overloaded?) && !cfg.full && s.active.Keys == {c} && s.active[c].backoff == 0
    requires s.retired == map[]
    ensures var after := Complete(s, cfg, 0, c, rx, Response(Non, code), CLEAR);
            && after.active == map[c := s.active[c].(backoff := if code.Overloaded? then 60_000 else 0)]
            && after.retired == map[] && c !in after.engine.exchanges && c !in after.engine.observes
            && after.inbox == (if |s.inbox| < cfg.calls
                               then s.inbox[c := Reply(true, Ok(Meta(HeaderOf(Response(Non, code)), 0)), None, None)] else s.inbox)
            && after.engine.rx == s.engine.rx - {rx}
  {
    hide Keep, Complete, Digested;
    var m := Response(Non, code);
    ResponseKept(cfg, s, c, rx, code);
    var tx :| Complete(s, cfg, 0, c, rx, m, CLEAR) == Keep(RecordBackoff(WithTx(s, tx), c, m, 0), cfg, 0, c, rx, m, CLEAR, true);
    var noted := RecordBackoff(WithTx(s, tx), c, m, 0);
    NotedIs(s, tx, c, code);
    KeptIs(cfg, noted, c, rx, m);
  }

  lemma NotedIs(s: State, tx: seq<Option<Packet>>, c: Call, code: Code)
    requires c in s.active && s.active.Keys == {c} && s.active[c].backoff == 0 && s.retired == map[]
    ensures var noted := RecordBackoff(WithTx(s, tx), c, Response(Non, code), 0);
            && noted.active == map[c := s.active[c].(backoff := if code.Overloaded? then 60_000 else 0)]
            && noted.retired == map[] && noted.inbox == s.inbox && noted.engine == s.engine.(tx := tx)
  {
    assert s.active == map[c := s.active[c]];
  }

  // From an idle client to a stored response.

  const SENT: Sending := Sending(Exchange(1, 0), Some(Started(0, 0)), None, true)

  function Waiting1(c: Call): State {
    State(map[c := Plainly(c.peer, true)], map[], map[],
          Engine(map[c := Exchange(1, 0)], {}, [Some(Packet(c.peer, c.token, true, Some(Pending(1, Started(0, 0))))), None],
                 {}, [], [], {c}))
  }

  lemma LaunchedIs(c: Call)
    ensures Launch(Idle(), c, Plainly(c.peer, true), SENT) == Waiting1(c)
  {
    MapSame(Idle().inbox, c);
  }

  function Sends(c: Call): seq<Step> {
    [Admitting(0, c, Plainly(c.peer, true), SENT)]
  }

  /** A confirmable request is sent and stays pending in the first slot. */
  lemma Begins(cfg: Config, c: Call)
    requires cfg.calls > 0 && !cfg.full
    ensures Runs(cfg, Idle(), Sends(c)) && After(cfg, Idle(), Sends(c)) == Waiting1(c)
    ensures Inv(cfg, Waiting1(c))
  {
    hide Runs, After, Enabled, Next, Launch, Inv;
    RunsNone(cfg, Idle());
    assert Cool(Idle());
    Admits(cfg, Idle(), c, Plainly(c.peer, true), SENT);
    LaunchedIs(c);
    RunsOn(cfg, Idle(), [], Sends(c)[0]);
    assert [] + [Sends(c)[0]] == Sends(c);
    Reached(cfg, Sends(c));
  }

  /** Every state reached keeps the invariant. */
  lemma Reached(cfg: Config, steps: seq<Step>)
    requires Runs(cfg, Idle(), steps)
    ensures Inv(cfg, After(cfg, Idle(), steps))
  {
    hide Runs, After, Inv;
    IdleInv(cfg);
    RunKeeps(cfg, Idle(), steps, |steps|);
    assert steps[..|steps|] == steps;
  }

  function WithRx(s: State, rx: set<Slot>): State {
    s.(engine := s.engine.(rx := rx))
  }

  lemma Receives(cfg: Config, s: State, steps: seq<Step>)
    requires Runs(cfg, s, steps) && 0 !in After(cfg, s, steps).engine.rx
    ensures var more := steps + [Received(0)];
            && Runs(cfg, s, more)
            && After(cfg, s, more) == WithRx(After(cfg, s, steps), After(cfg, s, steps).engine.rx + {0})
  {
    hide Runs, After;
    RunsOn(cfg, s, steps, Received(0));
  }

  /** A packet no row holds. */
  lemma JustReceived(s: State)
    requires 0 in s.engine.rx && forall c :: c in s.inbox ==> s.inbox[c].datagram.None?
    ensures Loose(s, 0)
  {
  }

  lemma Delivers(cfg: Config, s: State, steps: seq<Step>, c: Call, m: Message)
    requires Runs(cfg, s, steps) && Loose(After(cfg, s, steps), 0)
    ensures var more := steps + [Deliver(0, c, 0, m, CLEAR)];
            Runs(cfg, s, more) && After(cfg, s, more) == Complete(After(cfg, s, steps), cfg, 0, c, 0, m, CLEAR)
  {
    hide Runs, After, Complete, Loose;
    RunsOn(cfg, s, steps, Deliver(0, c, 0, m, CLEAR));
  }

  /** The response is stored, and no packet is left over. */
  ghost predicate HoldsResponse(s: State, c: Call, code: Code) {
    && s.active == map[c := Plainly(c.peer, true).(backoff := if code.Overloaded? then 60_000 else 0)] && s.retired == map[]
    && s.inbox == map[c := Reply(true, Ok(Meta(HeaderOf(Response(Non, code)), 0)), None, None)]
    && s.engine.rx == {} && c !in s.engine.exchanges && c !in s.engine.observes
  }

  function IsAnswered(c: Call, code: Code): seq<Step> {
    Sends(c) + [Received(0)] + [Deliver(0, c, 0, Response(Non, code), CLEAR)]
  }

  lemma Responds(cfg: Config, c: Call, code: Code)
    requires cfg.calls > 0 && !cfg.full && (code.Success? || code.Overloaded?)
    ensures Runs(cfg, Idle(), IsAnswered(c, code)) && HoldsResponse(After(cfg, Idle(), IsAnswered(c, code)), c, code)
  {
    hide Runs, After, Inv, Complete, Enabled, Next, Loose;
    Begins(cfg, c);
    Receives(cfg, Idle(), Sends(c));
    var received := Sends(c) + [Received(0)];
    var s := After(cfg, Idle(), received);
    assert s == WithRx(Waiting1(c), {0});
    JustReceived(s);
    assert Awaits(s, c) by { WaitingOk(c); }
    Answered(cfg, s, c, 0, code);
    Delivers(cfg, Idle(), received, c, Response(Non, code));
  }

  lemma WaitingOk(c: Call)
    ensures TxOk(Waiting1(c).engine.exchanges, Waiting1(c).engine.tx)
  {
  }

  // A stored response replaced by a failure.

  /** A run in which a stored, untaken response gives way to a failure. */
  ghost predicate Replaces(cfg: Config, steps: seq<Step>, c: Call, i: nat) {
    && i <= |steps| && Runs(cfg, Idle(), steps)
    && Settled(After(cfg, Idle(), steps[..i]), c) && After(cfg, Idle(), steps[..i]).inbox[c].meta.Ok?
    && (forall k :: 0 <= k < |steps| ==> !Takes(steps[k], c))
    && c in After(cfg, Idle(), steps).inbox && After(cfg, Idle(), steps).inbox[c] == DISTURBED
  }

  /** The server answers again, confirmably, and the Reset that refuses it is cut short. */
  lemma ResponseReplaced()
    ensures exists cfg, steps, c, i :: Replaces(cfg, steps, c, i)
  {
    hide Runs, After, Inv, Interrupt;
    var cfg, c := Config(1, 1, false, false), Call(1, 7);
    var answered := IsAnswered(c, Success);
    Responds(cfg, c, Success);
    Receives(cfg, Idle(), answered);
    var again := answered + [Received(0)];
    var s := After(cfg, Idle(), again);
    JustReceived(s);
    var step := Interrupted(0, c, 0, Response(Con, Success), false);
    RunsOn(cfg, Idle(), again, step);
    var steps := again + [step];
    Reached(cfg, again);
    DisturbedIs(cfg, s, step, c);
    assert steps[..3] == answered;
    assert Replaces(cfg, steps, c, 3);
  }

  // A collected call answered again.

  /** A run that hands out the call's outcome, after which revoking its peer has it handed out again. */
  ghost predicate Repeats(cfg: Config, steps: seq<Step>, c: Call) {
    && steps != [] && Runs(cfg, Idle(), steps)
    && Handed(After(cfg, Idle(), steps[..|steps| - 1]), steps[|steps| - 1], c).Some?
    && var s := After(cfg, Idle(), steps);
       ListsRows(s, c.peer, [c]) && Take(Revoke(s, cfg, [c]), c, false).1.Some?
  }

  /** An overloaded server's response is collected, then the association revoked. */
  lemma AnsweredTwice()
    ensures exists cfg, steps, c :: Repeats(cfg, steps, c)
  {
    hide Runs, After, Inv, Revoke, Collect, ListsRows;
    var cfg, c := Config(1, 1, false, true), Call(1, 7);
    var answered := IsAnswered(c, Overloaded);
    Responds(cfg, c, Overloaded);
    var s := After(cfg, Idle(), answered);
    var step := Collected(c, false);
    RunsOn(cfg, Idle(), answered, step);
    var steps := answered + [step];
    assert steps[..|steps| - 1] == answered;
    CollectedCools(s, c);
    Reached(cfg, steps);
    AnsweredAgainIff(cfg, Collect(s, c), c.peer, [c], c);
    assert Repeats(cfg, steps, c);
  }

  lemma CollectedCools(s: State, c: Call)
    requires HoldsResponse(s, c, Overloaded)
    ensures var t := Collect(s, c);
            c !in t.inbox && Retires(t.retired, c) && ListsRows(t, c.peer, [c])
  {
    var t, live := Collect(s, c), Plainly(c.peer, true);
    assert t.active == map[] && t.retired == map[live.target := Cooling(60_000, c)];
    assert t.retired[live.target].call == c;
  }

  // An outcome lost after a revocation.

  /** A run, a revocation, and a run from there whose last step digests the response of a call that then
      has neither an outcome nor anything that will ever end it. */
  ghost predicate Loses(cfg: Config, steps: seq<Step>, peer: Peer, calls: seq<Call>, later: seq<Step>, c: Call) {
    && Runs(cfg, Idle(), steps) && ListsRows(After(cfg, Idle(), steps), peer, calls) && later != []
    && var r := Revoke(After(cfg, Idle(), steps), cfg, calls);
       && Runs(cfg, r, later)
       && var last := later[|later| - 1];
          && last.Deliver? && last.call == c
          && Digested(After(cfg, r, later[..|later| - 1]), cfg, last.now, c, last.message, last.env)
          && Forgotten(After(cfg, r, later), c)
  }

  /** Active, without an outcome, and never due. */
  ghost predicate Forgotten(s: State, c: Call) {
    c in s.active && c !in s.inbox && c !in s.engine.exchanges && forall now :: DueFailure(s, c, now).None?
  }

  lemma RevokedIs(cfg: Config, c: Call)
    requires cfg.calls > 0 && !cfg.full
    ensures ListsRows(Waiting1(c), c.peer, [c])
    ensures var r := Revoke(Waiting1(c), cfg, [c]);
            && r.active == map[] && r.retired == map[] && r.inbox == map[c := REVOKED]
            && r.engine.exchanges == map[] && r.engine.observes == {} && r.engine.rx == {} && r.engine.uploads == []
            && TxOk(r.engine.exchanges, r.engine.tx)
  {
    hide Inv, Runs, After, DropExchange, RevokeOne, DropUpload, BodiesWithout, TxOk, Accounted;
    Begins(cfg, c);
    var s := Waiting1(c);
    InvAccounts(cfg, s);
    RevokeOneIs(cfg, s, c);
    RevokedOnce(s, cfg, c);
    WaitingOk(c);
    DropExchangeOk(s.engine, c);
    NoUploads(s, c);
    var r := Revoke(s, cfg, [c]);
    assert r.active == map[] && r.retired == map[] && r.engine.exchanges == map[];
  }

  lemma RevokedOnce(s: State, cfg: Config, c: Call)
    ensures Revoke(s, cfg, [c]) == RevokeOne(s, cfg, c)
  {
    hide RevokeOne;
    assert [c][1..] == [];
  }

  lemma NoUploads(s: State, c: Call)
    requires s.engine.uploads == []
    ensures DropUpload(s, c).engine.uploads == []
  {
  }

  /** The new call: a request that needs no confirmation, sent through the second slot. */
  const AGAIN: Sending := Sending(Exchange(2, 1), None, None, true)

  lemma AdmittedIs(s: State, c: Call)
    requires s.active == map[] && c !in s.inbox && s.engine.uploads == [] && TxOk(s.engine.exchanges, s.engine.tx) && s.engine.exchanges == map[]
    ensures var t := Launch(s, c, Plainly(c.peer, false), AGAIN);
            && t.active == map[c := Plainly(c.peer, false)] && t.retired == s.retired && t.inbox == s.inbox
            && t.engine == s.engine.(exchanges := map[c := Exchange(2, 1)], bindings := s.engine.bindings + {c})
            && TxOk(t.engine.exchanges, t.engine.tx)
  {
    hide TxOk;
    MapSame(s.inbox, c);
    UnlistedOk(s.engine.tx, c);
  }

  lemma UnlistedOk(tx: seq<Option<Packet>>, c: Call)
    requires TxOk(map[], tx)
    ensures TxOk(map[c := Exchange(2, 1)], tx)
  {
  }

  function Later(c: Call): seq<Step> {
    [Admitting(0, c, Plainly(c.peer, false), AGAIN)] + [Received(0)] + [Deliver(0, c, 0, Response(Non, Success), CLEAR)]
  }

  /** With every reply row another call's, the new call's response is digested and lost. */
  lemma LosesFrom(cfg: Config, r: State, c: Call)
    requires cfg.calls > 0 && !cfg.full && r.active == map[] && r.retired == map[] && |r.inbox| >= cfg.calls && c !in r.inbox
    requires forall d :: d in r.inbox ==> r.inbox[d].datagram.None?
    requires r.engine.exchanges == map[] && r.engine.observes == {} && r.engine.rx == {} && r.engine.uploads == []
    requires TxOk(r.engine.exchanges, r.engine.tx)
    ensures Runs(cfg, r, Later(c))
    ensures Digested(After(cfg, r, Later(c)[..2]), cfg, 0, c, Response(Non, Success), CLEAR) && Forgotten(After(cfg, r, Later(c)), c)
  {
    hide Runs, After, Complete, Digested, Launch, TxOk, Enabled, Next, Loose;
    RunsNone(cfg, r);
    Admits(cfg, r, c, Plainly(c.peer, false), AGAIN);
    AdmittedIs(r, c);
    RunsOn(cfg, r, [], Later(c)[0]);
    assert [] + [Later(c)[0]] == [Later(c)[0]];
    Receives(cfg, r, [Later(c)[0]]);
    var received := [Later(c)[0]] + [Received(0)];
    assert Later(c)[..2] == received;
    var s := After(cfg, r, received);
    JustReceived(s);
    assert Awaits(s, c);
    ResponseKept(cfg, s, c, 0, Success);
    Answered(cfg, s, c, 0, Success);
    Delivers(cfg, r, received, c, Response(Non, Success));
  }

  /** The reply table is full of the revoked call's failure when the new one's response comes. */
  lemma RevokedCanLose()
    ensures exists cfg, steps, peer, calls, later, c :: Loses(cfg, steps, peer, calls, later, c)
  {
    hide Runs, After, Inv, Revoke, ListsRows, Digested, TxOk, Forgotten;
    var cfg, first, c := Config(1, 1, false, true), Call(1, 7), Call(2, 8);
    Begins(cfg, first);
    RevokedIs(cfg, first);
    LosesFrom(cfg, Revoke(Waiting1(first), cfg, [first]), c);
    assert Loses(cfg, Sends(first), 7, [first], Later(c), c);
  }

  // A request silenced by another call's response.

  /** A run whose last step delivers one call's response, and with it ends the retransmissions of another
      call, which still waits for its own. */
  ghost predicate Silenced(cfg: Config, steps: seq<Step>, d: Call) {
    && steps != [] && Runs(cfg, Idle(), steps)
    && var last, before, after := steps[|steps| - 1], After(cfg, Idle(), steps[..|steps| - 1]), After(cfg, Idle(), steps);
       && last.Deliver? && last.call != d
       && ClientPackets.PacketOf(before.engine, d).Some? && ClientPackets.PacketOf(after.engine, d).None?
       && Waiting(after, d) && d in after.engine.exchanges && d !in after.inbox
  }

  const CONFIRMED: Sending := Sending(Exchange(2, 1), Some(Started(0, 0)), None, true)

  function SendsTwo(c: Call, d: Call): seq<Step> {
    [Admitting(0, c, Plainly(c.peer, false), FIRST)] + [Admitting(0, d, Plainly(d.peer, true), CONFIRMED)] + [Received(0)]
  }

  lemma TwoSent(c: Call, d: Call)
    requires c != d
    ensures var s := Launch(Idle(), c, Plainly(c.peer, false), FIRST);
            && s.active == map[c := Plainly(c.peer, false)] && s.retired == map[]
            && var t := Launch(s, d, Plainly(d.peer, true), CONFIRMED);
               && t.active == map[c := Plainly(c.peer, false), d := Plainly(d.peer, true)] && t.inbox == map[]
               && t.engine.exchanges == map[c := Exchange(1, 0), d := Exchange(2, 1)] && t.engine.observes == {} && t.engine.rx == {}
               && t.engine.tx == [None, Some(Packet(d.peer, d.token, true, Some(Pending(2, Started(0, 0)))))]
  {
  }

  lemma TwoBegin(cfg: Config, c: Call, d: Call)
    requires cfg.calls >= 2 && !cfg.full && c != d
    ensures Runs(cfg, Idle(), SendsTwo(c, d))
    ensures var s := After(cfg, Idle(), SendsTwo(c, d));
            && Inv(cfg, s) && Loose(s, 0) && s.inbox == map[] && s.engine.observes == {}
            && s.active == map[c := Plainly(c.peer, false), d := Plainly(d.peer, true)]
            && s.engine.exchanges == map[c := Exchange(1, 0), d := Exchange(2, 1)]
            && s.engine.tx == [None, Some(Packet(d.peer, d.token, true, Some(Pending(2, Started(0, 0)))))]
  {
    hide Runs, After, Launch, Inv, Enabled, Next, Loose;
    var steps := SendsTwo(c, d);
    TwoSent(c, d);
    RunsNone(cfg, Idle());
    Admits(cfg, Idle(), c, Plainly(c.peer, false), FIRST);
    RunsOn(cfg, Idle(), [], steps[0]);
    assert [] + [steps[0]] == [steps[0]];
    Admits(cfg, After(cfg, Idle(), [steps[0]]), d, Plainly(d.peer, true), CONFIRMED);
    RunsOn(cfg, Idle(), [steps[0]], steps[1]);
    Receives(cfg, Idle(), [steps[0]] + [steps[1]]);
    Reached(cfg, steps);
    JustReceived(After(cfg, Idle(), steps));
  }

  lemma StopsOther(cfg: Config, s: State, c: Call, d: Call)
    requires Inv(cfg, s) && c != d && c.peer == d.peer && !cfg.protected && Loose(s, 0)
    requires s.active == map[c := Plainly(c.peer, false), d := Plainly(d.peer, true)] && s.inbox == map[] && s.engine.observes == {}
    requires s.engine.exchanges == map[c := Exchange(1, 0), d := Exchange(2, 1)]
    requires s.engine.tx == [None, Some(Packet(d.peer, d.token, true, Some(Pending(2, Started(0, 0)))))]
    ensures var step := Deliver(0, c, 0, Response(Non, Success).(mid := 2), CLEAR);
            && Enabled(cfg, s, step) && ClientPackets.Stops(cfg, s, step, d) && ClientPackets.PacketOf(s.engine, d).Some?
  {
    hide InvRest, Loose, Unsent;
    NeverUnsent(s.engine, c);
  }

  /** The server answers an unconfirmed request with a Message ID of its own, which happens to be that of
      a confirmable request on its way to it. */
  lemma ResponseSilences()
    ensures exists cfg, steps, d :: Silenced(cfg, steps, d)
  {
    hide Runs, After, Inv, Enabled, Next, ClientPackets.Stops, ClientPackets.PacketOf, Loose;
    var cfg, c, d := Config(2, 1, false, false), Call(1, 7), Call(2, 7);
    TwoBegin(cfg, c, d);
    var begun := SendsTwo(c, d);
    var s := After(cfg, Idle(), begun);
    var step := Deliver(0, c, 0, Response(Non, Success).(mid := 2), CLEAR);
    StopsOther(cfg, s, c, d);
    RunsOn(cfg, Idle(), begun, step);
    StepSound(cfg, s, step);
    ClientPackets.PacketStopsIff(cfg, s, step, d);
    var steps := begun + [step];
    assert steps[..|steps| - 1] == begun;
    StillWaits(s, After(cfg, Idle(), steps), d);
    assert Silenced(cfg, steps, d);
  }

  lemma StillWaits(s: State, after: State, d: Call)
    requires SameFor(s, after, d) && d in s.active && d !in s.inbox && d in s.engine.exchanges
    ensures Waiting(after, d) && d in after.engine.exchanges && d !in after.inbox
  {
  }

  // A Reset taken for another call's.

  /** A run after which a Reset for a pending packet, sent by its peer, would end a call that did not send it. */
  ghost predicate Misattributes(cfg: Config, steps: seq<Step>, order: seq<Call>, mid: nat, peer: Peer, slot: Slot) {
    && Runs(cfg, Idle(), steps)
    && var s := After(cfg, Idle(), steps);
       && Enabled(cfg, s, Step.ResetBy(order, mid, peer)) && PendingIn(s.engine, mid, peer, slot)
       && var c := ResetTarget(order, s.engine, mid, peer);
          c.Some? && !Authority.Sent(s.engine, c.value, mid, peer)
  }

  const SECOND: Sending := Sending(Exchange(2, 0), Some(Started(0, 0)), None, true)

  /** An empty message on its way out. */
  const CONTROL: Packet := Packet(9, 0, false, None)

  lemma OlderSent(older: Call)
    ensures var s := Launch(Idle(), older, Plainly(older.peer, false), FIRST);
            && s.active == map[older := Plainly(older.peer, false)] && s.retired == map[] && s.inbox == map[]
            && s.engine == Idle().engine.(exchanges := map[older := Exchange(1, 0)], bindings := {older})
  {
  }

  lemma NewerSent(s: State, older: Call, newer: Call)
    requires older != newer && s.engine.exchanges == map[older := Exchange(1, 0)] && s.engine.tx == [None, None]
    ensures var t := Launch(s, newer, Plainly(newer.peer, true), SECOND);
            && t.engine.exchanges == map[older := Exchange(1, 0), newer := Exchange(2, 0)]
            && t.engine.tx == [Some(Packet(newer.peer, newer.token, true, Some(Pending(2, Started(0, 0))))), None]
  {
  }

  /** An empty message goes out through the second slot. */
  lemma ControlSent(cfg: Config, s: State, steps: seq<Step>)
    requires Runs(cfg, s, steps) && After(cfg, s, steps).engine.tx == [None, None]
    ensures var more := steps + [Elsewhere(1, Some(CONTROL))] + [Elsewhere(1, None)];
            Runs(cfg, s, more) && After(cfg, s, more) == After(cfg, s, steps)
  {
    hide Runs, After;
    var t := After(cfg, s, steps);
    RunsOn(cfg, s, steps, Elsewhere(1, Some(CONTROL)));
    RunsOn(cfg, s, steps + [Elsewhere(1, Some(CONTROL))], Elsewhere(1, None));
    assert t.engine.tx[1 := Some(CONTROL)][1 := None] == t.engine.tx;
  }

  /** An unconfirmed request leaves its slot, and its exchange, behind. After a message in the other
      slot, the next request to the same server takes the first one again, and its Reset is taken
      for the older request's. */
  lemma ResetCanMiss()
    ensures exists cfg, steps, order, mid, peer, slot :: Misattributes(cfg, steps, order, mid, peer, slot)
  {
    hide Runs, After, Launch;
    var cfg, older, newer := Config(2, 1, false, false), Call(1, 7), Call(2, 7);
    var one := Admitting(0, older, Plainly(7, false), FIRST);
    OlderSent(older);
    RunsNone(cfg, Idle());
    Admits(cfg, Idle(), older, Plainly(7, false), FIRST);
    RunsOn(cfg, Idle(), [], one);
    ControlSent(cfg, Idle(), [] + [one]);
    var steps := [] + [one] + [Elsewhere(1, Some(CONTROL))] + [Elsewhere(1, None)];
    var s := After(cfg, Idle(), steps);
    Admits(cfg, s, newer, Plainly(7, true), SECOND);
    NewerSent(s, older, newer);
    RunsOn(cfg, Idle(), steps, Admitting(0, newer, Plainly(7, true), SECOND));
    var all := steps + [Admitting(0, newer, Plainly(7, true), SECOND)];
    MissesIn(After(cfg, Idle(), all).engine, older, newer);
    assert Misattributes(cfg, all, [older, newer], 2, 7, 0);
  }

  lemma MissesIn(e: Engine, older: Call, newer: Call)
    requires older == Call(1, 7) && newer == Call(2, 7)
    requires e.exchanges == map[older := Exchange(1, 0), newer := Exchange(2, 0)]
    requires e.tx == [Some(Packet(7, 2, true, Some(Pending(2, Started(0, 0))))), None]
    ensures var order := [older, newer];
            && Enumerates(order, e) && PendingIn(e, 2, 7, 0)
            && ResetTarget(order, e, 2, 7) == Some(older) && !Authority.Sent(e, older, 2, 7)
  {
    assert Owns(e.tx[0], 2, 7);
    assert ForTx([older, newer], e, 0) == Some(older);
  }

  // An exchange taken by another call's failed upload.

  /** The same with room for one upload. */
  function IdleForUpload(): State {
    Idle().(engine := Idle().engine.(uploads := [None]))
  }

  /** A run whose last step ends one call's upload and leaves another call with nothing that will end it. */
  ghost predicate Robbed(cfg: Config, steps: seq<Step>, d: Call) {
    && steps != [] && Runs(cfg, IdleForUpload(), steps)
    && var before := After(cfg, IdleForUpload(), steps[..|steps| - 1]);
       && About(before, steps[|steps| - 1]) != Some(d) && d in before.engine.exchanges
       && Forgotten(After(cfg, IdleForUpload(), steps), d)
  }

  const FIRST: Sending := Sending(Exchange(1, 0), None, None, true)
  const UPLOAD: Sending := Sending(Exchange(2, 1), None, Some(0), true)

  lemma UploadStarts(older: Call, newer: Call)
    requires older != newer && older.peer == newer.peer
    ensures var s := Launch(IdleForUpload(), older, Plainly(older.peer, false), FIRST);
            && s.active == map[older := Plainly(older.peer, false)] && s.retired == map[]
            && var t := Launch(s, newer, Plainly(newer.peer, false), UPLOAD);
               && t.active == map[older := Plainly(older.peer, false), newer := Plainly(newer.peer, false)] && t.inbox == map[]
               && t.engine.exchanges == map[older := Exchange(1, 0), newer := Exchange(2, 1)] && t.engine.tx == [None, None]
               && t.engine.uploads == [Some(Upload(newer, 0))]
  {
  }

  lemma ForgottenAfter(s: State, after: State, d: Call)
    requires SameFor(s, after, d) && d in s.active && d !in s.inbox && d !in s.engine.exchanges && s.active[d].deadline.None?
    ensures Forgotten(after, d)
  {
  }

  /** An unconfirmed request waits for its answer. A paced upload to the same server begins in the second
      slot and goes on in the first, where its send fails and takes the waiting call's exchange. */
  lemma UploadRobs()
    ensures exists cfg, steps, d :: Robbed(cfg, steps, d)
  {
    hide Runs, After, Inv, FailUpload, Forgotten, Enabled, Next;
    var cfg, older, newer := Config(2, 1, false, false), Call(1, 7), Call(2, 7);
    UploadBegins(cfg, older, newer);
    var s := After(cfg, IdleForUpload(), Uploads2(older, newer));
    RobsEnabled(cfg, s, older, newer);
    RobsOlder(cfg, s, older, newer);
    var step := UploadFailed([older, newer], newer, Exchange(3, 0), true);
    RunsOn(cfg, IdleForUpload(), Uploads2(older, newer), step);
    var steps := Uploads2(older, newer) + [step];
    assert steps[..|steps| - 1] == Uploads2(older, newer);
    assert Robbed(cfg, steps, older);
  }

  function Uploads2(older: Call, newer: Call): seq<Step> {
    [Admitting(0, older, Plainly(older.peer, false), FIRST)] + [Admitting(0, newer, Plainly(newer.peer, false), UPLOAD)]
  }

  lemma UploadBegins(cfg: Config, older: Call, newer: Call)
    requires cfg.calls >= 2 && !cfg.full && older != newer && older.peer == newer.peer
    ensures Runs(cfg, IdleForUpload(), Uploads2(older, newer))
    ensures var s := After(cfg, IdleForUpload(), Uploads2(older, newer));
            Inv(cfg, s) && Uploads2Begun(s, older, newer)
  {
    hide Runs, After, Launch, Inv, Enabled, Next;
    var start, steps := IdleForUpload(), Uploads2(older, newer);
    StartsSound(cfg, start.engine);
    UploadStarts(older, newer);
    RunsNone(cfg, start);
    Admits(cfg, start, older, Plainly(older.peer, false), FIRST);
    RunsOn(cfg, start, [], steps[0]);
    assert [] + [steps[0]] == [steps[0]];
    Admits(cfg, After(cfg, start, [steps[0]]), newer, Plainly(newer.peer, false), UPLOAD);
    RunsOn(cfg, start, [steps[0]], steps[1]);
    RunKeeps(cfg, start, steps, |steps|);
    assert steps[..|steps|] == steps;
  }

  lemma FoundFirst(e: Engine, older: Call, newer: Call, own: Exchange)
    requires older != newer && e.exchanges == map[older := Exchange(1, 0), newer := own]
    ensures Enumerates([older, newer], e) && ForTx([older, newer], e, 0) == Some(older)
  {
  }

  lemma AllFree(tx: seq<Option<Packet>>, c: Call)
    requires tx == [None, None]
    ensures Quiet(tx, c)
  {
  }

  ghost predicate Uploads2Begun(s: State, older: Call, newer: Call) {
    && s.active == map[older := Plainly(older.peer, false), newer := Plainly(newer.peer, false)] && s.inbox == map[]
    && s.engine.exchanges == map[older := Exchange(1, 0), newer := Exchange(2, 1)] && s.engine.tx == [None, None]
    && s.engine.uploads == [Some(Upload(newer, 0))]
  }

  lemma RobsEnabled(cfg: Config, s: State, older: Call, newer: Call)
    requires older != newer && Uploads2Begun(s, older, newer)
    ensures Enabled(cfg, s, UploadFailed([older, newer], newer, Exchange(3, 0), true))
    ensures ForTx([older, newer], Authority.Recorded(s, newer, Exchange(3, 0), true).engine, 0) == Some(older)
  {
    hide ForTx, Enumerates, Quiet;
    var own := Exchange(3, 0);
    assert s.engine.uploads[0].value.call == newer;
    var asked := Authority.Recorded(s, newer, own, true);
    assert asked.engine.exchanges == map[older := Exchange(1, 0), newer := own];
    FoundFirst(asked.engine, older, newer, own);
    AllFree(s.engine.tx, newer);
  }

  lemma RobsOlder(cfg: Config, s: State, older: Call, newer: Call)
    requires Inv(cfg, s) && older != newer && Uploads2Begun(s, older, newer)
    ensures Forgotten(Next(cfg, s, UploadFailed([older, newer], newer, Exchange(3, 0), true)), older)
  {
    hide Inv, FailUpload, Forgotten, ForTx, Quiet, SameFor, Loose, Authority.Recorded;
    RobsEnabled(cfg, s, older, newer);
    AllFree(s.engine.tx, newer);
    FailUploadKeeps(cfg, s, [older, newer], newer, Exchange(3, 0), true);
    ForgottenAfter(TakeExchange(s, older), FailUpload(s, cfg, [older, newer], newer, Exchange(3, 0), true), older);
  }
}
