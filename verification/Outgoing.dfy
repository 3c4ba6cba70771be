/** Deciding whether a request may go ahead: the checks of `prepare`, in their order, and what each
    outcome says about the state. */
module Outgoing {
  import opened Common
  import opened Engines
  import opened ClientModel
  import opened ClientInvariant
  import opened ClientAdmission
  import opened ClientRuns
  import opened LiveTable
  import opened ReplyTable
  import opened Clients
  import opened ClientPoll
  import opened Prepared
  import Observe

  datatype Refusal = Backoff(until: nat) | Saturated | TokenExhausted | DeadlineElapsed | Mismatch | Ambiguous | RefreshMismatch

  // The subscription a refresh or a deregistration is about.

  ghost predicate Subscribed(s: State, c: Call, peer: Peer, identity: Identity, target: Option<Call>) {
    && c in s.active && c.peer == peer && s.active[c].observe.Register? && s.active[c].due != 0 && Waiting(s, c)
    && s.active[c].identity == Some(identity) && (target.None? || c == target.value)
  }

  ghost predicate OnlySubscribed(s: State, c: Call, peer: Peer, identity: Identity, target: Option<Call>) {
    Subscribed(s, c, peer, identity, target) && forall d :: Subscribed(s, d, peer, identity, target) ==> d == c
  }

  /** `observe_call`: the one matching subscription, or why there is not one. */
  method FindSubscription(client: Client, peer: Peer, identity: Identity, target: Option<Call>) returns (r: Result<Call, Refusal>)
    requires client.Valid()
    ensures r.Ok? ==> OnlySubscribed(client.S(), r.value, peer, identity, target)
    ensures r.Err? ==> forall c :: !OnlySubscribed(client.S(), c, peer, identity, target)
    ensures r.Err? ==> r.error == (if exists c :: Subscribed(client.S(), c, peer, identity, target) then Ambiguous else Mismatch)
  {
    var rows := client.lives.rows;
    ghost var s := client.S();
    var found: Option<Call> := None;
    for i := 0 to |rows|
      invariant found.Some? ==> Before(rows, i, found.value) && Subscribed(s, found.value, peer, identity, target)
      invariant forall c :: Before(rows, i, c) && Subscribed(s, c, peer, identity, target) ==> found == Some(c)
    {
      hide OnePerEndpoint, LiveTable.Views, ReplyTable.Views, Before, Subscribed;
      RowShows(rows, s, i);
      BeforeNext(rows, i);
      if rows[i].Some? && !rows[i].value.retired {
        var c := rows[i].value.call;
        var matches := RowSubscribed(client, c, rows[i].value.live, peer, identity, target);
        if matches {
          if found.Some? { return Err(Ambiguous); }
          found := Some(c);
        }
      }
    }
    hide Subscribed, Before;
    BeforeAll(rows, s.active, s.retired);
    assert forall c :: Subscribed(s, c, peer, identity, target) ==> c in s.active by { SubscribedActive(s, peer, identity, target); }
    return if found.Some? then Ok(found.value) else Err(Mismatch);
  }

  lemma SubscribedActive(s: State, peer: Peer, identity: Identity, target: Option<Call>)
    ensures forall c :: Subscribed(s, c, peer, identity, target) ==> c in s.active
  {
  }

  method RowSubscribed(client: Client, c: Call, live: Live, peer: Peer, identity: Identity, target: Option<Call>) returns (ok: bool)
    requires client.Valid() && c in client.S().active && client.S().active[c] == live
    ensures ok <==> Subscribed(client.S(), c, peer, identity, target)
  {
    hide LiveTable.Views, ReplyTable.Views, OnePerEndpoint;
    if c.peer != peer || !live.observe.Register? || live.due == 0 { return false; }
    var reply := client.inbox.Get(c);
    if reply.Some? && reply.value.complete && c !in client.engine.observes { return false; }
    return live.identity == Some(identity) && (target.None? || c == target.value);
  }

  ghost predicate AllUsed(s: State, candidates: seq<Token>) {
    forall k :: 0 <= k < |candidates| ==> TokenUsed(s.active, s.retired, candidates[k])
  }

  /** The first candidate that no row uses. */
  ghost predicate FirstUnused(s: State, candidates: seq<Token>, token: Token) {
    exists k :: 0 <= k < |candidates| && candidates[k] == token && AllUsed(s, candidates[..k]) && !TokenUsed(s.active, s.retired, token)
  }

  /** `next_token`: the first of at most eight candidates no row uses. */
  method NextToken(client: Client, candidates: seq<Token>) returns (r: Option<Token>)
    requires client.Valid() && |candidates| <= 8
    ensures r.None? ==> AllUsed(client.S(), candidates)
    ensures r.Some? ==> FirstUnused(client.S(), candidates, r.value)
  {
    hide LiveTable.Views, ReplyTable.Views, OnePerEndpoint, TokenUsed;
    for i := 0 to |candidates|
      invariant forall k :: 0 <= k < i ==> TokenUsed(client.S().active, client.S().retired, candidates[k])
    {
      var used := client.lives.UsesToken(candidates[i]);
      if !used {
        assert AllUsed(client.S(), candidates[..i]);
        return Some(candidates[i]);
      }
    }
    return None;
  }

  /** The longest cooldown of the target. */
  ghost predicate CoolsUntil(s: State, target: Target, until: nat) {
    Cools(s, target, until) && forall u: nat :: Cools(s, target, u) ==> u <= until
  }

  ghost predicate IsCool(s: State, target: Target) {
    forall u: nat :: !Cools(s, target, u)
  }

  /** No row is free, or no receive packet for a further response. */
  predicate Full(cfg: Config, s: State) {
    (cfg.full && Credits(s) >= SatSub(cfg.rxSlots, RX_HEADROOM)) || |s.active| + |s.retired| >= cfg.calls
  }

  /** Why a new call is turned away: exactly one reason, in this order. */
  ghost predicate RefusesNew(cfg: Config, s: State, now: nat, live: Live, candidates: seq<Token>, r: Refusal) {
    match r
    case Backoff(until) => CoolsUntil(s, live.target, until)
    case Saturated => IsCool(s, live.target) && Full(cfg, s)
    case TokenExhausted => IsCool(s, live.target) && !Full(cfg, s) && AllUsed(s, candidates)
    case DeadlineElapsed =>
      IsCool(s, live.target) && !Full(cfg, s) && !AllUsed(s, candidates) && live.deadline.Some? && live.deadline.value <= now
    case _ => false
  }

  /** Why a refresh or a deregistration is: as `observe_call` says, which a refresh reports as its own. */
  ghost predicate RefusesReplacement(s: State, now: nat, live: Live, peer: Peer, target: Option<Call>, r: Refusal)
    requires live.identity.Some?
  {
    var id := live.identity.value;
    match r
    case Backoff(until) => CoolsUntil(s, live.target, until)
    case RefreshMismatch =>
      IsCool(s, live.target) && live.observe.Register? && forall c :: !OnlySubscribed(s, c, peer, id, target)
    case Mismatch =>
      IsCool(s, live.target) && !live.observe.Register? && forall c :: !Subscribed(s, c, peer, id, target)
    case Ambiguous =>
      && IsCool(s, live.target) && !live.observe.Register?
      && (exists c :: Subscribed(s, c, peer, id, target)) && forall c :: !OnlySubscribed(s, c, peer, id, target)
    case DeadlineElapsed => IsCool(s, live.target) && exists c :: OnlySubscribed(s, c, peer, id, target) && TooLate(s, now, live, c)
    case _ => false
  }

  /** The request's own deadline has come, or for a refresh the subscription's. */
  ghost predicate TooLate(s: State, now: nat, live: Live, c: Call) {
    || (live.deadline.Some? && live.deadline.value <= now)
    || (live.observe.Register? && c in s.active && s.active[c].deadline.Some? && s.active[c].deadline.value <= now)
  }

  lemma CoolsOnly(s: State, t: Target, u: nat)
    ensures Cools(s, t, u) <==> Cools(Only(s.active, s.retired), t, u)
  {
  }

  method CheckBackoff(client: Client, target: Target) returns (until: Option<nat>)
    requires client.Valid()
    ensures until.None? ==> IsCool(client.S(), target)
    ensures until.Some? ==> CoolsUntil(client.S(), target, until.value)
  {
    hide LiveTable.Views, ReplyTable.Views, OnePerEndpoint, Cools;
    until := client.lives.BackoffUntil(target);
    forall u: nat
      ensures Cools(client.S(), target, u) <==> Cools(Only(client.S().active, client.S().retired), target, u)
    {
      CoolsOnly(client.S(), target, u);
    }
  }

  /** `prepare` for a new call: cooldown, credits, rows, token, deadline. A refusal has only expired
      cooldowns; going ahead means the state machine's admission guard holds. */
  method PrepareNew(client: Client, now: nat, live: Live, peer: Peer, candidates: seq<Token>)
    returns (r: Result<PreparedCall, Refusal>)
    requires client.Valid() && |candidates| <= 8
    requires live.target.peer == peer && (live.identity.Some? ==> live.identity.value.target == live.target) && live.backoff == 0
    modifies client.lives
    ensures client.Valid() && client.S() == ExpireBackoffs(old(client.S()), now)
    ensures r.Err? ==> RefusesNew(client.cfg, client.S(), now, live, candidates, r.error)
    ensures r.Ok? ==> forall e :: !RefusesNew(client.cfg, client.S(), now, live, candidates, e)
    ensures r.Ok? ==> FirstUnused(client.S(), candidates, r.value.call.token)
    ensures r.Ok? ==> fresh(r.value) && r.value.Valid() && r.value.client == client && r.value.base == client.S()
                      && !r.value.replacing && r.value.live == Some(live) && r.value.staged.None?
    ensures r.Ok? ==> Admissible(client.cfg, client.S(), r.value.call, live) && r.value.call.peer == peer
    ensures r.Ok? && Inv(client.cfg, old(client.S())) ==> Unknown(client.S().engine, r.value.call)
  {
    hide LiveTable.Views, ReplyTable.Views, OnePerEndpoint, Cools, Credits, InvBut, Unknown, LivesAt, RetiredAt;
    client.lives.ExpireBackoffs(now);
    var until := CheckBackoff(client, live.target);
    if until.Some? { return Err(Backoff(until.value)); }
    if client.cfg.full {
      var credits := ResponseCredits(client);
      if credits >= SatSub(client.cfg.rxSlots, RX_HEADROOM) { return Err(Saturated); }
    }
    var count := client.lives.Count();
    if count >= client.cfg.calls { return Err(Saturated); }
    var token := NextToken(client, candidates);
    if token.None? { return Err(TokenExhausted); }
    if live.deadline.Some? && live.deadline.value <= now { return Err(DeadlineElapsed); }
    var c := Call(token.value, peer);
    ghost var s := old(client.S());
    assert Admissible(client.cfg, ExpireBackoffs(s, now), c, live);
    if Inv(client.cfg, s) {
      NewIsUnknown(client.cfg, s, now, c, live);
    }
    var prepared := new PreparedCall(client, c, false, live, now);
    return Ok(prepared);
  }

  /** The engine holds nothing under a call that may be admitted. */
  lemma NewIsUnknown(cfg: Config, s: State, now: nat, c: Call, live: Live)
    requires Inv(cfg, s) && Admissible(cfg, ExpireBackoffs(s, now), c, live)
    ensures Unknown(ExpireBackoffs(s, now).engine, c)
  {
    hide InvBut, Cools, LiveOk, Credits, Uploading, Quiet, ExpireBackoffs;
    ExpireTimes(s, now);
    TimesKeep(cfg, s, ExpireBackoffs(s, now), None);
    FreshIsUnknown(cfg, ExpireBackoffs(s, now), c);
  }

  /** Dropping a new call at any point leaves exactly what refusing it would have left. */
  lemma DroppedIsRefused(cfg: Config, s: State, now: nat, c: Call, live: Live)
    requires Inv(cfg, s) && Admissible(cfg, ExpireBackoffs(s, now), c, live)
    ensures Abandon(ExpireBackoffs(s, now), c) == Next(cfg, s, Refused(now))
  {
    hide Inv, Admissible, ExpireBackoffs, AbandonSend, Unknown;
    NewIsUnknown(cfg, s, now, c, live);
    NothingToAbandon(ExpireBackoffs(s, now).engine, c);
  }

  /** Committing one is the admission step, with the lifetime the request was given. */
  lemma CommittedIsAdmitted(cfg: Config, s: State, now: nat, c: Call, live: Live, at: nat, e: Engine) returns (x: Sending)
    requires Inv(cfg, s) && Admissible(cfg, ExpireBackoffs(s, now), c, live)
    requires Partway(ExpireBackoffs(s, now).engine, e, c, live.tag, None, None) && OnePerEndpoint(e.tx) && c in e.exchanges
    ensures var base := ExpireBackoffs(s, now);
            var installed := live.(due := Lifetime(live, at));
            && Enabled(cfg, s, Admitting(now, c, installed, x))
            && State(base.active[c := installed], base.retired, base.inbox - {c}, e) == Next(cfg, s, Admitting(now, c, installed, x))
  {
    hide InvBut, ExpireBackoffs, Partway, OnePerEndpoint, Launch, Cools, Credits;
    NewIsUnknown(cfg, s, now, c, live);
    x := CommitIsLaunch(ExpireBackoffs(s, now), e, c, live.(due := Lifetime(live, at)));
  }

  /** The request a refresh or a deregistration sends: a refresh keeps the subscription's record and
      does not outlive its deadline; a deregistration starts anew. */
  function Replacement(s: State, c: Call, live: Live): Live
    requires c in s.active
  {
    var refreshing := live.observe.Register?;
    live.(deadline := if refreshing then EarlierOf(live.deadline, s.active[c].deadline) else live.deadline,
          record := CarriedOver(s, c, refreshing))
  }

  /** A refresh never outlives the deadline its subscription had nor the one it is given; a deregistration has
      its own. */
  predicate ReplacementDeadline(was: Option<nat>, live: Live, deadline: Option<nat>) {
    if live.observe.Register? then
      && (was.Some? ==> deadline.Some? && deadline.value <= was.value)
      && (live.deadline.Some? ==> deadline.Some? && deadline.value <= live.deadline.value)
      && (deadline == was || deadline == live.deadline)
    else deadline == live.deadline
  }

  /** The checks of `prepare` for a refresh or a deregistration, and the request it is to send. */
  method CheckReplacement(client: Client, now: nat, live: Live, peer: Peer, target: Option<Call>)
    returns (r: Result<(Call, Live), Refusal>)
    requires client.Valid() && live.identity.Some? && live.identity.value.target == live.target && live.backoff == 0
    modifies client.lives
    ensures client.Valid() && client.S() == ExpireBackoffs(old(client.S()), now)
    ensures r.Err? ==> RefusesReplacement(client.S(), now, live, peer, target, r.error)
    ensures r.Ok? ==> var c := r.value.0;
                      && OnlySubscribed(client.S(), c, peer, live.identity.value, target)
                      && IsCool(client.S(), live.target) && !TooLate(client.S(), now, live, c)
                      && c in old(client.S()).active && r.value.1 == Replacement(old(client.S()), c, live)
  {
    hide LiveTable.Views, ReplyTable.Views, OnePerEndpoint, Cools;
    ghost var s := client.S();
    client.lives.ExpireBackoffs(now);
    var until := CheckBackoff(client, live.target);
    if until.Some? { return Err(Backoff(until.value)); }
    var refreshing := live.observe.Register?;
    var found := FindSubscription(client, peer, live.identity.value, target);
    if found.Err? { return Err(if refreshing then RefreshMismatch else found.error); }
    var c := found.value;
    var prior := client.lives.Get(c);
    var deadline := if refreshing then EarlierOf(live.deadline, prior.value.deadline) else live.deadline;
    assert c in s.active && prior.value.deadline == s.active[c].deadline && prior.value.record == s.active[c].record;
    if deadline.Some? && deadline.value <= now { return Err(DeadlineElapsed); }
    var record := if refreshing then prior.value.record else Observe.Record(None, None);
    return Ok((c, live.(deadline := deadline, record := record)));
  }

  /** One reason at most, and none when the request may go ahead. */
  lemma NotRefused(s: State, now: nat, live: Live, peer: Peer, target: Option<Call>, c: Call)
    requires live.identity.Some? && OnlySubscribed(s, c, peer, live.identity.value, target)
    requires IsCool(s, live.target) && !TooLate(s, now, live, c)
    ensures forall e :: !RefusesReplacement(s, now, live, peer, target, e)
  {
    hide Subscribed, Cools, TooLate;
  }

  /** `prepare` for a refresh or a deregistration: the old request is abandoned and recorded as
      failed before the new one is staged. */
  method PrepareReplacement(client: Client, now: nat, live: Live, peer: Peer, target: Option<Call>)
    returns (r: Result<PreparedCall, Refusal>)
    requires client.Valid() && live.identity.Some? && live.identity.value.target == live.target && live.backoff == 0
    modifies client`engine, client.lives, client.inbox
    ensures client.Valid()
    ensures r.Err? ==> client.S() == ExpireBackoffs(old(client.S()), now)
                       && RefusesReplacement(client.S(), now, live, peer, target, r.error)
    ensures r.Ok? ==> forall e :: !RefusesReplacement(ExpireBackoffs(old(client.S()), now), now, live, peer, target, e)
    ensures r.Ok? ==> var c := r.value.call;
                      && OnlySubscribed(ExpireBackoffs(old(client.S()), now), c, peer, live.identity.value, target)
                      && Replaceable(ExpireBackoffs(old(client.S()), now), c, live.identity.value) && c.peer == peer
                      && client.S() == Displace(old(client.S()), client.cfg, now, c, live.observe.Register?)
                      && fresh(r.value) && r.value.Valid() && r.value.client == client && r.value.base == client.S()
                      && r.value.replacing && r.value.staged.None? && c in old(client.S()).active
                      && r.value.live == Some(Replacement(old(client.S()), c, live))
                      && ReplacementDeadline(old(client.S()).active[c].deadline, live, r.value.live.value.deadline)
                      && r.value.live.value.record == (if live.observe.Register? then old(client.S()).active[c].record
                                                       else Observe.Record(None, None))
                      && r.value.live.value.(deadline := live.deadline, record := live.record) == live
  {
    hide LiveTable.Views, ReplyTable.Views, OnePerEndpoint, Cools, Fail, RefusesReplacement, AbandonSend, LivesAt, RetiredAt;
    ghost var s := client.S();
    var checked := CheckReplacement(client, now, live, peer, target);
    if checked.Err? { return Err(checked.error); }
    var (c, request) := checked.value;
    NotRefused(client.S(), now, live, peer, target, c);
    client.AbandonCall(c);
    client.FailCall(c, if live.observe.Register? then ReregistrationFailed else CancellationFailed, true);
    var prepared := new PreparedCall(client, c, true, request, now);
    return Ok(prepared);
  }

  /** What it prepares may be committed as the state machine's replacement step, whatever is sent. */
  lemma ReplacementEnabled(cfg: Config, s: State, now: nat, c: Call, live: Live, at: nat, x: Sending)
    requires Inv(cfg, s) && live.identity.Some? && live.identity.value.target == live.target && live.backoff == 0
    requires Replaceable(ExpireBackoffs(s, now), c, live.identity.value) && c in s.active
    ensures Enabled(cfg, s, Replacing(now, c, Replacement(s, c, live).(due := Lifetime(live, at)), x))
  {
    hide Sizes, Owned, Packets, Bodies, Uploads, Credited, TxOk, Cools;
    assert LiveOk(c, s.active[c]);
  }
}
