/**
 Revoking an association clears the live rows of its peer and leaves their failures in the reply
 table. What that does to the client, and when outcomes still fit afterwards.
 */
module Revocation {
  import opened Common
  import opened Maps
  import opened Engines
  import opened ClientModel
  import opened ClientInvariant
  import opened ClientSteps
  import ClientPackets
  import opened ClientAdmission
  import Observe

  const REVOKED: Reply := Reply(true, Err(AssociationRevoked), None, None)

  ghost predicate Retires(retired: map<Target, Cooling>, c: Call) {
    exists t :: t in retired && retired[t].call == c
  }

  ghost predicate HasRow(s: State, c: Call) {
    c in s.active || Retires(s.retired, c)
  }

  /** The calls whose rows belong to the peer, each once. */
  ghost predicate ListsRows(s: State, peer: Peer, calls: seq<Call>) {
    && (forall i, j :: 0 <= i < j < |calls| ==> calls[i] != calls[j])
    && (forall c :: c in calls <==> c.peer == peer && HasRow(s, c))
  }

  // What revocation keeps.

  /** Live rows and the reply rows they left behind fit the table together. */
  ghost predicate Counted(calls: nat, active: LiveMap, retired: map<Target, Cooling>, inbox: ReplyMap) {
    |active| + |retired| + |inbox.Keys - active.Keys| <= calls
  }

  /** A reply row without its call is a revocation's; a call retired to a cooldown has none. */
  ghost predicate Strays(active: LiveMap, retired: map<Target, Cooling>, inbox: ReplyMap) {
    && (forall c :: c in inbox && c !in active ==> inbox[c] == REVOKED)
    && (forall t :: t in retired ==> retired[t].call !in inbox)
  }

  ghost predicate Accounted(cfg: Config, s: State) {
    var e := s.engine;
    && Counted(cfg.calls, s.active, s.retired, s.inbox)
    && Strays(s.active, s.retired, s.inbox)
    && Owned(s.active.Keys, {}, e.exchanges.Keys, e.observes, e.bindings)
    && Packets(cfg.full, s.inbox, e.rx)
    && Bodies(s.inbox, e.bodies, None)
    && Uploads(s.active, e.uploads)
    && Lives(s.active, s.retired)
    && TxOk(e.exchanges, e.tx)
  }

  lemma NoStrays(calls: nat, active: LiveMap, retired: map<Target, Cooling>, inbox: ReplyMap)
    requires inbox.Keys <= active.Keys && Sizes(calls, active, retired) && Lives(active, retired)
    ensures Counted(calls, active, retired, inbox) && Strays(active, retired, inbox)
  {
    assert inbox.Keys - active.Keys == {};
  }

  lemma InvAccounts(cfg: Config, s: State)
    requires Inv(cfg, s)
    ensures Accounted(cfg, s)
  {
    hide Packets, Bodies, Uploads, TxOk, Credited, Rows, Lives, Sizes, Counted, Strays;
    NoStrays(cfg.calls, s.active, s.retired, s.inbox);
  }

  lemma SplitBy<T>(a: set<T>, b: set<T>)
    ensures |a| == |a - b| + |a * b| && |a * b| <= |b|
  {
    assert a == (a - b) + (a * b);
    Smaller(a * b, b);
  }

  lemma SplitStrictly<T>(a: set<T>, b: set<T>, x: T)
    requires x in b && x !in a
    ensures |a * b| < |b|
  {
    Smaller(a * b, b - {x});
  }

  lemma RetiredSome(retired: map<Target, Cooling>, c: Call)
    requires Retires(retired, c)
    ensures |retired| > 0
  {
    var t :| t in retired && retired[t].call == c;
    MapMinus(retired, t);
  }

  /** A call with a row has a reply row, or there is room for one. */
  lemma RowFits(calls: nat, active: LiveMap, retired: map<Target, Cooling>, inbox: ReplyMap, c: Call)
    requires Counted(calls, active, retired, inbox) && (c in active || Retires(retired, c)) && c !in inbox
    ensures |inbox| < calls
  {
    hide Retires;
    SplitBy(inbox.Keys, active.Keys);
    if c in active {
      SplitStrictly(inbox.Keys, active.Keys, c);
    } else {
      RetiredSome(retired, c);
    }
  }

  lemma RevokeOneIs(cfg: Config, s: State, c: Call)
    requires Accounted(cfg, s) && HasRow(s, c)
    ensures var after := RevokeOne(s, cfg, c);
            && after.active == s.active - {c}
            && after.retired == Uncooled(s.retired, {c})
            && after.inbox == s.inbox[c := REVOKED]
            && after.engine.exchanges == s.engine.exchanges - {c}
            && after.engine.observes == s.engine.observes - {c}
            && after.engine.bindings == s.engine.bindings - {c}
            && after.engine.rx == (if c in s.inbox && s.inbox[c].datagram.Some? then s.engine.rx - {s.inbox[c].datagram.value}
                                   else s.engine.rx)
            && after.engine.bodies == BodiesWithout(s.engine.bodies, c)
            && after.engine.uploads == DropUpload(s, c).engine.uploads
            && after.engine.tx == DropExchange(s.engine, c, true).tx
  {
    hide Fail, DropUpload, DropExchange, BodiesWithout, Uncooled, Owned, Packets, Uploads, Lives, TxOk, Counted, Strays;
    if c !in s.inbox {
      RowFits(cfg.calls, s.active, s.retired, s.inbox, c);
    } else if s.inbox[c].body.Some? {
      assert Holds(s.inbox, c, s.inbox[c].body.value);
    }
    FailEffect(cfg, s, c, AssociationRevoked, true);
    if c in s.active {
      assert s.active[c := s.active[c].(due := 0, deadline := None)] - {c} == s.active - {c};
    }
  }

  /** The call's row becomes a stray reply row. */
  lemma OneMoreStray(active: set<Call>, replies: set<Call>, c: Call)
    requires c in active || c !in replies
    ensures |(replies + {c}) - (active - {c})| == |replies - active| + 1
  {
    assert (replies + {c}) - (active - {c}) == (replies - active) + {c};
  }

  lemma OneLessCooling(active: LiveMap, retired: map<Target, Cooling>, c: Call)
    requires Lives(active, retired)
    ensures c in active ==> Uncooled(retired, {c}) == retired
    ensures Retires(retired, c) ==> |Uncooled(retired, {c})| == |retired| - 1
  {
    if Retires(retired, c) {
      var t :| t in retired && retired[t].call == c;
      OnlyOneCools(active, retired, t);
      MapMinus(retired, t);
    }
  }

  lemma OnlyOneCools(active: LiveMap, retired: map<Target, Cooling>, t: Target)
    requires Lives(active, retired) && t in retired
    ensures Uncooled(retired, {retired[t].call}) == retired - {t}
  {
    hide LiveOk;
  }

  lemma RevokeCounts(calls: nat, active: LiveMap, retired: map<Target, Cooling>, inbox: ReplyMap, c: Call)
    requires Counted(calls, active, retired, inbox) && Lives(active, retired) && Strays(active, retired, inbox)
    requires c in active || Retires(retired, c)
    ensures Counted(calls, active - {c}, Uncooled(retired, {c}), inbox[c := REVOKED])
  {
    OneLessCooling(active, retired, c);
    assert c in active || c !in inbox;
    hide Lives, Strays, Uncooled, Retires;
    OneMoreStray(active.Keys, inbox.Keys, c);
    MapPut(inbox, c, REVOKED);
    assert (active - {c}).Keys == active.Keys - {c};
    if c in active {
      MapMinus(active, c);
    } else {
      MapSame(active, c);
    }
  }

  lemma RevokeStrays(active: LiveMap, retired: map<Target, Cooling>, inbox: ReplyMap, c: Call)
    requires Strays(active, retired, inbox)
    ensures Strays(active - {c}, Uncooled(retired, {c}), inbox[c := REVOKED])
  {
  }

  lemma RevokeLives(active: LiveMap, retired: map<Target, Cooling>, c: Call)
    requires Lives(active, retired)
    ensures Lives(active - {c}, Uncooled(retired, {c}))
  {
  }

  lemma RevokePackets(full: bool, inbox: ReplyMap, rx: set<Slot>, c: Call, rx': set<Slot>)
    requires Packets(full, inbox, rx)
    requires rx' == if c in inbox && inbox[c].datagram.Some? then rx - {inbox[c].datagram.value} else rx
    ensures Packets(full, inbox[c := REVOKED], rx')
  {
  }

  lemma RevokeBodies(inbox: ReplyMap, bodies: seq<Option<Body>>, c: Call)
    requires Bodies(inbox, bodies, None)
    ensures Bodies(inbox[c := REVOKED], BodiesWithout(bodies, c), None)
  {
    var inbox', bodies' := inbox[c := REVOKED], BodiesWithout(bodies, c);
    forall d, b: Slot | Holds(inbox', d, b)
      ensures BodyOf(bodies', b, d)
    {
      assert Holds(inbox, d, b);
      assert BodyOf(bodies, b, d);
    }
    forall d, b: Slot | BodyOf(bodies', b, d)
      ensures Holds(inbox', d, b)
    {
      assert BodyOf(bodies, b, d);
      assert Holds(inbox, d, b);
    }
  }

  lemma RevokeUploads(s: State, c: Call)
    requires Uploads(s.active, s.engine.uploads)
    ensures Uploads(s.active - {c}, DropUpload(s, c).engine.uploads)
  {
    hide LookupUpload;
    var u := LookupUpload(s.engine.uploads, c, TagOf(s, c));
    var after := DropUpload(s, c).engine.uploads;
    assert u.None? ==> after == s.engine.uploads;
    assert u.Some? ==> after == s.engine.uploads[u.value := None];
    forall v | 0 <= v < |after| && after[v].Some?
      ensures after[v].value.call != c && s.engine.uploads[v] == after[v]
    {
    }
  }

  lemma RevokeOwned(s: State, after: State, c: Call)
    requires Owned(s.active.Keys, {}, s.engine.exchanges.Keys, s.engine.observes, s.engine.bindings)
    requires after.active == s.active - {c} && after.engine.exchanges == s.engine.exchanges - {c}
    requires after.engine.observes == s.engine.observes - {c} && after.engine.bindings == s.engine.bindings - {c}
    ensures Owned(after.active.Keys, {}, after.engine.exchanges.Keys, after.engine.observes, after.engine.bindings)
  {
  }

  lemma RevokeLoose(s: State, after: State, c: Call, full: bool)
    requires Packets(full, s.inbox, s.engine.rx) && after.inbox == s.inbox[c := REVOKED]
    requires after.engine.rx == if c in s.inbox && s.inbox[c].datagram.Some? then s.engine.rx - {s.inbox[c].datagram.value}
                                else s.engine.rx
    ensures forall x :: Loose(after, x) <==> Loose(s, x)
  {
    forall x: Slot
      ensures Loose(after, x) <==> Loose(s, x)
    {
      assert forall d :: d in s.inbox && d != c ==> d in after.inbox && after.inbox[d] == s.inbox[d];
      if Loose(after, x) && c in s.inbox {
        assert s.inbox[c].datagram != Some(x);
      }
    }
  }

  lemma RevokeOneKeeps(cfg: Config, s: State, c: Call)
    requires Accounted(cfg, s) && HasRow(s, c)
    ensures Accounted(cfg, RevokeOne(s, cfg, c))
    ensures forall x :: Loose(RevokeOne(s, cfg, c), x) <==> Loose(s, x)
  {
    hide RevokeOne, DropUpload, DropExchange, BodiesWithout, Uncooled, Owned, Packets, Bodies, Uploads, Lives, TxOk, Quiet,
      Counted, Strays, Loose, Retires;
    var after := RevokeOne(s, cfg, c);
    RevokeOneIs(cfg, s, c);
    RevokeCounts(cfg.calls, s.active, s.retired, s.inbox, c);
    RevokeStrays(s.active, s.retired, s.inbox, c);
    RevokeLives(s.active, s.retired, c);
    RevokePackets(cfg.full, s.inbox, s.engine.rx, c, after.engine.rx);
    RevokeBodies(s.inbox, s.engine.bodies, c);
    RevokeUploads(s, c);
    RevokeOwned(s, after, c);
    RevokeLoose(s, after, c, cfg.full);
    DropExchangeOk(s.engine, c);
  }

  // The whole revocation.

  function AsSet(calls: seq<Call>): set<Call> {
    set c | c in calls
  }

  function RevokedReplies(calls: set<Call>): map<Call, Reply> {
    map c | c in calls :: REVOKED
  }

  /** The rows of these calls are gone, each left one failure, and nothing else changed. */
  ghost predicate Revoked(s: State, after: State, calls: set<Call>) {
    && after.active == s.active - calls
    && after.retired == Uncooled(s.retired, calls)
    && after.inbox == s.inbox + RevokedReplies(calls)
    && after.engine.exchanges == s.engine.exchanges - calls
    && after.engine.observes == s.engine.observes - calls
    && after.engine.bindings == s.engine.bindings - calls
  }

  lemma RevokedNone(s: State)
    ensures Revoked(s, s, {})
  {
  }

  lemma MinusTwice<V>(m: map<Call, V>, c: Call, rest: set<Call>)
    ensures m - {c} - rest == m - ({c} + rest)
  {
  }

  lemma UncooledTwice(retired: map<Target, Cooling>, c: Call, rest: set<Call>)
    ensures Uncooled(Uncooled(retired, {c}), rest) == Uncooled(retired, {c} + rest)
  {
  }

  lemma RepliesTwice(inbox: ReplyMap, c: Call, rest: set<Call>)
    ensures inbox[c := REVOKED] + RevokedReplies(rest) == inbox + RevokedReplies({c} + rest)
  {
  }

  lemma RevokedMore(s: State, mid: State, after: State, c: Call, rest: set<Call>)
    requires mid.active == s.active - {c} && mid.retired == Uncooled(s.retired, {c}) && mid.inbox == s.inbox[c := REVOKED]
    requires mid.engine.exchanges == s.engine.exchanges - {c} && mid.engine.observes == s.engine.observes - {c}
    requires mid.engine.bindings == s.engine.bindings - {c} && Revoked(mid, after, rest)
    ensures Revoked(s, after, {c} + rest)
  {
    hide Uncooled, RevokedReplies;
    MinusTwice(s.active, c, rest);
    MinusTwice(s.engine.exchanges, c, rest);
    UncooledTwice(s.retired, c, rest);
    RepliesTwice(s.inbox, c, rest);
  }

  lemma RowsRemain(s: State, after: State, c: Call)
    requires after.active == s.active - {c} && after.retired == Uncooled(s.retired, {c})
    ensures forall d :: d != c && HasRow(s, d) ==> HasRow(after, d)
  {
    forall d | d != c && HasRow(s, d) && d !in s.active
      ensures HasRow(after, d)
    {
      var t :| t in s.retired && s.retired[t].call == d;
      assert t in after.retired;
    }
  }

  lemma {:induction false} RevokeKeeps(cfg: Config, s: State, calls: seq<Call>)
    requires Accounted(cfg, s) && (forall c :: c in calls ==> HasRow(s, c))
    requires forall i, j :: 0 <= i < j < |calls| ==> calls[i] != calls[j]
    ensures var after := Revoke(s, cfg, calls);
            && Accounted(cfg, after) && Revoked(s, after, AsSet(calls))
            && (forall x :: Loose(after, x) <==> Loose(s, x))
    decreases |calls|
  {
    hide Accounted, Revoked, RevokeOne, Loose, HasRow, Uncooled;
    if calls == [] {
      RevokedNone(s);
      assert AsSet(calls) == {};
    } else {
      var c, rest := calls[0], calls[1..];
      var mid := RevokeOne(s, cfg, c);
      assert HasRow(s, c);
      RevokeOneIs(cfg, s, c);
      RevokeOneKeeps(cfg, s, c);
      RowsRemain(s, mid, c);
      RevokeKeeps(cfg, mid, rest);
      RevokedMore(s, mid, Revoke(s, cfg, calls), c, AsSet(rest));
      assert AsSet(calls) == {c} + AsSet(rest);
    }
  }

  /** One call's revocation leaves what calls to other peers hold, and their pending requests. */
  lemma RevokeOneSpares(cfg: Config, s: State, c: Call, d: Call)
    requires Accounted(cfg, s) && HasRow(s, c) && d.peer != c.peer
    ensures var after := RevokeOne(s, cfg, c);
            SameHoldings(s.engine, after.engine, d) && ClientPackets.Effect(s.engine.tx, after.engine.tx, d, false)
  {
    hide RevokeOne, DropUpload, DropExchange, BodiesWithout, Uncooled, Owned, Packets, Bodies, Uploads, Lives, TxOk, Counted, Strays, Retires,
      ClientPackets.Effect, SameHoldings;
    RevokeOneIs(cfg, s, c);
    FailOnly(s, RevokeOne(s, cfg, c), c);
    ClientPackets.DropEffect(s.engine, c, d);
  }

  lemma {:induction false} RevokeSpares(cfg: Config, s: State, peer: Peer, calls: seq<Call>, d: Call)
    requires Accounted(cfg, s) && d.peer != peer && (forall c :: c in calls ==> HasRow(s, c) && c.peer == peer)
    requires forall i, j :: 0 <= i < j < |calls| ==> calls[i] != calls[j]
    ensures var after := Revoke(s, cfg, calls);
            SameHoldings(s.engine, after.engine, d) && ClientPackets.Effect(s.engine.tx, after.engine.tx, d, false)
    decreases |calls|
  {
    hide Accounted, RevokeOne, HasRow, Uncooled, ClientPackets.Effect, SameHoldings;
    if calls == [] {
      ClientPackets.KeptSame(s.engine.tx, d);
      HoldingsSame(s.engine, d);
    } else {
      var c, rest := calls[0], calls[1..];
      var mid := RevokeOne(s, cfg, c);
      assert HasRow(s, c);
      RevokeOneIs(cfg, s, c);
      RevokeOneKeeps(cfg, s, c);
      RevokeOneSpares(cfg, s, c, d);
      RowsRemain(s, mid, c);
      RevokeSpares(cfg, mid, peer, rest, d);
      var after := Revoke(s, cfg, calls);
      HoldingsThen(s.engine, mid.engine, after.engine, d);
      ClientPackets.EffectThen(s.engine.tx, mid.engine.tx, after.engine.tx, d, false, false);
    }
  }

  lemma HoldingsSame(e: Engine, d: Call)
    ensures SameHoldings(e, e, d)
  {
  }

  /** What calls to other peers hold, their pending requests included. */
  ghost predicate Spared(s: State, after: State, peer: Peer) {
    forall d: Call :: d.peer != peer ==>
      SameHoldings(s.engine, after.engine, d) && ClientPackets.PacketOf(after.engine, d) == ClientPackets.PacketOf(s.engine, d)
  }

  /** Revoking an association ends exactly its own work: no row, exchange, pending request, interest,
      binding, body or upload of the peer is left, each of its rows left one failure to collect, and other
      calls, cooldowns and packets are as before. */
  lemma RevokeEnds(cfg: Config, s: State, peer: Peer, calls: seq<Call>)
    requires Inv(cfg, s) && ListsRows(s, peer, calls)
    ensures var after := Revoke(s, cfg, calls);
            && Revoked(s, after, AsSet(calls)) && (forall x :: Loose(after, x) <==> Loose(s, x))
            && (forall c: Call :: c.peer == peer ==> Ended(after, c))
            && (forall c :: c in calls ==> c in after.inbox && after.inbox[c] == REVOKED)
            && Spared(s, after, peer)
  {
    hide ClientPackets.Effect, SameHoldings, TxOk, Quiet, Loose, ClientPackets.PacketOf;
    var after := Revoke(s, cfg, calls);
    InvAccounts(cfg, s);
    RevokeKeeps(cfg, s, calls);
    forall d: Call | d.peer != peer
      ensures SameHoldings(s.engine, after.engine, d) && ClientPackets.PacketOf(after.engine, d) == ClientPackets.PacketOf(s.engine, d)
    {
      RevokeSpares(cfg, s, peer, calls, d);
      ClientPackets.PacketAfter(s.engine, after.engine, d, false);
    }
    forall c: Call | c.peer == peer
      ensures Ended(after, c)
    {
      PeerGone(s, after, peer, calls, c);
      NothingLeft(cfg, after, c);
    }
  }

  /** Nothing is in flight for the call, and no row or body is kept for it. */
  ghost predicate Ended(s: State, c: Call) {
    && !HasRow(s, c)
    && c !in s.engine.exchanges && c !in s.engine.observes && c !in s.engine.bindings
    && (forall b: Slot :: !BodyOf(s.engine.bodies, b, c)) && !Uploading(s.engine.uploads, c)
    && Quiet(s.engine.tx, c)
  }

  lemma PeerGone(s: State, after: State, peer: Peer, calls: seq<Call>, c: Call)
    requires ListsRows(s, peer, calls) && Revoked(s, after, AsSet(calls)) && c.peer == peer
    ensures !HasRow(after, c) && (c in after.inbox ==> c in s.inbox || c in calls)
    ensures c in calls ==> c in after.inbox && after.inbox[c] == REVOKED
    ensures c !in calls ==> c !in s.active
  {
    assert Retires(after.retired, c) ==> Retires(s.retired, c);
  }

  lemma NothingLeft(cfg: Config, after: State, c: Call)
    requires Accounted(cfg, after) && !HasRow(after, c)
    ensures Ended(after, c)
  {
    assert forall b: Slot :: BodyOf(after.engine.bodies, b, c) ==> Holds(after.inbox, c, b);
    UnlistedIsQuiet(after.engine.exchanges, after.engine.tx, c);
  }

  // Do outcomes still fit?

  type Outcomes = seq<(Call, Reply)>

  /** Outcomes stored one after another, none collected in between. */
  function StoreAll(s: State, cfg: Config, outcomes: Outcomes): State
    decreases |outcomes|
  {
    if outcomes == [] then s else StoreAll(PutReply(s, cfg, outcomes[0].0, outcomes[0].1), cfg, outcomes[1..])
  }

  function Answered(outcomes: Outcomes): set<Call> {
    set o | o in outcomes :: o.0
  }

  /** None of them is lost. */
  ghost predicate AllFit(s: State, cfg: Config, outcomes: Outcomes) {
    Answered(outcomes) <= StoreAll(s, cfg, outcomes).inbox.Keys
  }

  lemma AnsweredCons(outcomes: Outcomes)
    requires outcomes != []
    ensures Answered(outcomes) == {outcomes[0].0} + Answered(outcomes[1..])
  {
    assert outcomes == [outcomes[0]] + outcomes[1..];
  }

  lemma PutKeys(s: State, cfg: Config, c: Call, reply: Reply)
    requires |s.inbox| <= cfg.calls
    ensures var after := PutReply(s, cfg, c, reply);
            && |after.inbox| <= cfg.calls
            && after.inbox.Keys == (if c in s.inbox || |s.inbox| < cfg.calls then s.inbox.Keys + {c} else s.inbox.Keys)
  {
    MapPut(s.inbox, c, reply);
  }

  /** The table only grows, never beyond its rows, and when everything fits in it everything is kept. */
  lemma {:induction false} StoreAllKeys(s: State, cfg: Config, outcomes: Outcomes)
    requires |s.inbox| <= cfg.calls
    ensures var after := StoreAll(s, cfg, outcomes);
            && s.inbox.Keys <= after.inbox.Keys && |after.inbox| <= cfg.calls
            && (|s.inbox.Keys + Answered(outcomes)| <= cfg.calls ==> after.inbox.Keys == s.inbox.Keys + Answered(outcomes))
    decreases |outcomes|
  {
    if outcomes == [] {
      EmptyAnswered(s.inbox.Keys);
    } else {
      hide PutReply, Answered;
      var c, rest := outcomes[0].0, Answered(outcomes[1..]);
      var mid := PutReply(s, cfg, c, outcomes[0].1);
      AnsweredCons(outcomes);
      PutKeys(s, cfg, c, outcomes[0].1);
      StoreAllKeys(mid, cfg, outcomes[1..]);
      UnionCons(s.inbox.Keys, c, rest);
      if |s.inbox.Keys + ({c} + rest)| <= cfg.calls {
        KeyFits(s.inbox, c, s.inbox.Keys + ({c} + rest), cfg.calls);
      }
    }
  }

  lemma UnionCons(keys: set<Call>, c: Call, rest: set<Call>)
    ensures keys + ({c} + rest) == (keys + {c}) + rest
  {
  }

  lemma EmptyAnswered(keys: set<Call>)
    ensures keys + Answered([]) == keys
  {
  }

  lemma KeyFits(inbox: ReplyMap, c: Call, all: set<Call>, calls: nat)
    requires inbox.Keys + {c} <= all && |all| <= calls
    ensures c in inbox || |inbox| < calls
  {
    if c !in inbox {
      Smaller(inbox.Keys + {c}, all);
    }
  }

  /** No outcome is lost if and only if calls answered and rows in use fit the table together. */
  lemma OutcomesFitIff(s: State, cfg: Config, outcomes: Outcomes)
    requires |s.inbox| <= cfg.calls
    ensures AllFit(s, cfg, outcomes) <==> |s.inbox.Keys + Answered(outcomes)| <= cfg.calls
  {
    hide StoreAll, Answered;
    StoreAllKeys(s, cfg, outcomes);
    if AllFit(s, cfg, outcomes) {
      Smaller(s.inbox.Keys + Answered(outcomes), StoreAll(s, cfg, outcomes).inbox.Keys);
    }
  }

  /** An outcome that finds no row is lost without a trace: its body goes back and no other row changes. */
  lemma LostGivesBack(s: State, cfg: Config, c: Call, meta: Meta, slot: Slot)
    requires slot < |s.engine.bodies|
    ensures var after := StoreReply(s, cfg, c, meta, Some(slot));
            if c in s.inbox || |s.inbox| < cfg.calls
            then c in after.inbox && after.inbox[c] == Reply(true, Ok(meta), Some(slot), None)
                 && after.engine.bodies[slot] == s.engine.bodies[slot]
            else after == s.(engine := s.engine.(bodies := s.engine.bodies[slot := None]))
  {
  }

  /** After a call is admitted, the outcomes of all active calls fit if and only if before it the
      active calls and the reply rows together left a row free. The admission guard counts live
      rows only. */
  lemma AdmittedFitsIff(cfg: Config, s: State, now: nat, c: Call, live: Live, x: Sending, outcomes: Outcomes)
    requires |s.inbox| <= cfg.calls && c !in s.active && c !in s.inbox
    requires Answered(outcomes) == Admit(s, now, c, live, x).active.Keys
    ensures AllFit(Admit(s, now, c, live, x), cfg, outcomes) <==> |s.active.Keys + s.inbox.Keys| < cfg.calls
  {
    hide AllFit, Answered, Admit;
    var after := Admit(s, now, c, live, x);
    AdmitKeys(s, now, c, live, x);
    OutcomesFitIff(after, cfg, outcomes);
    OneMoreCall(s.inbox.Keys, s.active.Keys, c);
  }

  lemma AdmitKeys(s: State, now: nat, c: Call, live: Live, x: Sending)
    requires c !in s.inbox
    ensures var after := Admit(s, now, c, live, x);
            after.active.Keys == s.active.Keys + {c} && after.inbox == s.inbox
  {
    hide PlacePacket, PlaceUpload;
    MapSame(s.inbox, c);
    var aged := ExpireBackoffs(s, now);
    assert aged.active.Keys == s.active.Keys;
    MapPut(aged.active, c, live);
  }

  lemma OneMoreCall(replies: set<Call>, active: set<Call>, c: Call)
    requires c !in replies && c !in active
    ensures |replies + (active + {c})| == |active + replies| + 1
  {
    assert replies + (active + {c}) == (active + replies) + {c};
  }

  /** Without revocation the guard is enough. */
  lemma GuardSuffices(cfg: Config, s: State)
    requires Inv(cfg, s) && |s.active| + |s.retired| < cfg.calls
    ensures |s.inbox| <= cfg.calls && |s.active.Keys + s.inbox.Keys| < cfg.calls
  {
    hide Rows, Packets, Bodies, Uploads, Lives, TxOk, Credited;
    Smaller(s.inbox.Keys, s.active.Keys);
    assert s.active.Keys + s.inbox.Keys == s.active.Keys;
  }

  // Is an outcome still handed out once?

  /** A call without a reply has one after the revocation if and only if a row of the peer, active or
      retired, carried it; so a call already collected is answered again exactly when it was still
      cooling. */
  lemma AnsweredAgainIff(cfg: Config, s: State, peer: Peer, calls: seq<Call>, c: Call)
    requires Inv(cfg, s) && ListsRows(s, peer, calls) && c !in s.inbox
    ensures Take(Revoke(s, cfg, calls), c, false).1.Some? <==> c.peer == peer && HasRow(s, c)
    ensures c !in s.active ==>
              (Take(Revoke(s, cfg, calls), c, false).1.Some? <==> c.peer == peer && Retires(s.retired, c))
  {
    hide Collect, DropDatagram, Revoke;
    RevokeEnds(cfg, s, peer, calls);
  }
}
