/** Collecting, expiring, admitting and replacing keep the client's invariant. */
module ClientAdmission {
  import opened Common
  import opened Maps
  import opened Engines
  import opened ClientModel
  import opened ClientInvariant
  import opened ClientSteps
  import opened ClientDelivery
  import Observe

  // Collection.

  lemma CollectSlots(full: bool, s: State, c: Call)
    requires Contains(s, c)
    ensures var after := s.(inbox := s.inbox - {c}, engine := ReleaseAny(s.engine, s.inbox[c].datagram, s.inbox[c].body));
            && (Packets(full, s.inbox, s.engine.rx) ==> Packets(full, after.inbox, after.engine.rx))
            && (Bodies(s.inbox, s.engine.bodies, None) ==> Bodies(after.inbox, after.engine.bodies, None))
            && after.engine == s.engine.(rx := after.engine.rx, bodies := after.engine.bodies)
            && (forall x :: Loose(after, x) <==> Loose(s, x))
  {
    hide Loose;
    var r := s.inbox[c];
    var after := s.(inbox := s.inbox - {c}, engine := ReleaseAny(s.engine, r.datagram, r.body));
    forall x
      ensures Loose(after, x) <==> Loose(s, x)
    {
      LooseSame(s, after, c, x);
    }
    assert forall d, b: Slot :: Holds(after.inbox, d, b) <==> d != c && Holds(s.inbox, d, b);
    if r.body.Some? && Bodies(s.inbox, s.engine.bodies, None) {
      assert Holds(s.inbox, c, r.body.value);
      assert BodyOf(s.engine.bodies, r.body.value, c);
    }
    if Bodies(s.inbox, s.engine.bodies, None) {
      assert forall d, b: Slot :: BodyOf(after.engine.bodies, b, d) ==> BodyOf(s.engine.bodies, b, d);
      assert forall d, b: Slot :: d != c && BodyOf(s.engine.bodies, b, d) ==> BodyOf(after.engine.bodies, b, d);
    }
  }

  lemma CollectOnly(s: State, after: State, c: Call)
    requires Contains(s, c) && Bodies(s.inbox, s.engine.bodies, None)
    requires after.engine.bodies == ReleaseAny(s.engine, s.inbox[c].datagram, s.inbox[c].body).bodies && after.engine.uploads == s.engine.uploads
    requires after.engine.bindings - {c} == s.engine.bindings - {c}
    ensures OnlyOf(s.engine, after.engine, c)
  {
    if s.inbox[c].body.Some? {
      assert Holds(s.inbox, c, s.inbox[c].body.value);
      BodyOnly(s.engine, after.engine, c, s.inbox[c].body.value);
    } else {
      OnlyParts(s.engine, after.engine, c);
    }
  }

  lemma WithoutRow(cfg: Config, s: State, after: State, c: Call)
    requires after.active == s.active && after.inbox == s.inbox - {c}
    requires after.engine == s.engine.(rx := after.engine.rx, bodies := after.engine.bodies)
    ensures Rows(s.active, s.inbox, s.engine.exchanges.Keys, s.engine.observes, s.engine.uploads) ==>
              Rows(after.active, after.inbox, after.engine.exchanges.Keys, after.engine.observes, after.engine.uploads)
    ensures Owned(s.active.Keys, s.inbox.Keys, s.engine.exchanges.Keys, s.engine.observes, s.engine.bindings) ==>
              Owned(after.active.Keys, after.inbox.Keys, after.engine.exchanges.Keys, after.engine.observes, after.engine.bindings)
    ensures Credited(cfg, s.active.Keys, s.inbox) && Answerable(s, c) ==> Credited(cfg, after.active.Keys, after.inbox)
  {
    hide Uploading;
    if Credited(cfg, s.active.Keys, s.inbox) && Answerable(s, c) {
      CreditsShrink(cfg, s.active.Keys, s.inbox, after.active.Keys, after.inbox);
    }
  }

  /** Taking the row of a live subscription. */
  lemma CollectObserved(cfg: Config, s: State, c: Call)
    requires Inv(cfg, s) && Contains(s, c) && c in s.engine.observes
    ensures Inv(cfg, Collect(s, c)) && Tame(s, Collect(s, c), c)
  {
    hide Sizes, Owned, Rows, Packets, Bodies, Uploads, Lives, Credited, TxOk, ReleaseAny, Loose, SameHoldings;
    TargetedIsAnswerable(cfg, s, c);
    CollectSlots(cfg.full, s, c);
    CollectOnly(s, Collect(s, c), c);
    WithoutRow(cfg, s, Collect(s, c), c);
  }

  lemma RemoveIs(calls: nat, s: State, c: Call)
    requires c in s.active
    ensures var after := Remove(s, c);
            && after.active == s.active - {c} && after.inbox == s.inbox && after.engine == s.engine
            && (Sizes(calls, s.active, s.retired) ==> Sizes(calls, after.active, after.retired))
  {
    MapMinus(s.active, c);
    if s.active[c].backoff != 0 {
      var t := s.active[c].target;
      MapPut(s.retired, t, Remove(s, c).retired[t]);
    }
  }

  lemma RemoveLives(s: State, c: Call)
    requires c in s.active && Lives(s.active, s.retired)
    ensures Lives(s.active - {c}, Remove(s, c).retired)
  {
    var after := Remove(s, c).retired;
    if s.active[c].backoff != 0 {
      var t0 := s.active[c].target;
      forall t | t in after
        ensures after[t].until != 0 && after[t].call !in s.active - {c}
        ensures t != t0 ==> t in s.retired && after[t] == s.retired[t]
      {
      }
      assert t0 in after && (after[t0].call == c || (t0 in s.retired && after[t0].call == s.retired[t0].call));
    }
  }

  lemma WithoutCall(cfg: Config, s: State, after: State, c: Call)
    requires after.active == s.active - {c} && after.inbox == s.inbox - {c}
    requires after.engine == s.engine.(rx := after.engine.rx, bodies := after.engine.bodies, bindings := s.engine.bindings - {c})
    requires c !in s.engine.exchanges && c !in s.engine.observes && !Uploading(s.engine.uploads, c)
    ensures Rows(s.active, s.inbox, s.engine.exchanges.Keys, s.engine.observes, s.engine.uploads) ==>
              Rows(after.active, after.inbox, after.engine.exchanges.Keys, after.engine.observes, after.engine.uploads)
    ensures Owned(s.active.Keys, s.inbox.Keys, s.engine.exchanges.Keys, s.engine.observes, s.engine.bindings) ==>
              Owned(after.active.Keys, after.inbox.Keys, after.engine.exchanges.Keys, after.engine.observes, after.engine.bindings)
    ensures Credited(cfg, s.active.Keys, s.inbox) ==> Credited(cfg, after.active.Keys, after.inbox)
  {
    hide Uploading;
    if Credited(cfg, s.active.Keys, s.inbox) {
      CreditsShrink(cfg, s.active.Keys, s.inbox, after.active.Keys, after.inbox);
    }
  }

  lemma UploadsWithoutCall(s: State, c: Call)
    requires !Uploading(s.engine.uploads, c)
    ensures Uploads(s.active, s.engine.uploads) ==> Uploads(s.active - {c}, s.engine.uploads)
  {
  }

  lemma CompleteIsDone(cfg: Config, s: State, c: Call)
    requires Inv(cfg, s) && Contains(s, c)
    ensures c in s.active && c !in s.engine.exchanges && !Uploading(s.engine.uploads, c)
  {
  }

  /** Taking the outcome of an ordinary call ends it. */
  lemma CollectOrdinary(cfg: Config, s: State, c: Call)
    requires Inv(cfg, s) && Contains(s, c) && c !in s.engine.observes
    ensures Inv(cfg, Collect(s, c)) && Tame(s, Collect(s, c), c)
    ensures c !in Collect(s, c).active
  {
    hide Sizes, Owned, Rows, Packets, Bodies, Uploads, Lives, Credited, TxOk, ReleaseAny, Loose, Remove, Uploading, SameHoldings;
    var r := s.inbox[c];
    var s1 := s.(inbox := s.inbox - {c}, engine := ReleaseAny(s.engine, r.datagram, r.body));
    var after := Collect(s, c);
    CompleteIsDone(cfg, s, c);
    CollectSlots(cfg.full, s, c);
    RemoveIs(cfg.calls, s1, c);
    RemoveLives(s1, c);
    WithoutCall(cfg, s, after, c);
    CollectOnly(s, after, c);
    UploadsWithoutCall(s, c);
    forall x
      ensures Loose(after, x) <==> Loose(s, x)
    {
      LooseOf(s1, after, x);
      assert Loose(s1, x) <==> Loose(s, x);
    }
  }

  lemma LooseOf(s: State, after: State, x: Slot)
    requires after.inbox == s.inbox && after.engine.rx == s.engine.rx
    ensures Loose(after, x) <==> Loose(s, x)
  {
  }

  lemma CollectKeeps(cfg: Config, s: State, c: Call)
    requires Inv(cfg, s) && Contains(s, c)
    ensures Inv(cfg, Collect(s, c)) && Tame(s, Collect(s, c), c) && !Contains(Collect(s, c), c)
  {
    hide InvBut, Tame;
    if c in s.engine.observes {
      CollectObserved(cfg, s, c);
    } else {
      CollectOrdinary(cfg, s, c);
    }
  }

  // Expiry.

  /** Only the listed calls change. */
  ghost predicate Listed(due: seq<(Call, Failure)>, c: Call) {
    exists i :: 0 <= i < |due| && due[i].0 == c
  }

  lemma {:induction false} FailDueKeeps(cfg: Config, s: State, due: seq<(Call, Failure)>)
    requires Inv(cfg, s) && forall i :: 0 <= i < |due| ==> due[i].0 in s.active
    ensures var after := FailDue(s, cfg, due);
            && Inv(cfg, after) && after.active.Keys == s.active.Keys && after.retired == s.retired
            && (forall d :: !Listed(due, d) ==> SameFor(s, after, d))
            && (forall x :: Loose(after, x) <==> Loose(s, x))
    decreases |due|
  {
    hide InvBut, Fail, Loose, SameFor, Listed, FailDue;
    if due == [] {
      FailDueNone(cfg, s);
    } else {
      var c, rest := due[0].0, due[1..];
      var next := Fail(s, cfg, c, due[0].1, true);
      FailKeeps(cfg, s, c, due[0].1, None);
      FailTame(cfg, s, c, due[0].1, true, None);
      FailSame(cfg, s, c, due[0].1);
      assert forall i :: 0 <= i < |rest| ==> rest[i] == due[i + 1];
      FailDueKeeps(cfg, next, rest);
      var after := FailDue(next, cfg, rest);
      FailDueNext(cfg, s, due);
      forall d | !Listed(due, d)
        ensures SameFor(s, after, d)
      {
        ListedRest(due, d);
        assert SameFor(s, next, d) && SameFor(next, after, d);
        SameForThen(s, next, after, d);
      }
      forall x
        ensures Loose(after, x) <==> Loose(s, x)
      {
        assert Loose(next, x) <==> Loose(s, x);
      }
    }
  }

  lemma FailSame(cfg: Config, s: State, c: Call, failure: Failure)
    requires Inv(cfg, s) && c in s.active
    ensures var next := Fail(s, cfg, c, failure, true);
            next.active.Keys == s.active.Keys && next.retired == s.retired
            && next.active[c] == s.active[c].(due := 0, deadline := None)
            && Contains(next, c) && c !in next.engine.observes && c !in next.engine.exchanges
  {
    hide InvBut, Fail;
    FailIs(cfg, s, c, failure, true, None);
    MapPut(s.active, c, s.active[c].(due := 0, deadline := None));
  }

  lemma FailDueNone(cfg: Config, s: State)
    ensures FailDue(s, cfg, []) == s && forall d :: SameFor(s, s, d)
  {
  }

  lemma FailDueNext(cfg: Config, s: State, due: seq<(Call, Failure)>)
    requires due != []
    ensures FailDue(s, cfg, due) == FailDue(Fail(s, cfg, due[0].0, due[0].1, true), cfg, due[1..])
  {
    hide Fail;
  }

  lemma ListedRest(due: seq<(Call, Failure)>, d: Call)
    requires due != [] && !Listed(due, d)
    ensures d != due[0].0 && !Listed(due[1..], d)
  {
    assert forall i :: 0 <= i < |due[1..]| ==> due[1..][i] == due[i + 1];
  }

  // Admission.

  /** The engine and the inbox hold nothing for the call. */
  ghost predicate Vacant(s: State, c: Call) {
    && c !in s.engine.exchanges && c !in s.engine.observes && !Uploading(s.engine.uploads, c) && Quiet(s.engine.tx, c)
    && (c in s.inbox ==> s.inbox[c].body.None? && s.inbox[c].datagram.None?)
    && (forall t :: t in s.retired ==> s.retired[t].call != c)
  }

  lemma LaunchRows(s: State, after: State, c: Call, live: Live)
    requires after.active == s.active[c := live] && after.inbox == s.inbox - {c}
    requires after.engine.observes == s.engine.observes
    requires forall d :: d != c ==> (d in after.engine.exchanges <==> d in s.engine.exchanges)
    requires forall d :: d != c ==> (d in after.engine.bindings <==> d in s.engine.bindings)
    requires forall d :: d != c ==> (Uploading(after.engine.uploads, d) <==> Uploading(s.engine.uploads, d))
    ensures Rows(s.active, s.inbox, s.engine.exchanges.Keys, s.engine.observes, s.engine.uploads) ==>
              Rows(after.active, after.inbox, after.engine.exchanges.Keys, after.engine.observes, after.engine.uploads)
    ensures Owned(s.active.Keys, s.inbox.Keys, s.engine.exchanges.Keys, s.engine.observes, s.engine.bindings) ==>
              Owned(after.active.Keys, after.inbox.Keys, after.engine.exchanges.Keys, after.engine.observes, after.engine.bindings)
  {
    hide Uploading;
  }

  lemma LaunchSlots(full: bool, s: State, after: State, c: Call)
    requires after.inbox == s.inbox - {c} && (c in s.inbox ==> s.inbox[c].body.None? && s.inbox[c].datagram.None?)
    requires after.engine.rx == s.engine.rx && after.engine.bodies == s.engine.bodies
    ensures Packets(full, s.inbox, s.engine.rx) ==> Packets(full, after.inbox, after.engine.rx)
    ensures Bodies(s.inbox, s.engine.bodies, None) ==> Bodies(after.inbox, after.engine.bodies, None)
    ensures forall x :: Loose(after, x) <==> Loose(s, x)
  {
    assert forall d, b: Slot :: Holds(after.inbox, d, b) <==> Holds(s.inbox, d, b);
    forall x
      ensures Loose(after, x) <==> Loose(s, x)
    {
      LooseSame(s, after, c, x);
    }
  }

  lemma LaunchUploads(s: State, c: Call, live: Live, slot: Option<Slot>)
    requires Uploads(s.active, s.engine.uploads) && !Uploading(s.engine.uploads, c)
    ensures Uploads(s.active[c := live], PlaceUpload(s.engine.uploads, slot, c, live.tag))
    ensures forall d :: d != c ==> (Uploading(PlaceUpload(s.engine.uploads, slot, c, live.tag), d) <==> Uploading(s.engine.uploads, d))
  {
    hide PlaceUpload;
    assert Uploads(s.active[c := live], s.engine.uploads);
    PlaceUploads(s.active[c := live], s.engine.uploads, slot, c, live.tag);
  }

  lemma LaunchKeeps(cfg: Config, s: State, c: Call, live: Live, x: Sending)
    requires Inv(cfg, s) && Vacant(s, c) && LiveOk(c, live)
    requires Sizes(cfg.calls, s.active[c := live], s.retired)
    requires Credited(cfg, s.active.Keys + {c}, s.inbox - {c})
    ensures Inv(cfg, Launch(s, c, live, x)) && Tame(s, Launch(s, c, live, x), c)
  {
    hide Sizes, Owned, Rows, Packets, Bodies, Uploads, Credited, TxOk, Quiet, Loose, PlacePacket, PlaceUpload, Uploading, LiveOk, SameHoldings;
    var after := Launch(s, c, live, x);
    FollowupOnly(s.engine, after.engine, x.upload, c, live.tag);
    LaunchUploads(s, c, live, x.upload);
    LaunchRows(s, after, c, live);
    LaunchSlots(cfg.full, s, after, c);
    PlaceKeeps(s.engine.exchanges, s.engine.tx, c, x.exchange, x.timer);
    assert after.active.Keys == s.active.Keys + {c};
  }

  /** When `prepare` goes ahead with a new call. */
  ghost predicate Admissible(cfg: Config, s: State, c: Call, live: Live) {
    && c !in s.active && (forall t :: t in s.retired ==> s.retired[t].call != c)
    && |s.active| + |s.retired| < cfg.calls
    && (cfg.full ==> Credits(s) < SatSub(cfg.rxSlots, RX_HEADROOM))
    && (forall until :: !Cools(s, live.target, until))
    && LiveOk(c, live) && live.backoff == 0
  }

  lemma AdmitKeeps(cfg: Config, s: State, now: nat, c: Call, live: Live, x: Sending)
    requires Inv(cfg, s) && Admissible(cfg, ExpireBackoffs(s, now), c, live)
    ensures Inv(cfg, Admit(s, now, c, live, x)) && Tame(s, Admit(s, now, c, live, x), c)
  {
    hide Inv, Launch, ExpireBackoffs, Tame, LiveOk, Cools;
    var s0 := ExpireBackoffs(s, now);
    ExpireTimes(s, now);
    assert Inv(cfg, s0) by { assert InvBut(cfg, s, None) by { InvIs(cfg, s); } TimesKeep(cfg, s, s0, None); InvIs(cfg, s0); }
    FreshVacant(cfg, s0, c, live);
    FreshRoom(cfg, s0, c, live);
    LaunchKeeps(cfg, s0, c, live, x);
    ExpireTame(s, now, c);
    TameThen(s, s0, Launch(s0, c, live, x), c);
  }

  lemma InvIs(cfg: Config, s: State)
    ensures Inv(cfg, s) <==> InvBut(cfg, s, None)
  {
  }

  lemma FreshVacant(cfg: Config, s: State, c: Call, live: Live)
    requires Inv(cfg, s) && Admissible(cfg, s, c, live)
    ensures Vacant(s, c)
  {
    hide InvBut, Cools, LiveOk, Uploading, Credits, Quiet;
    FreshIsUnknown(cfg, s, c);
  }

  lemma FreshRoom(cfg: Config, s: State, c: Call, live: Live)
    requires Inv(cfg, s) && Admissible(cfg, s, c, live)
    ensures Sizes(cfg.calls, s.active[c := live], s.retired)
    ensures Credited(cfg, s.active.Keys + {c}, s.inbox - {c})
  {
    hide InvBut, Cools, Credited, LiveOk, CreditCalls, OrphanReplies;
    MapPut(s.active, c, live);
    FreshIsUnknown(cfg, s, c);
    MapSame(s.inbox, c);
    FreshCredit(cfg, s.active.Keys, s.inbox, c);
  }

  lemma FreshIsUnknown(cfg: Config, s: State, c: Call)
    requires Inv(cfg, s) && c !in s.active
    ensures c !in s.inbox && c !in s.engine.exchanges && c !in s.engine.observes && c !in s.engine.bindings
    ensures !Uploading(s.engine.uploads, c) && Quiet(s.engine.tx, c)
  {
    hide Rows, Packets, Bodies, Lives, TxOk, Quiet, Credited, Sizes;
    assert c !in s.active.Keys;
    UnlistedIsQuiet(s.engine.exchanges, s.engine.tx, c);
  }

  lemma FreshCredit(cfg: Config, active: set<Call>, inbox: ReplyMap, c: Call)
    requires c !in active && (cfg.full ==> |CreditCalls(active, inbox)| < SatSub(cfg.rxSlots, RX_HEADROOM))
    ensures Credited(cfg, active + {c}, inbox)
  {
    var before, after := CreditCalls(active, inbox), CreditCalls(active + {c}, inbox);
    Smaller(after, before + {c});
  }

  /** When `prepare` goes ahead with a refresh or a deregistration of a subscription. */
  ghost predicate Replaceable(s: State, c: Call, identity: Identity) {
    && c in s.active && s.active[c].observe.Register? && s.active[c].due != 0 && Waiting(s, c)
    && s.active[c].identity == Some(identity)
    && (forall until :: !Cools(s, identity.target, until))
  }

  lemma DisplaceKeeps(cfg: Config, s: State, now: nat, c: Call, refreshing: bool)
    requires Inv(cfg, s) && c in s.active
    ensures var after := Displace(s, cfg, now, c, refreshing);
            && Inv(cfg, after) && Tame(s, after, c) && Vacant(after, c)
            && after.active.Keys == s.active.Keys && after.inbox.Keys == s.inbox.Keys + {c}
            && after.inbox[c].meta.Err? && after.inbox[c].complete && c !in after.engine.bindings
            && (forall d :: d != c && d in s.inbox ==> after.inbox[d] == s.inbox[d])
            && after.retired == ExpireBackoffs(s, now).retired
  {
    hide InvBut, Fail, ExpireBackoffs, Tame, AbandonSend, Uploading, DropUpload, Quiet;
    var s0 := ExpireBackoffs(s, now);
    ExpireTimes(s, now);
    TimesKeep(cfg, s, s0, None);
    ExpireTame(s, now, c);
    AbandonKeeps(cfg, s0, c, None);
    AbandonTame(s0, c);
    var s1 := Abandon(s0, c);
    TameThen(s, s0, s1, c);
    var failure := if refreshing then ReregistrationFailed else CancellationFailed;
    FailKeeps(cfg, s1, c, failure, None);
    FailIs(cfg, s1, c, failure, true, None);
    FailTame(cfg, s1, c, failure, true, None);
    DropUploadKeeps(cfg, s1, c, None);
    var after := Fail(s1, cfg, c, failure, true);
    TameThen(s, s1, after, c);
    RetiredElsewhere(cfg, after, c);
  }

  lemma RetiredElsewhere(cfg: Config, s: State, c: Call)
    requires Inv(cfg, s) && c in s.active
    ensures forall t :: t in s.retired ==> s.retired[t].call != c
  {
  }

  lemma ReplaceKeeps(cfg: Config, s: State, now: nat, c: Call, live: Live, x: Sending)
    requires Inv(cfg, s) && live.identity.Some? && Replaceable(ExpireBackoffs(s, now), c, live.identity.value)
    requires LiveOk(c, live)
    ensures Inv(cfg, Replace(s, cfg, now, c, live, x)) && Tame(s, Replace(s, cfg, now, c, live, x), c)
  {
    hide InvBut, Displace, Launch, Tame, LiveOk, Cools, Vacant, ExpireBackoffs;
    ExpireTimes(s, now);
    var refreshing := live.observe.Register?;
    DisplaceKeeps(cfg, s, now, c, refreshing);
    var s1 := Displace(s, cfg, now, c, refreshing);
    NothingHeld(s1, c);
    DisplacedRoom(cfg, s, s1, c, live);
    LaunchKeeps(cfg, s1, c, live, x);
    TameThen(s, s1, Launch(s1, c, live, x), c);
  }

  lemma NothingHeld(s: State, c: Call)
    requires Vacant(s, c)
    ensures DropDatagram(s, c) == s
  {
  }

  /** Discarding the recorded failure gives back exactly the credit the subscription had. */
  lemma DisplacedRoom(cfg: Config, s: State, after: State, c: Call, live: Live)
    requires Inv(cfg, s) && Inv(cfg, after) && c in s.active && s.active[c].due != 0
    requires after.active.Keys == s.active.Keys && after.inbox.Keys == s.inbox.Keys + {c}
    requires forall d :: d != c && d in s.inbox ==> after.inbox[d] == s.inbox[d]
    ensures Sizes(cfg.calls, after.active[c := live], after.retired)
    ensures Credited(cfg, after.active.Keys + {c}, after.inbox - {c})
  {
    hide Rows, Owned, Packets, Bodies, Uploads, Lives, TxOk;
    MapPut(after.active, c, live);
    assert after.active.Keys + {c} == s.active.Keys;
    NotFailed(cfg, s, c);
    RestoredCredit(cfg, s.active.Keys, s.inbox, after.inbox, c);
  }

  lemma NotFailed(cfg: Config, s: State, c: Call)
    requires Inv(cfg, s) && c in s.active && s.active[c].due != 0
    ensures Answerable(s, c)
  {
  }

  lemma RestoredCredit(cfg: Config, active: set<Call>, inbox: ReplyMap, after: ReplyMap, c: Call)
    requires Credited(cfg, active, inbox) && (c in inbox ==> inbox[c].meta.Ok?) && after.Keys == inbox.Keys + {c}
    requires forall d :: d != c && d in inbox ==> after[d] == inbox[d]
    ensures Credited(cfg, active, after - {c})
  {
    CreditsShrink(cfg, active, inbox, active, after - {c});
  }
}
