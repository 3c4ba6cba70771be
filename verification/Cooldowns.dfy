/** The live table refines a plain map from request targets to the time they may be tried again. */
module Cooldowns {
  import opened Common
  import opened Engines
  import opened ClientModel
  import opened ClientInvariant
  import opened ClientAdmission
  import opened ClientRuns
  import opened ClientSteps
  import Authority
  import Observe

  type Plain = map<Target, nat>

  /** The map gives each target with a cooldown the longest one any row carries. */
  ghost predicate Tracks(s: State, m: Plain) {
    && (forall t, until :: Cools(s, t, until) ==> t in m && until <= m[t])
    && (forall t :: t in m ==> Cools(s, t, m[t]))
  }

  lemma TracksOne(s: State, a: Plain, b: Plain)
    requires Tracks(s, a) && Tracks(s, b)
    ensures a == b
  {
    hide Cools;
    forall t | t in a
      ensures t in b && b[t] == a[t]
    {
      assert Cools(s, t, a[t]);
      assert Cools(s, t, b[t]);
    }
    forall t | t in b
      ensures t in a
    {
      assert Cools(s, t, b[t]);
    }
  }

  /** Time passes: only entries due by now are dropped. */
  ghost function Aged(m: Plain, now: nat): Plain {
    map t | t in m && m[t] > now :: m[t]
  }

  ghost function Raised(m: Plain, t: Target, until: nat): Plain {
    m[t := if t in m then Max(m[t], until) else until]
  }

  lemma CoolsAged(s: State, now: nat, t: Target, until: nat)
    requires Lives(s.active, s.retired)
    ensures Cools(ExpireBackoffs(s, now), t, until) <==> Cools(s, t, until) && until > now
  {
    var after := ExpireBackoffs(s, now);
    if Cools(s, t, until) && until > now && !(t in s.retired && s.retired[t].until == until) {
      var c :| c in s.active && s.active[c].target == t && s.active[c].backoff == until != 0;
      assert c in after.active && after.active[c].target == t && after.active[c].backoff == until;
    }
  }

  lemma ExpireTracks(s: State, now: nat, m: Plain)
    requires Lives(s.active, s.retired) && Tracks(s, m)
    ensures Tracks(ExpireBackoffs(s, now), Aged(m, now))
  {
    hide Cools, ExpireBackoffs;
    forall t, until | Cools(ExpireBackoffs(s, now), t, until)
      ensures t in Aged(m, now) && until <= Aged(m, now)[t]
    {
      CoolsAged(s, now, t, until);
    }
    forall t | t in Aged(m, now)
      ensures Cools(ExpireBackoffs(s, now), t, Aged(m, now)[t])
    {
      CoolsAged(s, now, t, m[t]);
    }
  }

  lemma CoolsRaised(s: State, c: Call, until: nat, t: Target, u: nat)
    requires c in s.active && until != 0
    ensures var live := s.active[c];
            var after := s.(active := s.active[c := live.(backoff := Max(live.backoff, until))]);
            Cools(after, t, u) ==> Cools(s, t, u) || (t == live.target && (u == until || u == live.backoff != 0))
    ensures var live := s.active[c];
            var after := s.(active := s.active[c := live.(backoff := Max(live.backoff, until))]);
            Cools(s, t, u) ==> Cools(after, t, u) || (t == live.target && u == live.backoff)
  {
    var live := s.active[c];
    var after := s.(active := s.active[c := live.(backoff := Max(live.backoff, until))]);
    if Cools(s, t, u) && !(t in s.retired && s.retired[t].until == u) {
      var d :| d in s.active && s.active[d].target == t && s.active[d].backoff == u != 0;
      if d != c {
        assert d in after.active && after.active[d].target == t && after.active[d].backoff == u;
      }
    }
  }

  lemma RaiseTracks(s: State, c: Call, until: nat, m: Plain)
    requires c in s.active && until != 0 && Tracks(s, m)
    ensures var live := s.active[c];
            Tracks(s.(active := s.active[c := live.(backoff := Max(live.backoff, until))]), Raised(m, live.target, until))
  {
    hide Cools;
    var live := s.active[c];
    var after := s.(active := s.active[c := live.(backoff := Max(live.backoff, until))]);
    var raised := Raised(m, live.target, until);
    CarriedHere(after, c);
    if live.backoff != 0 {
      CarriedHere(s, c);
    }
    forall t, u | Cools(after, t, u)
      ensures t in raised && u <= raised[t]
    {
      CoolsRaised(s, c, until, t, u);
    }
    forall t | t in raised
      ensures Cools(after, t, raised[t])
    {
      if t in m {
        CoolsRaised(s, c, until, t, m[t]);
      }
    }
  }

  lemma CarriedHere(s: State, c: Call)
    requires c in s.active && s.active[c].backoff != 0
    ensures Cools(s, s.active[c].target, s.active[c].backoff)
  {
  }

  /** `record_backoff`: overload raises the target's cooldown, after what is due has gone. */
  lemma RecordTracks(s: State, c: Call, msg: Message, now: nat, m: Plain)
    requires Lives(s.active, s.retired) && Tracks(s, m) && c in s.active
    ensures var after := RecordBackoff(s, c, msg, now);
            Tracks(after, if !Overloads(msg) then m
                          else if Seconds(msg) == 0 then Aged(m, now)
                          else Raised(Aged(m, now), s.active[c].target, SatAdd(now, Seconds(msg) * 1000)))
  {
    hide Cools, Tracks;
    ExpireTracks(s, now, m);
    if Overloads(msg) && Seconds(msg) != 0 {
      RaiseTracks(ExpireBackoffs(s, now), c, SatAdd(now, Seconds(msg) * 1000), Aged(m, now));
    }
  }

  lemma CoolsRemoved(s: State, c: Call, t: Target, u: nat)
    requires Lives(s.active, s.retired) && c in s.active
    ensures Cools(Remove(s, c), t, u) ==> Cools(s, t, u)
    ensures Cools(s, t, u) ==> Cools(Remove(s, c), t, u) || (exists v :: v > u && Cools(s, t, v))
  {
    var after := Remove(s, c);
    var t0, b := s.active[c].target, s.active[c].backoff;
    if b != 0 {
      CarriedHere(s, c);
    }
    if Cools(s, t, u) {
      if t in s.retired && s.retired[t].until == u {
        if t == t0 && b > u {
          assert Cools(s, t, b);
        } else {
          assert t in after.retired && after.retired[t].until == u;
        }
      } else {
        var d :| d in s.active && s.active[d].target == t && s.active[d].backoff == u != 0;
        if d != c {
          assert d in after.active && after.active[d] == s.active[d];
        } else if t in s.retired && s.retired[t].until > u {
          assert Cools(s, t, s.retired[t].until);
        } else {
          assert after.retired[t].until == u;
        }
      }
    }
  }

  /** `remove`, whether it deletes, merges or retires, leaves every target's cooldown as it was. */
  lemma RemoveTracks(s: State, c: Call, m: Plain)
    requires Lives(s.active, s.retired) && Tracks(s, m)
    ensures Tracks(Remove(s, c), m)
  {
    if c in s.active {
      hide Cools, Remove;
      forall t, u | Cools(Remove(s, c), t, u)
        ensures t in m && u <= m[t]
      {
        CoolsRemoved(s, c, t, u);
      }
      forall t | t in m
        ensures Cools(Remove(s, c), t, m[t])
      {
        CoolsRemoved(s, c, t, m[t]);
      }
    }
  }

  lemma CoolsLaunched(s: State, c: Call, live: Live, x: Sending, t: Target, u: nat)
    requires live.backoff == 0 && (c in s.active ==> s.active[c].backoff == 0)
    ensures Cools(Launch(s, c, live, x), t, u) <==> Cools(s, t, u)
  {
    var after := Launch(s, c, live, x);
    if Cools(s, t, u) && !(t in s.retired && s.retired[t].until == u) {
      var d :| d in s.active && s.active[d].target == t && s.active[d].backoff == u != 0;
      assert d in after.active && after.active[d].target == t && after.active[d].backoff == u;
    }
  }

  /** Installing a call over nothing, or over a row without a cooldown, erases none. */
  lemma LaunchTracks(s: State, c: Call, live: Live, x: Sending, m: Plain)
    requires live.backoff == 0 && (c in s.active ==> s.active[c].backoff == 0) && Tracks(s, m)
    ensures Tracks(Launch(s, c, live, x), m)
  {
    hide Cools, Launch;
    var after := Launch(s, c, live, x);
    forall t, u | Cools(after, t, u)
      ensures t in m && u <= m[t]
    {
      CoolsLaunched(s, c, live, x, t, u);
    }
    forall t | t in m
      ensures Cools(after, t, m[t])
    {
      CoolsLaunched(s, c, live, x, t, m[t]);
    }
  }

  /** A replaced row has no cooldown: `prepare` has just refused any target that has one. */
  lemma ReplacedIsCool(cfg: Config, s: State, c: Call, id: Identity)
    requires Inv(cfg, s) && Replaceable(s, c, id)
    ensures s.active[c].backoff == 0
  {
    assert LiveOk(c, s.active[c]);
    if s.active[c].backoff != 0 {
      CarriedHere(s, c);
      assert false;
    }
  }

  // Every other operation leaves targets and cooldowns alone.

  ghost predicate SameCooldowns(s: State, after: State) {
    && after.retired == s.retired && after.active.Keys == s.active.Keys
    && forall c :: c in s.active ==>
         after.active[c].target == s.active[c].target && after.active[c].backoff == s.active[c].backoff
  }

  lemma CoolsSame(s: State, after: State, t: Target, u: nat)
    requires SameCooldowns(s, after)
    ensures Cools(after, t, u) <==> Cools(s, t, u)
  {
    assert forall c :: c in after.active <==> c in after.active.Keys;
    assert forall c :: c in s.active <==> c in s.active.Keys;
    if Cools(s, t, u) && !(t in s.retired && s.retired[t].until == u) {
      var d :| d in s.active && s.active[d].target == t && s.active[d].backoff == u != 0;
      assert d in after.active && after.active[d].target == t && after.active[d].backoff == u;
    }
  }

  lemma SameTracks(s: State, after: State, m: Plain)
    requires SameCooldowns(s, after) && Tracks(s, m)
    ensures Tracks(after, m)
  {
    hide Cools, SameCooldowns;
    forall t, u | Cools(after, t, u)
      ensures t in m && u <= m[t]
    {
      CoolsSame(s, after, t, u);
    }
    forall t | t in m
      ensures Cools(after, t, m[t])
    {
      CoolsSame(s, after, t, m[t]);
    }
  }

  ghost predicate SameLives(s: State, after: State) {
    after.active == s.active && after.retired == s.retired
  }

  lemma RowsSameLives(s: State, cfg: Config, c: Call, reply: Reply, release: bool)
    ensures SameLives(s, DropDatagram(s, c)) && SameLives(s, PutReply(s, cfg, c, reply))
    ensures SameLives(s, Detach(s, c, release)) && SameLives(s, DropBodies(s, c)) && SameLives(s, Unbind(s, c))
  {
    hide DropExchange, BodiesWithout;
  }

  lemma UploadSameLives(s: State, c: Call)
    ensures SameLives(s, DropUpload(s, c))
  {
    hide LookupUpload;
  }

  lemma DisarmSameCooldowns(s: State, t: State, c: Call)
    requires SameLives(s, t)
    ensures SameCooldowns(s, Disarm(t, c))
  {
  }

  lemma FailSameCooldowns(s: State, cfg: Config, c: Call, failure: Failure, release: bool)
    ensures SameCooldowns(s, Fail(s, cfg, c, failure, release))
  {
    hide DropDatagram, PutReply, Detach, DropBodies, Unbind, DropUpload, Disarm, SameCooldowns, Fail;
    FailParts(s, cfg, c, failure, release);
    var reply := Reply(true, Err(failure), None, None);
    var s1 := Detach(s, c, release);
    var s2 := DropDatagram(s1, c);
    var s3 := PutReply(s2, cfg, c, reply);
    var s4 := DropBodies(s3, c);
    var s5 := DropUpload(s4, c);
    RowsSameLives(s, cfg, c, reply, release);
    RowsSameLives(s1, cfg, c, reply, release);
    RowsSameLives(s2, cfg, c, reply, release);
    RowsSameLives(s3, cfg, c, reply, release);
    UploadSameLives(s4, c);
    RowsSameLives(s5, cfg, c, reply, release);
    DisarmSameCooldowns(s, Unbind(s5, c), c);
  }

  lemma SameCooldownsThen(s: State, mid: State, after: State)
    requires SameCooldowns(s, mid) && (SameCooldowns(mid, after) || SameLives(mid, after))
    ensures SameCooldowns(s, after)
  {
    assert forall c :: c in mid.active <==> c in mid.active.Keys;
    assert forall c :: c in s.active <==> c in s.active.Keys;
  }

  lemma LivesAreCooldowns(s: State, after: State)
    requires SameLives(s, after)
    ensures SameCooldowns(s, after)
  {
  }

  lemma {:induction false} FailDueSameCooldowns(s: State, cfg: Config, due: seq<(Call, Failure)>)
    ensures SameCooldowns(s, FailDue(s, cfg, due))
    decreases |due|
  {
    hide Fail;
    if due == [] {
      LivesAreCooldowns(s, FailDue(s, cfg, due));
    } else {
      hide SameCooldowns;
      var next := Fail(s, cfg, due[0].0, due[0].1, true);
      FailSameCooldowns(s, cfg, due[0].0, due[0].1, true);
      FailDueSameCooldowns(next, cfg, due[1..]);
      SameCooldownsThen(s, next, FailDue(next, cfg, due[1..]));
    }
  }

  lemma FollowupSameCooldowns(s: State, cfg: Config, c: Call, f: Followup)
    ensures SameCooldowns(s, SendFollowup(s, cfg, c, f))
  {
    hide Fail, AbandonSend, PlacePacket, PlaceUpload, SameCooldowns;
    if f.NotSent? {
      FailSameCooldowns(Abandon(s, c), cfg, c, ContinuationFailed, true);
      LivesAreCooldowns(s, Abandon(s, c));
      SameCooldownsThen(s, Abandon(s, c), SendFollowup(s, cfg, c, f));
    } else {
      LivesAreCooldowns(s, SendFollowup(s, cfg, c, f));
    }
  }

  lemma ObservationSameCooldowns(s: State, c: Call, n: Observe.Notification)
    ensures SameCooldowns(s, RecordObservation(s, c, n))
  {
    hide Observe.Recorded;
  }

  lemma PacketSame(s: State, mid: State, rx: Slot)
    requires SameCooldowns(s, mid)
    ensures SameCooldowns(s, ReleasePacket(mid, rx))
  {
    hide SameCooldowns;
    SameCooldownsThen(s, mid, ReleasePacket(mid, rx));
  }

  lemma AssembleSameCooldowns(s: State, cfg: Config, now: nat, c: Call, rx: Slot, m: Message, env: Env, via: bool)
    ensures SameCooldowns(s, Assemble(s, cfg, now, c, rx, m, env, via))
  {
    hide Fail, SendFollowup, Finish, RetainPartial, DropDatagram, SameCooldowns, ReleasePacket, RecordObservation;
    LivesAreCooldowns(s, s);
    PacketSame(s, s, rx);
    if env.apply.Broken? {
      FailSameCooldowns(s, cfg, c, BlockTransfer(env.apply.error), true);
      PacketSame(s, Fail(s, cfg, c, BlockTransfer(env.apply.error), true), rx);
    } else if env.apply.Progress? && Assembles(s.engine.bodies, env.apply.slot, c) {
      ProgressSameCooldowns(s, cfg, now, c, rx, m, env, via, env.apply.slot);
    }
  }

  lemma ProgressSameCooldowns(s: State, cfg: Config, now: nat, c: Call, rx: Slot, m: Message, env: Env, via: bool, slot: Slot)
    requires slot < |s.engine.bodies|
    ensures var s1 := RecordObservation(Admitted(s, c, slot, m.block.QBlock2?), c, Notice(m, now));
            var meta := Meta(HeaderOf(m), now);
            var s2 := RetainPartial(DropDatagram(s1, c), cfg, c, meta, slot);
            && SameCooldowns(s, ReleasePacket(Finish(s1, cfg, c, slot, meta, env, via), rx))
            && SameCooldowns(s, ReleasePacket(s2, rx))
            && SameCooldowns(s, ReleasePacket(SendFollowup(TakeExchange(s2, c), cfg, c, env.followup), rx))
  {
    hide Fail, SendFollowup, Finish, RetainPartial, DropDatagram, SameCooldowns, ReleasePacket, RecordObservation;
    var s0 := Admitted(s, c, slot, m.block.QBlock2?);
    var s1 := RecordObservation(s0, c, Notice(m, now));
    var meta := Meta(HeaderOf(m), now);
    LivesAreCooldowns(s, s0);
    ObservationSameCooldowns(s0, c, Notice(m, now));
    SameCooldownsThen(s, s0, s1);
    FinishSameCooldowns(s1, cfg, c, slot, meta, env, via);
    SameCooldownsThen(s, s1, Finish(s1, cfg, c, slot, meta, env, via));
    PacketSame(s, Finish(s1, cfg, c, slot, meta, env, via), rx);
    var s2 := RetainPartial(DropDatagram(s1, c), cfg, c, meta, slot);
    PartialSameLives(s1, cfg, c, meta, slot);
    SameCooldownsThen(s, s1, s2);
    PacketSame(s, s2, rx);
    var s3 := TakeExchange(s2, c);
    SameCooldownsThen(s, s2, s3);
    FollowupSameCooldowns(s3, cfg, c, env.followup);
    SameCooldownsThen(s, s3, SendFollowup(s3, cfg, c, env.followup));
    PacketSame(s, SendFollowup(s3, cfg, c, env.followup), rx);
  }

  lemma PartialSameLives(s: State, cfg: Config, c: Call, meta: Meta, slot: Slot)
    ensures SameLives(s, RetainPartial(DropDatagram(s, c), cfg, c, meta, slot))
  {
    hide DropDatagram, PutReply;
    var reply := Reply(false, Ok(meta), Some(slot), None);
    RowsSameLives(s, cfg, c, reply, true);
    RowsSameLives(DropDatagram(s, c), cfg, c, reply, true);
  }

  lemma StoreSameLives(s: State, cfg: Config, c: Call, meta: Meta, body: Option<Slot>)
    ensures SameLives(s, StoreReply(s, cfg, c, meta, body))
  {
    hide DropDatagram, PutReply;
    var reply := Reply(true, Ok(meta), body, None);
    RowsSameLives(s, cfg, c, reply, true);
    RowsSameLives(DropDatagram(s, c), cfg, c, reply, true);
  }

  lemma AcceptSameLives(s: State, c: Call, header: Header, via: bool, room: bool)
    ensures SameLives(s, TakeExchange(AcceptObserve(s, c, header, via, room), c))
  {
  }

  lemma FinishSameCooldowns(s: State, cfg: Config, c: Call, slot: Slot, meta: Meta, env: Env, via: bool)
    ensures SameCooldowns(s, Finish(s, cfg, c, slot, meta, env, via))
  {
    hide Fail, StoreReply, AcceptObserve, SameCooldowns, TakeExchange;
    FailSameCooldowns(s, cfg, c, ResponseBodyBounds, true);
    var kept := c in s.inbox && !s.inbox[c].complete && s.inbox[c].body == Some(slot) && s.inbox[c].meta.Ok?;
    var first := if kept then s.inbox[c].meta.value else meta;
    var s1 := TakeExchange(AcceptObserve(s, c, first.header, via, env.room), c);
    AcceptSameLives(s, c, first.header, via, env.room);
    StoreSameLives(s1, cfg, c, first, Some(slot));
    LivesAreCooldowns(s, StoreReply(s1, cfg, c, first, Some(slot)));
  }

  lemma KeepSameCooldowns(s: State, cfg: Config, now: nat, c: Call, rx: Slot, m: Message, env: Env, via: bool)
    ensures SameCooldowns(s, Keep(s, cfg, now, c, rx, m, env, via))
  {
    hide Fail, StoreReply, AcceptObserve, SameCooldowns, TakeExchange, RecordObservation, ReleasePacket;
    FailSameCooldowns(s, cfg, c, PacketHeadroom, true);
    PacketSame(s, Fail(s, cfg, c, PacketHeadroom, true), rx);
    var s0 := RecordObservation(s, c, Notice(m, now));
    var s1 := TakeExchange(AcceptObserve(s0, c, HeaderOf(m), via, env.room), c);
    var s2 := StoreReply(s1, cfg, c, Meta(HeaderOf(m), now), None);
    ObservationSameCooldowns(s, c, Notice(m, now));
    AcceptSameLives(s0, c, HeaderOf(m), via, env.room);
    StoreSameLives(s1, cfg, c, Meta(HeaderOf(m), now), None);
    SameCooldownsThen(s, s0, s2);
    PacketSame(s, s2, rx);
    if c in s2.inbox {
      SameCooldownsThen(s, s2, s2.(inbox := s2.inbox[c := s2.inbox[c].(datagram := Some(rx))]));
    }
  }

  /** The response is the call's, is accepted, and its header is retained: `record_backoff` runs. */
  ghost predicate Digested(s: State, cfg: Config, now: nat, c: Call, m: Message, env: Env) {
    Accepts(s, cfg, now, c, m, env) && !CarriesOn(s, c, m, env) && env.meta.None?
  }

  /** What a delivery does to cooldowns: what `record_backoff` does exactly when it runs. */
  ghost predicate Recorded(runs: bool, s: State, after: State, c: Call, m: Message, now: nat) {
    if runs then SameCooldowns(RecordBackoff(s, c, m, now), after) else SameCooldowns(s, after)
  }

  lemma BackoffSameLives(s: State, base: State, c: Call, m: Message, now: nat)
    requires SameLives(base, s)
    ensures SameLives(RecordBackoff(base, c, m, now), RecordBackoff(s, c, m, now))
  {
    hide LivesAt, RetiredAt;
  }

  lemma DigestRecords(s: State, base: State, cfg: Config, now: nat, c: Call, rx: Slot, m: Message, env: Env, via: bool)
    requires SameLives(base, s)
    ensures Recorded(env.meta.None?, base, Digest(s, cfg, now, c, rx, m, env, via), c, m, now)
  {
    hide Fail, Assemble, Keep, SameCooldowns, RecordBackoff, ReleasePacket, SameLives;
    LivesAreCooldowns(base, s);
    if env.meta.Some? {
      FailSameCooldowns(s, cfg, c, env.meta.value, true);
      SameCooldownsThen(base, s, Fail(s, cfg, c, env.meta.value, true));
      PacketSame(base, Fail(s, cfg, c, env.meta.value, true), rx);
    } else {
      var s1 := RecordBackoff(s, c, m, now);
      var base1 := RecordBackoff(base, c, m, now);
      BackoffSameLives(s, base, c, m, now);
      LivesAreCooldowns(base1, s1);
      AssembleSameCooldowns(s1, cfg, now, c, rx, m, env, via);
      SameCooldownsThen(base1, s1, Assemble(s1, cfg, now, c, rx, m, env, via));
      KeepSameCooldowns(s1, cfg, now, c, rx, m, env, via);
      SameCooldownsThen(base1, s1, Keep(s1, cfg, now, c, rx, m, env, via));
    }
  }

  lemma AnswerRecords(s: State, base: State, cfg: Config, now: nat, c: Call, rx: Slot, m: Message, env: Env, via: bool)
    requires SameLives(base, s) && s.engine.uploads == base.engine.uploads
    ensures Recorded(!CarriesOn(base, c, m, env) && env.meta.None?, base, Answer(s, cfg, now, c, rx, m, env, via), c, m, now)
  {
    hide Digest, SendFollowup, RecordBackoff, DropUpload, LookupUpload, SameCooldowns, ReleasePacket;
    LivesAreCooldowns(base, s);
    FollowupSameCooldowns(s, cfg, c, env.followup);
    SameCooldownsThen(base, s, SendFollowup(s, cfg, c, env.followup));
    PacketSame(base, SendFollowup(s, cfg, c, env.followup), rx);
    UploadSameLives(s, c);
    DigestRecords(DropUpload(s, c), base, cfg, now, c, rx, m, env, via);
  }

  lemma StopUploads(s: State, mid: nat, peer: Peer)
    ensures StopPending(s, mid, peer).engine.uploads == s.engine.uploads
  {
  }

  lemma StopSameLives(s: State, mid: nat, peer: Peer)
    ensures SameLives(s, StopPending(s, mid, peer))
  {
  }

  /** A delivered response changes cooldowns as `record_backoff` does, exactly when it is digested. */
  lemma CompleteRecords(s: State, cfg: Config, now: nat, c: Call, rx: Slot, m: Message, env: Env)
    ensures Recorded(Digested(s, cfg, now, c, m, env), s, Complete(s, cfg, now, c, rx, m, env), c, m, now)
  {
    hide CarriesOn, Answer, Fail, RecordBackoff, StopPending, SameCooldowns, ReleasePacket, Observe.Admissible, Observe.RecordFresh;
    LivesAreCooldowns(s, s);
    PacketSame(s, s, rx);
    FailSameCooldowns(s, cfg, c, ObserveFormatMismatch, true);
    PacketSame(s, Fail(s, cfg, c, ObserveFormatMismatch, true), rx);
    var via := MatchesExchange(s.engine, c, m.kind, m.mid);
    var mid := if via then s.engine.exchanges[c].mid else 0;
    var acked := if m.kind.Ack? && via then StopPending(s, mid, c.peer) else s;
    var stopped := if via then StopPending(acked, mid, c.peer) else acked;
    var ready := StopPending(stopped, m.mid, c.peer);
    StopSameLives(s, mid, c.peer);
    StopSameLives(acked, mid, c.peer);
    StopSameLives(stopped, m.mid, c.peer);
    LivesAreCooldowns(s, acked);
    PacketSame(s, acked, rx);
    StopUploads(s, mid, c.peer);
    StopUploads(acked, mid, c.peer);
    StopUploads(stopped, m.mid, c.peer);
    AnswerRecords(ready, s, cfg, now, c, rx, m, env, via);
  }

  // Every step, on the plain map.

  ghost predicate Overloads(m: Message) {
    m.code.Overloaded? && !m.maxAge.BadAge?
  }

  ghost function Seconds(m: Message): nat {
    if m.maxAge.Age? then m.maxAge.seconds else 60
  }

  /** How the plain map may change in a step. */
  ghost predicate PlainStep(cfg: Config, s: State, m: Plain, step: Step, next: Plain) {
    match step
    case Expired(now, _) => next == Aged(m, now)
    case Admitting(now, _, _, _) => next == Aged(m, now)
    case Replacing(now, _, _, _) => next == Aged(m, now)
    case ReplacingDropped(now, _, _) => next == Aged(m, now)
    case Refused(now) => next == Aged(m, now)
    case Deliver(now, c, _, msg, env) =>
      next == if !Digested(s, cfg, now, c, msg, env) || !Overloads(msg) then m
              else if Seconds(msg) == 0 || c !in s.active then Aged(m, now)
              else Raised(Aged(m, now), s.active[c].target, SatAdd(now, Seconds(msg) * 1000))
    case Attaching => next == map[]
    case _ => next == m
  }

  lemma DeliverRefines(cfg: Config, s: State, step: Step, m: Plain) returns (next: Plain)
    requires Inv(cfg, s) && step.Deliver? && Tracks(s, m)
    ensures PlainStep(cfg, s, m, step, next) && Tracks(Next(cfg, s, step), next)
  {
    hide Tracks, Complete, SameCooldowns, InvBut, Digested;
    var c, now, msg := step.call, step.now, step.message;
    var after := Complete(s, cfg, now, c, step.rx, msg, step.env);
    CompleteRecords(s, cfg, now, c, step.rx, msg, step.env);
    assert Lives(s.active, s.retired) by { LivesOf(cfg, s); }
    if !Digested(s, cfg, now, c, msg, step.env) {
      next := m;
      SameTracks(s, after, m);
    } else {
      var recorded := RecordBackoff(s, c, msg, now);
      var seconds := Seconds(msg);
      if !Overloads(msg) {
        next := m;
      } else {
        ExpireTracks(s, now, m);
        if c !in s.active || seconds == 0 {
          next := Aged(m, now);
        } else {
          RecordTracks(s, c, msg, now, m);
          next := Raised(Aged(m, now), s.active[c].target, SatAdd(now, seconds * 1000));
        }
      }
      assert Tracks(recorded, next);
      SameTracks(recorded, after, next);
    }
  }

  lemma LivesOf(cfg: Config, s: State)
    requires Inv(cfg, s)
    ensures Lives(s.active, s.retired)
  {
  }

  lemma DisplaceTracks(cfg: Config, s: State, now: nat, c: Call, refreshing: bool, m: Plain)
    requires Inv(cfg, s) && Tracks(s, m)
    ensures Tracks(Displace(s, cfg, now, c, refreshing), Aged(m, now))
    ensures SameCooldowns(ExpireBackoffs(s, now), Displace(s, cfg, now, c, refreshing))
  {
    hide Tracks, SameCooldowns, Fail, ExpireBackoffs, AbandonSend, InvBut;
    LivesOf(cfg, s);
    var s0 := ExpireBackoffs(s, now);
    ExpireTracks(s, now, m);
    LivesAreCooldowns(s0, Abandon(s0, c));
    FailSameCooldowns(Abandon(s0, c), cfg, c, if refreshing then ReregistrationFailed else CancellationFailed, true);
    SameCooldownsThen(s0, Abandon(s0, c), Displace(s, cfg, now, c, refreshing));
    SameTracks(s0, Displace(s, cfg, now, c, refreshing), Aged(m, now));
  }

  lemma ReplaceTracks(cfg: Config, s: State, step: Step, m: Plain)
    requires Inv(cfg, s) && Enabled(cfg, s, step) && step.Replacing? && Tracks(s, m)
    ensures Tracks(Next(cfg, s, step), Aged(m, step.now))
  {
    hide Tracks, Displace, ExpireBackoffs, Launch, InvBut, LiveOk, Cools, DropDatagram;
    var c, now := step.call, step.now;
    var s0 := ExpireBackoffs(s, now);
    ExpireTimes(s, now);
    TimesKeep(cfg, s, s0, None);
    ReplacedIsCool(cfg, s0, c, step.live.identity.value);
    var refreshing := step.live.observe.Register?;
    DisplaceTracks(cfg, s, now, c, refreshing, m);
    var s1 := Displace(s, cfg, now, c, refreshing);
    RowsSameLives(s1, cfg, c, Reply(true, Err(Cancelled), None, None), true);
    LivesAreCooldowns(s1, DropDatagram(s1, c));
    SameTracks(s1, DropDatagram(s1, c), Aged(m, now));
    LaunchTracks(DropDatagram(s1, c), c, step.live, step.sending, Aged(m, now));
  }

  lemma CollectTracks(cfg: Config, s: State, c: Call, m: Plain)
    requires Inv(cfg, s) && Tracks(s, m) && Contains(s, c)
    ensures Tracks(Collect(s, c), m)
  {
    hide Tracks, InvBut, Remove, ReleaseAny, SameCooldowns;
    LivesOf(cfg, s);
    var s1 := s.(inbox := s.inbox - {c}, engine := ReleaseAny(s.engine, s.inbox[c].datagram, s.inbox[c].body));
    LivesAreCooldowns(s, s1);
    SameTracks(s, s1, m);
    RemoveTracks(s1, c, m);
    LivesAreCooldowns(Remove(s1, c), Unbind(Remove(s1, c), c));
    SameTracks(Remove(s1, c), Unbind(Remove(s1, c), c), m);
  }

  /** Refinement: every step of the client is a step of the plain map. */
  lemma StepRefines(cfg: Config, s: State, step: Step, m: Plain) returns (next: Plain)
    requires Inv(cfg, s) && Enabled(cfg, s, step) && Tracks(s, m)
    ensures PlainStep(cfg, s, m, step, next) && Tracks(Next(cfg, s, step), next)
  {
    hide Tracks, InvBut, SameCooldowns, Cools, LiveOk, Fail, FailDue, SendFollowup, StopPending, Launch, Displace,
      AbandonSend, Complete, Interrupt, Authority.ResetBy, Authority.GiveUp, ExpireBackoffs, Aged, Digested, Loose, Quiet;
    LivesOf(cfg, s);
    var after := Next(cfg, s, step);
    match step {
      case Deliver(_, _, _, _, _) => next := DeliverRefines(cfg, s, step, m);
      case Interrupted(_, _, _, _, _) => next := InterruptRefines(cfg, s, step, m);
      case FailBy(c, failure) =>
        next := m;
        FailSameCooldowns(s, cfg, c, failure, true);
        SameTracks(s, after, m);
      case ResetBy(_, _, _) => next := EndingRefines(cfg, s, step, m);
      case GivenUp(_, _, _) => next := EndingRefines(cfg, s, step, m);
      case Retransmitted(_, _) => next := PacketRefines(cfg, s, step, m);
      case Continued(c, f) =>
        next := m;
        FollowupSameCooldowns(s, cfg, c, f);
        SameTracks(s, after, m);
      case UploadFailed(order, c, own, taken) =>
        next := m;
        var asked := Authority.Recorded(s, c, own, taken);
        var d := Authority.ForTx(order, asked.engine, own.tx);
        var left := if d.Some? then TakeExchange(asked, d.value) else asked;
        LivesAreCooldowns(s, left);
        FollowupSameCooldowns(left, cfg, c, NotSent);
        SameCooldownsThen(s, left, after);
        SameTracks(s, after, m);
      case Acknowledge(mid, peer) =>
        next := m;
        StopSameLives(s, mid, peer);
        LivesAreCooldowns(s, after);
        SameTracks(s, after, m);
      case Collected(c, _) => next := TakeRefines(cfg, s, step, m);
      case CollectedInto(c, _) => next := TakeRefines(cfg, s, step, m);
      case Expired(now, due) =>
        next := Aged(m, now);
        ExpireTracks(s, now, m);
        FailDueSameCooldowns(ExpireBackoffs(s, now), cfg, due);
        SameTracks(ExpireBackoffs(s, now), after, next);
      case Admitting(now, c, live, x) =>
        next := Aged(m, now);
        ExpireTracks(s, now, m);
        LaunchTracks(ExpireBackoffs(s, now), c, live, x, next);
      case Replacing(now, _, _, _) =>
        next := Aged(m, now);
        ReplaceTracks(cfg, s, step, m);
      case ReplacingDropped(now, c, refreshing) =>
        next := Aged(m, now);
        DisplaceTracks(cfg, s, now, c, refreshing, m);
        LivesAreCooldowns(Displace(s, cfg, now, c, refreshing), after);
        SameTracks(Displace(s, cfg, now, c, refreshing), after, next);
      case Refused(now) =>
        next := Aged(m, now);
        ExpireTracks(s, now, m);
      case ObserveEnded(_) => next := PacketRefines(cfg, s, step, m);
      case Attaching =>
        next := map[];
        IdleTracks(after);
      case Elsewhere(_, _) => next := PacketRefines(cfg, s, step, m);
      case Received(_) => next := PacketRefines(cfg, s, step, m);
      case Released(_) => next := PacketRefines(cfg, s, step, m);
    }
  }

  lemma TakeRefines(cfg: Config, s: State, step: Step, m: Plain) returns (next: Plain)
    requires Inv(cfg, s) && (step.Collected? || step.CollectedInto?) && Tracks(s, m)
    ensures PlainStep(cfg, s, m, step, next) && Tracks(Next(cfg, s, step), next)
  {
    hide Tracks, InvBut, Collect, DropDatagram;
    next := m;
    var c := step.call;
    if Contains(s, c) {
      CollectTracks(cfg, s, c, m);
    }
    RowsSameLives(s, cfg, c, Reply(true, Err(Cancelled), None, None), true);
    LivesAreCooldowns(s, DropDatagram(s, c));
    SameTracks(s, DropDatagram(s, c), m);
  }

  lemma IdleTracks(s: State)
    requires s.active == map[] && s.retired == map[]
    ensures Tracks(s, map[])
  {
  }

  lemma InterruptRefines(cfg: Config, s: State, step: Step, m: Plain) returns (next: Plain)
    requires step.Interrupted? && Tracks(s, m)
    ensures PlainStep(cfg, s, m, step, next) && Tracks(Next(cfg, s, step), next)
  {
    hide Tracks, SameCooldowns, Fail, AbandonSend, ReleasePacket, Held, Observe.Admissible, MatchesExchange, MatchesObserve;
    next := m;
    var c := step.call;
    FailSameCooldowns(s, cfg, c, ObserveFormatMismatch, true);
    LivesAreCooldowns(s, s);
    PacketSame(s, s, step.rx);
    PacketSame(s, Fail(s, cfg, c, ObserveFormatMismatch, true), step.rx);
    EndSameCooldowns(s, s, cfg, c, step.rx);
    EndSameCooldowns(s, Fail(s, cfg, c, ObserveFormatMismatch, true), cfg, c, step.rx);
    SameTracks(s, Next(cfg, s, step), m);
  }

  lemma EndSameCooldowns(s: State, at: State, cfg: Config, c: Call, rx: Slot)
    requires SameCooldowns(s, at)
    ensures var ended := Fail(Abandon(at, c), cfg, c, ContinuationFailed, true);
            SameCooldowns(s, ended) && SameCooldowns(s, ReleasePacket(ended, rx))
  {
    hide SameCooldowns, Fail, AbandonSend;
    var left := Abandon(at, c);
    SameCooldownsThen(s, at, left);
    FailSameCooldowns(left, cfg, c, ContinuationFailed, true);
    SameCooldownsThen(s, left, Fail(left, cfg, c, ContinuationFailed, true));
    PacketSame(s, Fail(left, cfg, c, ContinuationFailed, true), rx);
  }

  lemma EndingRefines(cfg: Config, s: State, step: Step, m: Plain) returns (next: Plain)
    requires (step.ResetBy? || step.GivenUp?) && Tracks(s, m)
    ensures PlainStep(cfg, s, m, step, next) && Tracks(Next(cfg, s, step), next)
  {
    hide Tracks, SameCooldowns, Fail, StopPending, Authority.ResetTarget, Authority.ForTx;
    next := m;
    var named := About(s, step);
    var failure := if step.ResetBy? then Reset else step.failure;
    var failed := if named.Some? then Fail(s, cfg, named.value, failure, false) else s;
    if named.Some? {
      FailSameCooldowns(s, cfg, named.value, failure, false);
    } else {
      LivesAreCooldowns(s, s);
    }
    if step.ResetBy? {
      StopSameLives(failed, step.mid, step.peer);
    }
    SameCooldownsThen(s, failed, Next(cfg, s, step));
    SameTracks(s, Next(cfg, s, step), m);
  }

  lemma PacketRefines(cfg: Config, s: State, step: Step, m: Plain) returns (next: Plain)
    requires step.Received? || step.Released? || step.Retransmitted? || step.Elsewhere? || step.ObserveEnded?
    requires Tracks(s, m)
    ensures PlainStep(cfg, s, m, step, next) && Tracks(Next(cfg, s, step), next)
  {
    hide Tracks;
    next := m;
    LivesAreCooldowns(s, Next(cfg, s, step));
    SameTracks(s, Next(cfg, s, step), m);
  }

  /** Over every run there is a plain history the table refines throughout. */
  lemma {:induction false} RunRefines(cfg: Config, s: State, steps: seq<Step>, m: Plain) returns (history: seq<Plain>)
    requires Inv(cfg, s) && Runs(cfg, s, steps) && Tracks(s, m)
    ensures |history| == |steps| + 1 && history[0] == m
    ensures forall i :: 0 <= i <= |steps| ==> Tracks(After(cfg, s, steps[..i]), history[i])
    ensures forall i :: 0 <= i < |steps| ==> PlainStep(cfg, After(cfg, s, steps[..i]), history[i], steps[i], history[i + 1])
    decreases |steps|
  {
    hide Tracks, Inv, Next, Enabled, After, PlainStep;
    AfterNone(cfg, s, steps);
    history := [m];
    for i := 0 to |steps|
      invariant |history| == i + 1 && history[0] == m
      invariant forall k :: 0 <= k <= i ==> Tracks(After(cfg, s, steps[..k]), history[k])
      invariant forall k :: 0 <= k < i ==> PlainStep(cfg, After(cfg, s, steps[..k]), history[k], steps[k], history[k + 1])
    {
      RunKeeps(cfg, s, steps, i);
      AfterNext(cfg, s, steps, i);
      var next := StepRefines(cfg, After(cfg, s, steps[..i]), steps[i], history[i]);
      history := history + [next];
    }
  }
}
