/** What every operation of the client keeps, part by part. */
module ClientInvariant {
  import opened Common
  import opened Maps
  import opened Engines
  import opened ClientModel
  import Observe

  type LiveMap = map<Call, Live>
  type ReplyMap = map<Call, Reply>

  ghost predicate Sizes(calls: nat, active: LiveMap, retired: map<Target, Cooling>) {
    |active| + |retired| <= calls
  }

  /** Every reply, exchange, observe interest and binding belongs to an active call. */
  ghost predicate Owned(active: set<Call>, replies: set<Call>, exchanges: set<Call>, observes: set<Call>, bindings: set<Call>) {
    replies <= active && exchanges <= active && observes <= active && bindings <= active
  }

  /** A partial row is waiting for its body; a complete one has nothing left in flight; a failed
      one holds nothing at all. */
  ghost predicate RowOk(r: Reply, live: Live, exchanged: bool, observed: bool, uploading: bool) {
    && (!r.complete ==> r.meta.Ok? && r.datagram.None? && r.body.Some?)
    && (r.complete ==> !exchanged && !uploading)
    && (r.meta.Err? ==> !observed && r.body.None? && r.datagram.None? && live.due == 0 && live.deadline.None?)
  }

  ghost predicate Rows(active: LiveMap, inbox: ReplyMap, exchanges: set<Call>, observes: set<Call>, uploads: seq<Option<Upload>>) {
    forall c :: c in inbox ==>
      c in active && RowOk(inbox[c], active[c], c in exchanges, c in observes, Uploading(uploads, c))
  }

  /** Retained packets are occupied and have one owner each. */
  ghost predicate Packets(full: bool, inbox: ReplyMap, rx: set<Slot>) {
    && (forall c :: c in inbox && inbox[c].datagram.Some? ==> full && inbox[c].datagram.value in rx)
    && (forall c, d :: c in inbox && d in inbox && c != d && inbox[c].datagram.Some? ==>
          inbox[c].datagram != inbox[d].datagram)
  }

  /** A body just admitted for a call and not yet in its row. */
  type Hole = Option<(Call, Slot)>

  ghost predicate Holds(inbox: ReplyMap, c: Call, b: Slot) {
    c in inbox && inbox[c].body == Some(b)
  }

  ghost predicate BodyOf(bodies: seq<Option<Body>>, b: Slot, c: Call) {
    b < |bodies| && bodies[b].Some? && bodies[b].value.call == c
  }

  /** Bodies and rows name each other, so no body leaks and none has two owners. */
  ghost predicate Bodies(inbox: ReplyMap, bodies: seq<Option<Body>>, hole: Hole) {
    && (forall c, b: Slot :: Holds(inbox, c, b) ==> BodyOf(bodies, b, c))
    && (forall c, b: Slot :: BodyOf(bodies, b, c) ==> Holds(inbox, c, b) || hole == Some((c, b)))
    && (hole.Some? ==> BodyOf(bodies, hole.value.1, hole.value.0))
  }

  /** Each upload is found under its call's own tag, and a call has at most one. */
  ghost predicate Uploads(active: LiveMap, uploads: seq<Option<Upload>>) {
    && (forall u :: 0 <= u < |uploads| && uploads[u].Some? ==>
          uploads[u].value.call in active && uploads[u].value.tag == active[uploads[u].value.call].tag)
    && (forall u, v :: 0 <= u < v < |uploads| && uploads[u].Some? && uploads[v].Some? ==>
          uploads[u].value.call != uploads[v].value.call)
  }

  ghost predicate LiveOk(c: Call, live: Live) {
    live.target.peer == c.peer && (live.identity.Some? ==> live.identity.value.target == live.target)
  }

  /** Retired rows carry a running cooldown under calls no active or other retired row uses. */
  ghost predicate Lives(active: LiveMap, retired: map<Target, Cooling>) {
    && (forall c :: c in active ==> LiveOk(c, active[c]))
    && (forall t :: t in retired ==> retired[t].until != 0 && retired[t].call !in active)
    && (forall t, u :: t in retired && u in retired && t != u ==> retired[t].call != retired[u].call)
  }

  /** One packet always stays outside reply retention. */
  ghost predicate Credited(cfg: Config, active: set<Call>, inbox: ReplyMap) {
    cfg.full ==> |CreditCalls(active, inbox)| <= SatSub(cfg.rxSlots, RX_HEADROOM)
  }

  /** Everything but the transmit slots. */
  ghost predicate InvRest(cfg: Config, s: State, hole: Hole) {
    var e := s.engine;
    && Sizes(cfg.calls, s.active, s.retired)
    && Owned(s.active.Keys, s.inbox.Keys, e.exchanges.Keys, e.observes, e.bindings)
    && Rows(s.active, s.inbox, e.exchanges.Keys, e.observes, e.uploads)
    && Packets(cfg.full, s.inbox, e.rx)
    && Bodies(s.inbox, e.bodies, hole)
    && Uploads(s.active, e.uploads)
    && Lives(s.active, s.retired)
    && Credited(cfg, s.active.Keys, s.inbox)
  }

  ghost predicate InvBut(cfg: Config, s: State, hole: Hole) {
    InvRest(cfg, s, hole) && TxOk(s.engine.exchanges, s.engine.tx)
  }

  ghost predicate Inv(cfg: Config, s: State) {
    InvBut(cfg, s, None)
  }

  /** The call may be answered: it is active and has not failed. */
  ghost predicate Answerable(s: State, c: Call) {
    c in s.active && (c in s.inbox ==> s.inbox[c].meta.Ok?)
  }

  lemma TargetedIsAnswerable(cfg: Config, s: State, c: Call)
    requires Inv(cfg, s) && (c in s.engine.exchanges || c in s.engine.observes)
    ensures Answerable(s, c)
  {
  }

  // Counting.

  lemma Smaller<T>(a: set<T>, b: set<T>)
    requires a <= b
    ensures |a| <= |b|
  {
    if a != b {
      assert a + (b - a) == b;
    }
  }

  lemma CreditsShrink(cfg: Config, active: set<Call>, inbox: ReplyMap, active': set<Call>, inbox': ReplyMap)
    requires Credited(cfg, active, inbox) && CreditCalls(active', inbox') <= CreditCalls(active, inbox)
    ensures Credited(cfg, active', inbox')
  {
    Smaller(CreditCalls(active', inbox'), CreditCalls(active, inbox));
  }

  /** Pigeonhole: an active call without a row leaves room for one. */
  lemma RoomForReply(cfg: Config, s: State, c: Call, hole: Hole)
    requires InvRest(cfg, s, hole) && c in s.active && c !in s.inbox
    ensures |s.inbox| < cfg.calls
  {
    Smaller(s.inbox.Keys + {c}, s.active.Keys);
  }

  // Operations that touch one part.

  lemma StopKeeps(cfg: Config, s: State, mid: nat, peer: Peer, hole: Hole, c: Call)
    requires InvBut(cfg, s, hole)
    ensures InvBut(cfg, StopPending(s, mid, peer), hole)
    ensures Quiet(s.engine.tx, c) ==> Quiet(StopPending(s, mid, peer).engine.tx, c)
    ensures c in s.engine.exchanges && s.engine.exchanges[c].mid == mid && c.peer == peer ==>
              Quiet(StopPending(s, mid, peer).engine.tx, c)
  {
    hide Sizes, Owned, Rows, Packets, Bodies, Uploads, Lives, Credited, TxOk, Quiet;
    StopOk(s.engine, mid, peer, c);
  }

  lemma ReleaseKeeps(cfg: Config, s: State, rx: Slot, hole: Hole)
    requires InvBut(cfg, s, hole)
    requires forall c :: c in s.inbox ==> s.inbox[c].datagram != Some(rx)
    ensures InvBut(cfg, ReleasePacket(s, rx), hole)
  {
    hide Sizes, Owned, Rows, Bodies, Uploads, Lives, Credited;
  }

  /** Only cooldowns, observation records or expired retired rows differ. */
  ghost predicate SameButTimes(s: State, after: State) {
    && after.inbox == s.inbox && after.engine == s.engine
    && after.active.Keys == s.active.Keys
    && (forall c :: c in s.active ==>
          after.active[c] == s.active[c].(record := after.active[c].record, backoff := after.active[c].backoff))
    && after.retired.Keys <= s.retired.Keys
    && (forall t :: t in after.retired ==> after.retired[t] == s.retired[t])
  }

  lemma TimesKeep(cfg: Config, s: State, after: State, hole: Hole)
    requires InvBut(cfg, s, hole) && SameButTimes(s, after)
    ensures InvBut(cfg, after, hole)
  {
    hide Sizes, Rows, Uploads, Lives, Owned, Packets, Bodies, Credited;
    TimesSizes(cfg.calls, s, after);
    TimesRows(s, after);
    TimesLives(s, after);
  }

  lemma TimesSizes(calls: nat, s: State, after: State)
    requires SameButTimes(s, after)
    ensures Sizes(calls, s.active, s.retired) ==> Sizes(calls, after.active, after.retired)
    ensures Uploads(s.active, s.engine.uploads) ==> Uploads(after.active, after.engine.uploads)
  {
    Smaller(after.retired.Keys, s.retired.Keys);
    assert |after.active.Keys| == |s.active.Keys|;
  }

  lemma TimesRows(s: State, after: State)
    requires SameButTimes(s, after)
    ensures Rows(s.active, s.inbox, s.engine.exchanges.Keys, s.engine.observes, s.engine.uploads) ==>
              Rows(after.active, after.inbox, after.engine.exchanges.Keys, after.engine.observes, after.engine.uploads)
  {
    hide Uploading;
  }

  lemma TimesLives(s: State, after: State)
    requires SameButTimes(s, after)
    ensures Lives(s.active, s.retired) ==> Lives(after.active, after.retired)
  {
  }

  lemma ExpireTimes(s: State, now: nat)
    ensures SameButTimes(s, ExpireBackoffs(s, now))
  {
  }

  lemma BackoffTimes(s: State, c: Call, m: Message, now: nat)
    ensures SameButTimes(s, RecordBackoff(s, c, m, now))
  {
    hide ExpireBackoffs;
    ExpireTimes(s, now);
  }

  lemma ObservationTimes(s: State, c: Call, n: Observe.Notification)
    ensures SameButTimes(s, RecordObservation(s, c, n))
  {
    hide Observe.Recorded;
  }

  lemma TakeExchangeKeeps(cfg: Config, s: State, c: Call, hole: Hole)
    requires InvBut(cfg, s, hole) && Quiet(s.engine.tx, c)
    ensures InvBut(cfg, TakeExchange(s, c), hole)
  {
    hide Sizes, Packets, Bodies, Uploads, Lives, Credited, Uploading, TxOk, Quiet;
    TakenExchange(s.engine.exchanges, s.engine.tx, c);
  }

  lemma AcceptKeeps(cfg: Config, s: State, c: Call, header: Header, via: bool, room: bool, hole: Hole)
    requires InvBut(cfg, s, hole) && Answerable(s, c)
    ensures InvBut(cfg, AcceptObserve(s, c, header, via, room), hole)
  {
    hide Sizes, Packets, Bodies, Uploads, Lives, Credited, Uploading;
  }

  lemma DropUploadKeeps(cfg: Config, s: State, c: Call, hole: Hole)
    requires InvBut(cfg, s, hole)
    ensures InvBut(cfg, DropUpload(s, c), hole)
    ensures !Uploading(DropUpload(s, c).engine.uploads, c)
  {
    hide InvRest, TxOk, Uploading;
    DropUploadRest(cfg, s, c, hole);
    assert DropUpload(s, c).engine == s.engine.(uploads := DropUpload(s, c).engine.uploads);
  }

  lemma DropUploadRest(cfg: Config, s: State, c: Call, hole: Hole)
    requires InvRest(cfg, s, hole)
    ensures InvRest(cfg, DropUpload(s, c), hole)
    ensures !Uploading(DropUpload(s, c).engine.uploads, c)
  {
    hide Sizes, Owned, Packets, Bodies, Lives, Credited;
  }

  // Failing a call.

  lemma DropExchangeIs(e: Engine, c: Call, release: bool)
    ensures var after := DropExchange(e, c, release);
            && after == e.(exchanges := e.exchanges - {c}, tx := after.tx)
            && (OnePerEndpoint(e.tx) ==> OnePerEndpoint(after.tx))
  {
    assert c !in e.exchanges ==> e.exchanges - {c} == e.exchanges;
  }

  lemma ReleasedAmongBodies(bodies: seq<Option<Body>>, b: Slot, c: Call)
    requires BodyOf(bodies, b, c)
    ensures BodiesWithout(bodies[b := None], c) == BodiesWithout(bodies, c)
  {
  }

  /** The whole effect of `fail_call` when its outcome fits. */
  lemma FailEffect(cfg: Config, s: State, c: Call, failure: Failure, release: bool)
    requires c in s.inbox || |s.inbox| < cfg.calls
    requires c in s.inbox && s.inbox[c].body.Some? ==> BodyOf(s.engine.bodies, s.inbox[c].body.value, c)
    ensures var after := Fail(s, cfg, c, failure, release);
            && after.active == (if c in s.active then s.active[c := s.active[c].(due := 0, deadline := None)] else s.active)
            && after.retired == s.retired
            && after.inbox == s.inbox[c := Reply(true, Err(failure), None, None)]
            && after.engine.exchanges == s.engine.exchanges - {c}
            && after.engine.observes == s.engine.observes - {c}
            && after.engine.bindings == s.engine.bindings - {c}
            && after.engine.rx == (if c in s.inbox && s.inbox[c].datagram.Some? then s.engine.rx - {s.inbox[c].datagram.value}
                                   else s.engine.rx)
            && after.engine.bodies == BodiesWithout(s.engine.bodies, c)
            && after.engine.uploads == DropUpload(s, c).engine.uploads
            && after.engine.tx == DropExchange(s.engine, c, release).tx
  {
    hide Fail, DropUpload, DropExchange, DropDatagram, PutReply, DropBodies, Unbind, Disarm, BodiesWithout;
    var s1 := Detach(s, c, release);
    var s2 := DropDatagram(s1, c);
    var reply := Reply(true, Err(failure), None, None);
    var s3 := PutReply(s2, cfg, c, reply);
    DropExchangeIs(s.engine, c, release);
    DatagramIs(s1, c);
    if c in s.inbox {
      MapTwice(s.inbox, c, s.inbox[c].(datagram := None), reply);
    }
    PutIs(cfg, s2, c, reply);
    FailEnds(s3, c);
    FailParts(s, cfg, c, failure, release);
    SameUpload(s, s3, c);
  }

  lemma FailRestIs(cfg: Config, s: State, c: Call, failure: Failure, release: bool, hole: Hole)
    requires InvRest(cfg, s, hole) && c in s.active
    ensures var after := Fail(s, cfg, c, failure, release);
            && after.active == s.active[c := s.active[c].(due := 0, deadline := None)]
            && after.retired == s.retired
            && after.inbox == s.inbox[c := Reply(true, Err(failure), None, None)]
            && after.engine.exchanges == s.engine.exchanges - {c}
            && after.engine.observes == s.engine.observes - {c}
            && after.engine.bindings == s.engine.bindings - {c}
            && after.engine.rx == (if c in s.inbox && s.inbox[c].datagram.Some? then s.engine.rx - {s.inbox[c].datagram.value}
                                   else s.engine.rx)
            && after.engine.bodies == BodiesWithout(s.engine.bodies, c)
            && after.engine.uploads == DropUpload(s, c).engine.uploads
            && after.engine.tx == DropExchange(s.engine, c, release).tx
  {
    hide InvRest, Fail, DropUpload, DropExchange, BodiesWithout;
    PutFitsRest(cfg, s, c, hole);
    FailEffect(cfg, s, c, failure, release);
  }

  /** The whole effect of `fail_call` on an active call. */
  lemma FailIs(cfg: Config, s: State, c: Call, failure: Failure, release: bool, hole: Hole)
    requires InvBut(cfg, s, hole) && c in s.active
    ensures var after := Fail(s, cfg, c, failure, release);
            && after.active == s.active[c := s.active[c].(due := 0, deadline := None)]
            && after.retired == s.retired
            && after.inbox == s.inbox[c := Reply(true, Err(failure), None, None)]
            && after.engine.exchanges == s.engine.exchanges - {c}
            && after.engine.observes == s.engine.observes - {c}
            && after.engine.bindings == s.engine.bindings - {c}
            && after.engine.rx == (if c in s.inbox && s.inbox[c].datagram.Some? then s.engine.rx - {s.inbox[c].datagram.value}
                                   else s.engine.rx)
            && after.engine.bodies == BodiesWithout(s.engine.bodies, c)
            && after.engine.uploads == DropUpload(s, c).engine.uploads
            && after.engine.tx == DropExchange(s.engine, c, release).tx
  {
    hide InvRest, TxOk, Fail, DropUpload, DropExchange, BodiesWithout;
    FailRestIs(cfg, s, c, failure, release, hole);
  }

  lemma FailParts(s: State, cfg: Config, c: Call, failure: Failure, release: bool)
    ensures Fail(s, cfg, c, failure, release)
         == Disarm(Unbind(DropUpload(DropBodies(
              PutReply(DropDatagram(Detach(s, c, release), c), cfg, c, Reply(true, Err(failure), None, None)), c), c), c), c)
  {
    hide PutReply, DropDatagram, Detach, DropBodies, DropUpload, Unbind, Disarm;
  }

  lemma DatagramIs(s: State, c: Call)
    ensures var after := DropDatagram(s, c);
            && after == State(s.active, s.retired, after.inbox, s.engine.(rx := after.engine.rx))
            && after.engine.rx == (if c in s.inbox && s.inbox[c].datagram.Some? then s.engine.rx - {s.inbox[c].datagram.value}
                                   else s.engine.rx)
            && after.inbox == if c in s.inbox then s.inbox[c := s.inbox[c].(datagram := None)] else s.inbox
  {
    if c in s.inbox && s.inbox[c].datagram.None? {
      assert s.inbox[c := s.inbox[c].(datagram := None)] == s.inbox;
    }
  }

  /** There is a row for the call, or room for one; and its old body, if any, is its own. */
  lemma PutFits(cfg: Config, s: State, c: Call, hole: Hole)
    requires InvBut(cfg, s, hole) && c in s.active
    ensures c in s.inbox || |s.inbox| < cfg.calls
    ensures c in s.inbox && s.inbox[c].body.Some? ==> BodyOf(s.engine.bodies, s.inbox[c].body.value, c)
  {
    hide InvRest, TxOk;
    PutFitsRest(cfg, s, c, hole);
  }

  lemma PutFitsRest(cfg: Config, s: State, c: Call, hole: Hole)
    requires InvRest(cfg, s, hole) && c in s.active
    ensures c in s.inbox || |s.inbox| < cfg.calls
    ensures c in s.inbox && s.inbox[c].body.Some? ==> BodyOf(s.engine.bodies, s.inbox[c].body.value, c)
  {
    if c !in s.inbox {
      RoomForReply(cfg, s, c, hole);
    } else if s.inbox[c].body.Some? {
      assert Holds(s.inbox, c, s.inbox[c].body.value);
    }
  }

  lemma PutIs(cfg: Config, s: State, c: Call, reply: Reply)
    requires c in s.inbox || |s.inbox| < cfg.calls
    requires c in s.inbox && s.inbox[c].body.Some? ==> BodyOf(s.engine.bodies, s.inbox[c].body.value, c)
    ensures var after := PutReply(s, cfg, c, reply);
            && after == State(s.active, s.retired, s.inbox[c := reply], s.engine.(bodies := after.engine.bodies))
            && BodiesWithout(after.engine.bodies, c) == BodiesWithout(s.engine.bodies, c)
            && after.engine.bodies == (if c in s.inbox && s.inbox[c].body.Some? && s.inbox[c].body != reply.body
                                       then s.engine.bodies[s.inbox[c].body.value := None] else s.engine.bodies)
  {
    if c in s.inbox && s.inbox[c].body.Some? {
      ReleasedAmongBodies(s.engine.bodies, s.inbox[c].body.value, c);
    }
  }

  lemma FailEnds(s: State, c: Call)
    ensures var after := Disarm(Unbind(DropUpload(DropBodies(s, c), c), c), c);
            && after.active == (if c in s.active then s.active[c := s.active[c].(due := 0, deadline := None)] else s.active)
            && after.retired == s.retired && after.inbox == s.inbox
            && after.engine == s.engine.(bodies := BodiesWithout(s.engine.bodies, c),
                                         uploads := DropUpload(s, c).engine.uploads,
                                         bindings := s.engine.bindings - {c})
  {
    hide BodiesWithout, LookupUpload;
  }

  lemma SameUpload(s: State, t: State, c: Call)
    requires t.active == s.active && t.engine.uploads == s.engine.uploads
    ensures DropUpload(t, c).engine.uploads == DropUpload(s, c).engine.uploads
  {
    hide LookupUpload;
  }

  /** Failing keeps the invariant, and closes a body the call had just been given. */
  lemma FailKeeps(cfg: Config, s: State, c: Call, failure: Failure, hole: Hole)
    requires InvBut(cfg, s, hole) && c in s.active && (hole.Some? ==> hole.value.0 == c)
    ensures Inv(cfg, Fail(s, cfg, c, failure, true)) && Quiet(Fail(s, cfg, c, failure, true).engine.tx, c)
  {
    hide InvRest, TxOk, Quiet, Fail, DropExchange, DropUpload, BodiesWithout;
    FailRest(cfg, s, c, failure, true, hole);
    FailRestIs(cfg, s, c, failure, true, hole);
    DropExchangeOk(s.engine, c);
  }

  /** All but the transmit slots is kept even when the packet is left for the caller to release. */
  lemma FailRest(cfg: Config, s: State, c: Call, failure: Failure, release: bool, hole: Hole)
    requires InvRest(cfg, s, hole) && c in s.active && (hole.Some? ==> hole.value.0 == c)
    ensures InvRest(cfg, Fail(s, cfg, c, failure, release), None)
  {
    hide Fail, Sizes, Owned, Rows, Packets, Bodies, Uploads, Lives, Credited, DropUpload, DropExchange;
    var after := Fail(s, cfg, c, failure, release);
    FailRestIs(cfg, s, c, failure, release, hole);
    DropUploadRest(cfg, s, c, hole);
    MapPut(s.inbox, c, after.inbox[c]);
    FailSizes(cfg.calls, s, after, c);
    FailRows(s, after, c, failure);
    FailOwned(s, after, c);
    FailSlots(cfg.full, s, after, c, failure, hole);
    FailUploads(s, after, c);
    FailCredits(cfg, s, after, c, failure);
  }

  lemma FailSizes(calls: nat, s: State, after: State, c: Call)
    requires c in s.active && after.active == s.active[c := s.active[c].(due := 0, deadline := None)] && after.retired == s.retired
    ensures after.active.Keys == s.active.Keys
    ensures Sizes(calls, s.active, s.retired) ==> Sizes(calls, after.active, after.retired)
    ensures Lives(s.active, s.retired) ==> Lives(after.active, after.retired)
  {
    assert after.active.Keys == s.active.Keys;
    assert |after.active.Keys| == |s.active.Keys|;
  }

  lemma FailRows(s: State, after: State, c: Call, failure: Failure)
    requires c in s.active && after.active == s.active[c := s.active[c].(due := 0, deadline := None)]
    requires after.inbox == s.inbox[c := Reply(true, Err(failure), None, None)]
    requires after.engine.exchanges == s.engine.exchanges - {c} && after.engine.observes == s.engine.observes - {c}
    requires after.engine.uploads == DropUpload(s, c).engine.uploads && !Uploading(after.engine.uploads, c)
    ensures Rows(s.active, s.inbox, s.engine.exchanges.Keys, s.engine.observes, s.engine.uploads) ==>
              Rows(after.active, after.inbox, after.engine.exchanges.Keys, after.engine.observes, after.engine.uploads)
  {
    hide Uploading, DropUpload;
    forall d | Uploading(after.engine.uploads, d)
      ensures Uploading(s.engine.uploads, d)
    {
      FewerUploads(s, c, d);
    }
  }

  lemma FailOwned(s: State, after: State, c: Call)
    requires c in s.active && after.active.Keys == s.active.Keys && after.inbox.Keys == s.inbox.Keys + {c}
    requires after.engine.exchanges == s.engine.exchanges - {c} && after.engine.observes == s.engine.observes - {c}
    requires after.engine.bindings == s.engine.bindings - {c}
    ensures Owned(s.active.Keys, s.inbox.Keys, s.engine.exchanges.Keys, s.engine.observes, s.engine.bindings) ==>
              Owned(after.active.Keys, after.inbox.Keys, after.engine.exchanges.Keys, after.engine.observes, after.engine.bindings)
  {
  }

  lemma FewerUploads(s: State, c: Call, d: Call)
    requires Uploading(DropUpload(s, c).engine.uploads, d)
    ensures Uploading(s.engine.uploads, d)
  {
  }

  lemma FailSlots(full: bool, s: State, after: State, c: Call, failure: Failure, hole: Hole)
    requires after.inbox == s.inbox[c := Reply(true, Err(failure), None, None)] && (hole.Some? ==> hole.value.0 == c)
    requires after.engine.rx == (if c in s.inbox && s.inbox[c].datagram.Some? then s.engine.rx - {s.inbox[c].datagram.value}
                                 else s.engine.rx)
    requires after.engine.bodies == BodiesWithout(s.engine.bodies, c)
    ensures Packets(full, s.inbox, s.engine.rx) ==> Packets(full, after.inbox, after.engine.rx)
    ensures Bodies(s.inbox, s.engine.bodies, hole) ==> Bodies(after.inbox, after.engine.bodies, None)
  {
    assert forall d, b: Slot :: Holds(after.inbox, d, b) <==> d != c && Holds(s.inbox, d, b);
    assert forall d, b: Slot :: BodyOf(after.engine.bodies, b, d) <==> d != c && BodyOf(s.engine.bodies, b, d);
  }

  lemma FailUploads(s: State, after: State, c: Call)
    requires c in s.active && after.active == s.active[c := s.active[c].(due := 0, deadline := None)]
    requires after.engine.uploads == DropUpload(s, c).engine.uploads
    ensures Uploads(s.active, s.engine.uploads) ==> Uploads(after.active, after.engine.uploads)
  {
  }

  lemma FailCredits(cfg: Config, s: State, after: State, c: Call, failure: Failure)
    requires c in s.active && after.active.Keys == s.active.Keys
    requires after.inbox == s.inbox[c := Reply(true, Err(failure), None, None)]
    ensures Credited(cfg, s.active.Keys, s.inbox) ==> Credited(cfg, after.active.Keys, after.inbox)
  {
    if Credited(cfg, s.active.Keys, s.inbox) {
      CreditsShrink(cfg, s.active.Keys, s.inbox, after.active.Keys, after.inbox);
    }
  }

  lemma AbandonKeeps(cfg: Config, s: State, c: Call, hole: Hole)
    requires InvBut(cfg, s, hole)
    ensures InvBut(cfg, Abandon(s, c), hole) && Quiet(Abandon(s, c).engine.tx, c)
  {
    hide Sizes, Packets, Bodies, Lives, Credited, TxOk, Quiet, TxWithout;
    AbandonOk(s.engine, c);
  }
}
