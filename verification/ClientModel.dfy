/**
 The client call lifecycle over abstract tables: active calls and untaken replies by call, retired
 cooldowns by target, and the engine. Every operation of the client is a function here.
 */
module ClientModel {
  import opened Common
  import opened Engines
  import Observe

  const RX_HEADROOM: nat := 1
  const DEFAULT_MAX_AGE_SECS: nat := 60
  const NON_LIFETIME_MS: nat := 145_000
  const EXCHANGE_LIFETIME_MS: nat := 247_000

  datatype Failure =
    | TimedOut | DeadlineExceeded | Cancelled | Reset | ReregistrationFailed | CancellationFailed
    | ContinuationFailed | ObserveFormatMismatch | PacketHeadroom | AssociationRevoked
    | ResponseBodyBounds | ResponseMetadataBounds | BlockTransfer(error: nat)

  datatype Registration = Off | Register | Deregister

  /** What a cooldown is about. */
  datatype Target = Target(peer: Peer, code: nat, path: seq<string>, queries: seq<string>)

  /** The canonical request: its target and, in `rest`, everything else that is compared. */
  datatype Identity = Identity(target: Target, rest: nat)

  /** An active call; a zero `due`, `pace` or `backoff` is a disarmed timer. */
  datatype Live = Live(
    target: Target, con: bool, tag: nat, observe: Registration, identity: Option<Identity>,
    record: Observe.Record, due: nat, deadline: Option<nat>, pace: nat, backoff: nat)

  /** A retired row: only the cooldown of its target is left. */
  datatype Cooling = Cooling(until: nat, call: Call)

  datatype Header = Header(observe: Option<nat>, success: bool)

  datatype Meta = Meta(header: Header, received: nat)

  datatype Reply = Reply(complete: bool, meta: Result<Meta, Failure>, body: Option<Slot>, datagram: Option<Slot>)

  /** Rows, receive packets, whether complete responses are retained, and whether OSCORE is in use. */
  datatype Config = Config(calls: nat, rxSlots: nat, full: bool, protected: bool)

  datatype State = State(
    active: map<Call, Live>, retired: map<Target, Cooling>, inbox: map<Call, Reply>, engine: Engine)

  // Replies.

  predicate Contains(s: State, c: Call) {
    c in s.inbox && s.inbox[c].complete
  }

  /** `take_datagram`, and the packet goes back. */
  function DropDatagram(s: State, c: Call): State {
    if c in s.inbox && s.inbox[c].datagram.Some? then
      s.(inbox := s.inbox[c := s.inbox[c].(datagram := None)], engine := ReleaseRx(s.engine, s.inbox[c].datagram.value))
    else s
  }

  /** `insert`, and a replaced body goes back; a full table of other calls refuses the reply and
      its body goes back instead. */
  function PutReply(s: State, cfg: Config, c: Call, reply: Reply): State {
    if c in s.inbox then
      var prev := s.inbox[c].body;
      s.(inbox := s.inbox[c := reply],
         engine := if prev.Some? && prev != reply.body then ReleaseBody(s.engine, prev.value) else s.engine)
    else if |s.inbox| < cfg.calls then s.(inbox := s.inbox[c := reply])
    else s.(engine := if reply.body.Some? then ReleaseBody(s.engine, reply.body.value) else s.engine)
  }

  function StoreReply(s: State, cfg: Config, c: Call, meta: Meta, body: Option<Slot>): State {
    PutReply(DropDatagram(s, c), cfg, c, Reply(true, Ok(meta), body, None))
  }

  // Failing a call.

  function TagOf(s: State, c: Call): nat {
    if c in s.active then s.active[c].tag else 0
  }

  function DropUpload(s: State, c: Call): State {
    var u := LookupUpload(s.engine.uploads, c, TagOf(s, c));
    if u.Some? then s.(engine := ReleaseUpload(s.engine, u.value)) else s
  }

  function Disarm(s: State, c: Call): State {
    if c in s.active then s.(active := s.active[c := s.active[c].(due := 0, deadline := None)]) else s
  }

  function Detach(s: State, c: Call, release: bool): State {
    var e := DropExchange(s.engine, c, release);
    s.(engine := e.(observes := e.observes - {c}))
  }

  function DropBodies(s: State, c: Call): State {
    s.(engine := s.engine.(bodies := BodiesWithout(s.engine.bodies, c)))
  }

  function Unbind(s: State, c: Call): State {
    s.(engine := s.engine.(bindings := s.engine.bindings - {c}))
  }

  /** `fail_call`. */
  function Fail(s: State, cfg: Config, c: Call, failure: Failure, release: bool): State {
    var failed := PutReply(DropDatagram(Detach(s, c, release), c), cfg, c, Reply(true, Err(failure), None, None));
    Disarm(Unbind(DropUpload(DropBodies(failed, c), c), c), c)
  }

  /** `revoke_association` for one row, active or retired: the call is failed and the row cleared. */
  function RevokeOne(s: State, cfg: Config, c: Call): State {
    var failed := Fail(s, cfg, c, AssociationRevoked, true);
    failed.(active := failed.active - {c}, retired := Uncooled(failed.retired, {c}))
  }

  /** The cooldowns not kept under these calls. */
  function Uncooled(retired: map<Target, Cooling>, calls: set<Call>): map<Target, Cooling> {
    map t | t in retired && retired[t].call !in calls :: retired[t]
  }

  /** `revoke_association`, over the calls whose rows it meets. */
  function Revoke(s: State, cfg: Config, calls: seq<Call>): State
    decreases |calls|
  {
    if calls == [] then s else Revoke(RevokeOne(s, cfg, calls[0]), cfg, calls[1..])
  }

  function Abandon(s: State, c: Call): State {
    s.(engine := AbandonSend(s.engine, c))
  }

  // Cooldowns and removal.

  function LivesAt(active: map<Call, Live>, now: nat): map<Call, Live> {
    map c | c in active :: if active[c].backoff <= now then active[c].(backoff := 0) else active[c]
  }

  function RetiredAt(retired: map<Target, Cooling>, now: nat): map<Target, Cooling> {
    map t | t in retired && retired[t].until > now :: retired[t]
  }

  /** `expire_backoffs`. */
  function ExpireBackoffs(s: State, now: nat): State {
    s.(active := LivesAt(s.active, now), retired := RetiredAt(s.retired, now))
  }

  /** `ClientLives::remove`: delete the row, merge its cooldown into a retired one, or retire it. */
  function Remove(s: State, c: Call): State {
    if c !in s.active then s
    else if s.active[c].backoff == 0 then s.(active := s.active - {c})
    else
      var t, until := s.active[c].target, s.active[c].backoff;
      var cooling := if t in s.retired then s.retired[t].(until := Max(s.retired[t].until, until)) else Cooling(until, c);
      s.(active := s.active - {c}, retired := s.retired[t := cooling])
  }

  // Inbound responses.

  datatype Code = Success | Valid | Continue | Incomplete | Overloaded | OtherCode

  datatype MaxAge = NoAge | Age(seconds: nat) | BadAge

  datatype Block = Plain | Block2(first: bool) | QBlock2(first: bool)

  datatype Message = Message(
    kind: Kind, mid: nat, code: Code, critical: bool, observe: Option<nat>, format: Observe.Format,
    missing: bool, maxAge: MaxAge, block: Block)

  /** The codes the client tells apart, by class and detail. */
  function CodeOf(family: nat, detail: nat): Code {
    if family == 2 then if detail == 3 then Valid else if detail == 31 then Continue else Success
    else if family == 4 && detail == 8 then Incomplete
    else if (family == 4 && detail == 29) || (family == 5 && detail == 3) then Overloaded
    else OtherCode
  }

  predicate IsSuccess(m: Message) {
    m.code.Success? || m.code.Valid? || m.code.Continue?
  }

  /** Success is class 2, whatever the detail; overload is 4.29 or 5.03. */
  lemma CodesRead(m: Message, family: nat, detail: nat)
    requires m.code == CodeOf(family, detail)
    ensures IsSuccess(m) <==> family == 2
    ensures m.code.Valid? <==> (family, detail) == (2, 3)
    ensures m.code.Continue? <==> (family, detail) == (2, 31)
    ensures m.code.Incomplete? <==> (family, detail) == (4, 8)
    ensures m.code.Overloaded? <==> (family, detail) in {(4, 29), (5, 3)}
  {
  }

  predicate Later(b: Block) {
    !b.Plain? && !b.first
  }

  /** `observation_start`, with what else ordering and format look at. */
  function Notice(m: Message, now: nat): Observe.Notification {
    Observe.Notification(if IsSuccess(m) && !Later(m.block) then m.observe else None, m.code.Valid?, m.format, now)
  }

  function HeaderOf(m: Message): Header {
    Header(m.observe, IsSuccess(m))
  }

  function RecordOf(s: State, c: Call): Observe.Record {
    if c in s.active then s.active[c].record else Observe.Record(None, None)
  }

  function RecordObservation(s: State, c: Call, n: Observe.Notification): State {
    if c in s.active then s.(active := s.active[c := s.active[c].(record := Observe.Recorded(s.active[c].record, n))]) else s
  }

  /** `record_backoff`. */
  function RecordBackoff(s: State, c: Call, m: Message, now: nat): State {
    if !m.code.Overloaded? || m.maxAge.BadAge? then s else
      var seconds := if m.maxAge.Age? then m.maxAge.seconds else DEFAULT_MAX_AGE_SECS;
      var s1 := ExpireBackoffs(s, now);
      if seconds == 0 || c !in s1.active then s1
      else s1.(active := s1.active[c := s1.active[c].(backoff := Max(s1.active[c].backoff, SatAdd(now, seconds * 1000)))])
  }

  /** `accept_client_observe`; `room` is whether the observe table can take a new interest. */
  function AcceptObserve(s: State, c: Call, header: Header, viaExchange: bool, room: bool): State {
    var without := s.(engine := s.engine.(observes := s.engine.observes - {c}));
    if c in s.active && s.active[c].observe.Deregister? then without else
      var subscribed := (c in s.active && s.active[c].observe.Register?) || c in s.engine.observes;
      if subscribed && header.observe.Some? && header.success then
        if room then s.(engine := s.engine.(observes := s.engine.observes + {c})) else s
      else if viaExchange || subscribed then without
      else s
  }

  function TakeExchange(s: State, c: Call): State {
    s.(engine := s.engine.(exchanges := s.engine.exchanges - {c}))
  }

  /** An acknowledged packet: its mark is taken and its slot released. */
  function StopPending(s: State, mid: nat, peer: Peer): State {
    var (e, slot) := TakePending(s.engine, mid, peer);
    s.(engine := if slot.Some? then ReleaseTx(e, slot.value) else e)
  }

  /** A follow-up request: its exchange, the timer of the confirmable that stays pending, and the
      upload it may have started. */
  datatype Followup = NotSent | Sent(exchange: Option<Exchange>, timer: Option<Rto>, upload: Option<Slot>)

  /** A sent confirmable stays in the free slot its exchange names, within the endpoint limit. */
  function PlacePacket(tx: seq<Option<Packet>>, c: Call, x: Exchange, timer: Option<Rto>): seq<Option<Packet>> {
    if timer.Some? && timer.value.started && x.tx < |tx| && tx[x.tx].None? && !Outstanding(tx, c.peer)
    then tx[x.tx := Some(Packet(c.peer, c.token, true, Some(Pending(x.mid, timer.value))))] else tx
  }

  predicate Uploading(uploads: seq<Option<Upload>>, c: Call) {
    exists u :: 0 <= u < |uploads| && uploads[u].Some? && uploads[u].value.call == c
  }

  /** An upload goes into a free slot of a call that has none. */
  function PlaceUpload(uploads: seq<Option<Upload>>, slot: Option<Slot>, c: Call, tag: nat): seq<Option<Upload>> {
    if slot.Some? && slot.value < |uploads| && uploads[slot.value].None? && !Uploading(uploads, c)
    then uploads[slot.value := Some(Upload(c, tag))] else uploads
  }

  function SendFollowup(s: State, cfg: Config, c: Call, f: Followup): State {
    match f
    case NotSent => Fail(Abandon(s, c), cfg, c, ContinuationFailed, true)
    case Sent(exchange, timer, upload) =>
      var e := s.engine;
      s.(engine := e.(
        exchanges := if exchange.Some? then e.exchanges[c := exchange.value] else e.exchanges - {c},
        tx := if exchange.Some? then PlacePacket(e.tx, c, exchange.value, timer) else e.tx,
        uploads := PlaceUpload(e.uploads, upload, c, TagOf(s, c))))
  }

  /** What applying a block to the assembly reports. */
  datatype Apply = Progress(slot: Slot, complete: bool) | Ignored | Broken(error: nat)

  /** The outcomes of everything outside the client during one delivery: the ACK sent, the response
      state committed, the header retained, the body, the follow-up. */
  datatype Env = Env(
    ackSent: bool, committed: bool, meta: Option<Failure>, qUpload: bool,
    apply: Apply, tooLarge: bool, pull: bool, followup: Followup, room: bool)

  function ReleasePacket(s: State, rx: Slot): State {
    s.(engine := ReleaseRx(s.engine, rx))
  }

  /** `complete_client`, up to the response being taken as an answer. */
  function Complete(s: State, cfg: Config, now: nat, c: Call, rx: Slot, m: Message, env: Env): State {
    var viaExchange := MatchesExchange(s.engine, c, m.kind, m.mid);
    var n := Notice(m, now);
    var acked := if m.kind.Ack? && viaExchange then StopPending(s, s.engine.exchanges[c].mid, c.peer) else s;
    if !viaExchange && !MatchesObserve(s.engine, c, m.kind) then ReleasePacket(s, rx)
    else if m.critical then ReleasePacket(acked, rx)
    else if !Observe.Admissible(RecordOf(s, c), n, cfg.protected) then
      ReleasePacket(Fail(s, cfg, c, ObserveFormatMismatch, true), rx)
    else if m.kind.Con? && !env.ackSent then ReleasePacket(s, rx)
    else if !env.committed then ReleasePacket(s, rx)
    else if !cfg.protected && !Observe.RecordFresh(RecordOf(s, c), n) then ReleasePacket(acked, rx)
    else
      var stopped := if viaExchange then StopPending(acked, s.engine.exchanges[c].mid, c.peer) else acked;
      Answer(StopPending(stopped, m.mid, c.peer), cfg, now, c, rx, m, env, viaExchange)
  }

  /** The response is the call's and is taken as an answer: `Complete` gets as far as `Answer`. */
  predicate Accepts(s: State, cfg: Config, now: nat, c: Call, m: Message, env: Env) {
    && (MatchesExchange(s.engine, c, m.kind, m.mid) || MatchesObserve(s.engine, c, m.kind))
    && !m.critical && Observe.Accepted(RecordOf(s, c), Notice(m, now), cfg.protected)
    && (m.kind.Con? ==> env.ackSent) && env.committed
  }

  predicate Held(s: State, rx: Slot) {
    exists c :: c in s.inbox && s.inbox[c].datagram == Some(rx)
  }

  /** `Continuation::drop` while armed: a call still in the table is abandoned and failed, and a packet
      no row holds goes back. */
  function DropContinuation(s: State, cfg: Config, call: Option<Call>, rx: Option<Slot>): State {
    var ended := if call.Some? && call.value in s.active
                 then Fail(Abandon(s, call.value), cfg, call.value, ContinuationFailed, true) else s;
    if rx.Some? && !Held(ended, rx.value) then ReleasePacket(ended, rx.value) else ended
  }

  /** The response is the call's and has the wrong format. */
  predicate Refuses(s: State, cfg: Config, now: nat, c: Call, m: Message) {
    && (MatchesExchange(s.engine, c, m.kind, m.mid) || MatchesObserve(s.engine, c, m.kind))
    && !m.critical && !Observe.Admissible(RecordOf(s, c), Notice(m, now), cfg.protected)
  }

  /** A delivery whose future is dropped at the ACK or Reset it sends, or whose send `failed` in
      doubt: the `Continuation` ends the call. A Reset for a bad format that fails is told only
      after the call has failed for that. */
  function Interrupt(s: State, cfg: Config, now: nat, c: Call, rx: Slot, m: Message, failed: bool): State {
    var at := if failed && Refuses(s, cfg, now, c, m) then Fail(s, cfg, c, ObserveFormatMismatch, true) else s;
    DropContinuation(at, cfg, Some(c), Some(rx))
  }

  /** The response only carries an upload on: it asks for more, or for missing blocks. */
  predicate CarriesOn(s: State, c: Call, m: Message, env: Env) {
    && LookupUpload(s.engine.uploads, c, TagOf(s, c)).Some?
    && ((env.qUpload && m.code.Incomplete? && m.missing && c in s.active && !s.active[c].con) || m.code.Continue?)
  }

  /** An upload in progress either continues or is over. */
  function Answer(s: State, cfg: Config, now: nat, c: Call, rx: Slot, m: Message, env: Env, via: bool): State {
    if CarriesOn(s, c, m, env) then ReleasePacket(SendFollowup(s, cfg, c, env.followup), rx)
    else Digest(DropUpload(s, c), cfg, now, c, rx, m, env, via)
  }

  /** Header, cooldown, then the body or the packet. */
  function Digest(s: State, cfg: Config, now: nat, c: Call, rx: Slot, m: Message, env: Env, via: bool): State {
    if env.meta.Some? then ReleasePacket(Fail(s, cfg, c, env.meta.value, true), rx) else
      var s1 := RecordBackoff(s, c, m, now);
      if !m.code.Overloaded? && !m.block.Plain? then Assemble(s1, cfg, now, c, rx, m, env, via)
      else Keep(s1, cfg, now, c, rx, m, env, via)
  }

  /** The slot an assembly can be in: this call's own, or a free one. */
  predicate Assembles(bodies: seq<Option<Body>>, slot: Slot, c: Call) {
    slot < |bodies| && (bodies[slot].Some? ==> bodies[slot].value.call == c)
  }

  function Admitted(s: State, c: Call, slot: Slot, q: bool): State
    requires slot < |s.engine.bodies|
  {
    s.(engine := s.engine.(bodies := s.engine.bodies[slot := Some(Body(c, q))]))
  }

  /** `retain_partial`: the first fragment's header stays. */
  function RetainPartial(s: State, cfg: Config, c: Call, meta: Meta, body: Slot): State {
    if c in s.inbox && !s.inbox[c].complete && s.inbox[c].body == Some(body) && s.inbox[c].meta.Ok? then s
    else PutReply(s, cfg, c, Reply(false, Ok(meta), Some(body), None))
  }

  function Assemble(s: State, cfg: Config, now: nat, c: Call, rx: Slot, m: Message, env: Env, via: bool): State {
    match env.apply
    case Ignored => ReleasePacket(s, rx)
    case Broken(error) => ReleasePacket(Fail(s, cfg, c, BlockTransfer(error), true), rx)
    case Progress(slot, complete) =>
      if !Assembles(s.engine.bodies, slot, c) then ReleasePacket(s, rx) else
      var s1 := RecordObservation(Admitted(s, c, slot, m.block.QBlock2?), c, Notice(m, now));
      var meta := Meta(HeaderOf(m), now);
      if complete then ReleasePacket(Finish(s1, cfg, c, slot, meta, env, via), rx)
      else
        var s2 := RetainPartial(DropDatagram(s1, c), cfg, c, meta, slot);
        if c !in s2.inbox then ReleasePacket(s2, rx)
        else if m.block.QBlock2? && (m.kind.Con? || !env.pull) then ReleasePacket(s2, rx)
        else ReleasePacket(SendFollowup(TakeExchange(s2, c), cfg, c, env.followup), rx)
  }

  /** `finish_assembled`. */
  function Finish(s: State, cfg: Config, c: Call, body: Slot, meta: Meta, env: Env, via: bool): State {
    if !cfg.full && env.tooLarge then Fail(s, cfg, c, ResponseBodyBounds, true) else
      var kept := c in s.inbox && !s.inbox[c].complete && s.inbox[c].body == Some(body) && s.inbox[c].meta.Ok?;
      var first := if kept then s.inbox[c].meta.value else meta;
      StoreReply(TakeExchange(AcceptObserve(s, c, first.header, via, env.room), c), cfg, c, first, Some(body))
  }

  /** A response in one packet, retained whole when the application asked for that. */
  function Keep(s: State, cfg: Config, now: nat, c: Call, rx: Slot, m: Message, env: Env, via: bool): State {
    var replacing := c in s.inbox && s.inbox[c].datagram.Some?;
    if cfg.full && !replacing && SatSub(cfg.rxSlots, |s.engine.rx|) < RX_HEADROOM then
      ReleasePacket(Fail(s, cfg, c, PacketHeadroom, true), rx)
    else
      var s1 := TakeExchange(AcceptObserve(RecordObservation(s, c, Notice(m, now)), c, HeaderOf(m), via, env.room), c);
      var s2 := StoreReply(s1, cfg, c, Meta(HeaderOf(m), now), None);
      if cfg.full && c in s2.inbox then s2.(inbox := s2.inbox[c := s2.inbox[c].(datagram := Some(rx))])
      else ReleasePacket(s2, rx)
  }

  // Collecting, cancelling, expiring.

  /** The row leaves the inbox and its packet and body go back; unless a subscription is still
      live, the call leaves the live table too. */
  function Collect(s: State, c: Call): State
    requires Contains(s, c)
  {
    var r := s.inbox[c];
    var s1 := s.(inbox := s.inbox - {c}, engine := ReleaseAny(s.engine, r.datagram, r.body));
    if c in s.engine.observes then s1 else Unbind(Remove(s1, c), c)
  }

  /** `take_response`: what was stored, exactly when something complete was; a body beyond the
      application's hold is reported as such. */
  function Take(s: State, c: Call, tooLarge: bool): (State, Option<Result<Meta, Failure>>) {
    if Contains(s, c) then
      (Collect(s, c), Some(if s.inbox[c].body.Some? && tooLarge then Err(ResponseBodyBounds) else s.inbox[c].meta))
    else (DropDatagram(s, c), None)
  }

  /** `take_response_into`: a buffer that is too small, or bytes no longer there, leave everything. */
  function TakeInto(s: State, c: Call, fits: bool): (State, Option<Result<Meta, Failure>>) {
    if Contains(s, c) && (fits || s.inbox[c].meta.Err?) then (Collect(s, c), Some(s.inbox[c].meta)) else (s, None)
  }

  predicate Cancellable(s: State, c: Call) {
    c in s.active && !(Contains(s, c) && c !in s.engine.observes)
  }

  function Cancel(s: State, cfg: Config, c: Call): State {
    if Cancellable(s, c) then Fail(s, cfg, c, Cancelled, true) else s
  }

  /** A timer of this call may still end it. */
  predicate Waiting(s: State, c: Call) {
    c in s.active && (!Contains(s, c) || c in s.engine.observes)
  }

  function DueFailure(s: State, c: Call, now: nat): Option<Failure> {
    if !Waiting(s, c) then None
    else if s.active[c].deadline.Some? && now >= s.active[c].deadline.value then Some(DeadlineExceeded)
    else if s.active[c].due != 0 && now >= s.active[c].due && c in s.engine.exchanges then Some(TimedOut)
    else None
  }

  /** The failures decided before any of them is carried out, in row order. */
  function FailDue(s: State, cfg: Config, due: seq<(Call, Failure)>): State
    decreases |due|
  {
    if due == [] then s else FailDue(Fail(s, cfg, due[0].0, due[0].1, true), cfg, due[1..])
  }

  /** `due` lists exactly the calls that are due, each once, with its failure. */
  ghost predicate ListsDue(s: State, now: nat, due: seq<(Call, Failure)>) {
    && (forall i :: 0 <= i < |due| ==> DueFailure(s, due[i].0, now) == Some(due[i].1))
    && (forall i, j :: 0 <= i < j < |due| ==> due[i].0 != due[j].0)
    && (forall c :: DueFailure(s, c, now).Some? ==> exists i :: 0 <= i < |due| && due[i].0 == c)
  }

  /** `expire_client_exchanges`. */
  function Expire(s: State, cfg: Config, now: nat, due: seq<(Call, Failure)>): State {
    FailDue(ExpireBackoffs(s, now), cfg, due)
  }

  // Admission.

  /** Credits: calls that may still be answered by a retained packet. */
  function CreditCalls(active: set<Call>, inbox: map<Call, Reply>): set<Call> {
    set c | c in active && !(c in inbox && inbox[c].complete && inbox[c].meta.Err?)
  }

  /** Replies retained for calls no longer active. */
  function OrphanReplies(active: set<Call>, inbox: map<Call, Reply>): set<Call> {
    set c | c in inbox && inbox[c].meta.Ok? && c !in active
  }

  /** `response_credits`. */
  function Credits(s: State): nat {
    |CreditCalls(s.active.Keys, s.inbox)| + |OrphanReplies(s.active.Keys, s.inbox)|
  }

  /** The cooldown that holds back a target: the longest of the rows that carry one. */
  ghost predicate Cools(s: State, t: Target, until: nat) {
    || (exists c :: c in s.active && s.active[c].target == t && s.active[c].backoff == until != 0)
    || (t in s.retired && s.retired[t].until == until)
  }

  /** What an accepted request leaves in the engine: its exchange, the timer of the confirmable that
      stays pending, an upload, a security binding. */
  datatype Sending = Sending(exchange: Exchange, timer: Option<Rto>, upload: Option<Slot>, bound: bool)

  /** The earlier of the deadlines given. */
  function EarlierOf(a: Option<nat>, b: Option<nat>): (d: Option<nat>)
    ensures NoLater(d, a) && NoLater(d, b) && (d == a || d == b)
  {
    if a.None? then b else if b.None? then a else Some(Min(a.value, b.value))
  }

  /** A deadline that leaves no more time than the other; none leaves all the time there is. */
  predicate NoLater(d: Option<nat>, other: Option<nat>) {
    other.Some? ==> d.Some? && d.value <= other.value
  }

  /** When an unanswered request is given up, counted from its commitment. */
  function Lifetime(live: Live, now: nat): (due: nat)
    ensures due != 0
  {
    SatAdd(now, if live.con then EXCHANGE_LIFETIME_MS else NON_LIFETIME_MS)
  }

  function Launch(s: State, c: Call, live: Live, x: Sending): State {
    var e := s.engine;
    State(s.active[c := live], s.retired, s.inbox - {c}, e.(
      exchanges := e.exchanges[c := x.exchange],
      tx := PlacePacket(e.tx, c, x.exchange, x.timer),
      uploads := PlaceUpload(e.uploads, x.upload, c, live.tag),
      bindings := if x.bound then e.bindings + {c} else e.bindings))
  }

  /** A new call is prepared, sent and committed. */
  function Admit(s: State, now: nat, c: Call, live: Live, x: Sending): State {
    Launch(ExpireBackoffs(s, now), c, live, x)
  }

  /** A replaced subscription: the old request is abandoned and recorded as failed. */
  function Displace(s: State, cfg: Config, now: nat, c: Call, refreshing: bool): State {
    Fail(Abandon(ExpireBackoffs(s, now), c), cfg, c,
         if refreshing then ReregistrationFailed else CancellationFailed, true)
  }

  /** The replacement is sent and committed: the recorded failure is discarded. */
  function Replace(s: State, cfg: Config, now: nat, c: Call, live: Live, x: Sending): State {
    Launch(DropDatagram(Displace(s, cfg, now, c, live.observe.Register?), c), c, live, x)
  }
}
