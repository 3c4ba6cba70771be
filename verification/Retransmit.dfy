/**
 Deadline-bounded sends and retransmission: a packet that may have been accepted by the transport is
 never sent again as the same attempt.
 */
module Retransmit {
  import opened Common
  import opened Engines
  import opened ClientModel
  import opened LiveTable
  import opened ReplyTable
  import opened Clients
  import Authority
  import ClientInvariant

  datatype AsyncIoError =
    | Deadline | Transport | ClockBeforeSend | ClockAfterSend | ClockRegressedBeforeSend | ClockRegressedAfterSend

  /** How the race between the timer and the transport ended. */
  datatype Race = TimedOut | Refused | Accepted

  /** What the clock, the timer and the transport will do for one send. */
  datatype Weather = Weather(before: Option<nat>, race: Race, after: Option<nat>)

  /** `ProtocolTransport::send`, with the completion time on success. */
  function Outcome(completed: nat, deadline: nat, w: Weather): Result<nat, AsyncIoError> {
    if w.before.None? then Err(ClockBeforeSend)
    else if w.before.value < completed then Err(ClockRegressedBeforeSend)
    else if w.before.value >= deadline then Err(Deadline)
    else match w.race
      case TimedOut => Err(Deadline)
      case Refused => Err(Transport)
      case Accepted =>
        if w.after.None? then Err(ClockAfterSend)
        else if w.after.value < w.before.value then Err(ClockRegressedAfterSend)
        else Ok(w.after.value)
  }

  /** The transport took the packet, whatever happened next. */
  predicate Reached(completed: nat, deadline: nat, w: Weather) {
    w.before.Some? && completed <= w.before.value < deadline && w.race.Accepted?
  }

  /** `refused_before_send`. */
  predicate RefusedBeforeSend(error: AsyncIoError) {
    error.Deadline? || error.ClockBeforeSend? || error.ClockRegressedBeforeSend?
  }

  /** `failed_after_acceptance`. */
  predicate FailedAfterAcceptance(error: AsyncIoError) {
    error.ClockAfterSend? || error.ClockRegressedAfterSend?
  }

  /** The classifiers are right: success and the after-acceptance errors are exactly the sends the
      transport took, and a refusal before send is never one of them. */
  lemma ClassifiersExact(completed: nat, deadline: nat, w: Weather)
    ensures var r := Outcome(completed, deadline, w);
            && (Reached(completed, deadline, w) <==> r.Ok? || FailedAfterAcceptance(r.error))
            && (r.Err? && RefusedBeforeSend(r.error) ==> !Reached(completed, deadline, w))
            && (r.Err? && !RefusedBeforeSend(r.error) && !FailedAfterAcceptance(r.error) ==> w.race.Refused?)
  {
  }

  /** Which error says what. */
  lemma ErrorsExact(completed: nat, deadline: nat, w: Weather)
    ensures var r := Outcome(completed, deadline, w);
            var started := w.before.Some? && completed <= w.before.value < deadline;
            && (r == Err(ClockBeforeSend) <==> w.before.None?)
            && (r == Err(ClockRegressedBeforeSend) <==> w.before.Some? && w.before.value < completed)
            && (r == Err(Deadline) <==> (w.before.Some? && w.before.value >= completed && w.before.value >= deadline)
                                        || (started && w.race.TimedOut?))
            && (r == Err(Transport) <==> started && w.race.Refused?)
            && (r == Err(ClockAfterSend) <==> started && w.race.Accepted? && w.after.None?)
            && (r == Err(ClockRegressedAfterSend) <==>
                  started && w.race.Accepted? && w.after.Some? && w.after.value < w.before.value)
            && (r.Ok? <==> started && w.race.Accepted? && w.after.Some? && w.after.value >= w.before.value)
            && (r.Ok? ==> r.value == w.after.value)
  {
  }

  class ProtocolTransport {
    var deadline: nat
    var completed: nat

    constructor (limit: nat, start: nat)
      ensures deadline == limit && completed == start
    {
      deadline, completed := limit, start;
    }

    method Send(w: Weather) returns (r: Result<nat, AsyncIoError>)
      modifies this`completed
      ensures r == Outcome(old(completed), deadline, w)
      ensures completed == if r.Ok? then r.value else old(completed)
      ensures old(completed) <= completed
    {
      if w.before.None? { return Err(ClockBeforeSend); }
      var now := w.before.value;
      if now < completed { return Err(ClockRegressedBeforeSend); }
      if now >= deadline { return Err(Deadline); }
      match w.race {
        case TimedOut => return Err(Deadline);
        case Refused => return Err(Transport);
        case Accepted =>
      }
      if w.after.None? { return Err(ClockAfterSend); }
      if w.after.value < now { return Err(ClockRegressedAfterSend); }
      completed := w.after.value;
      return Ok(completed);
    }

    method LimitDeadline(due: nat)
      modifies this`deadline
      ensures deadline == Min(old(deadline), due)
    {
      deadline := Min(deadline, due);
    }
  }

  // A pass of sends under one transport.

  /** One send, under the deadline in force at that time. */
  datatype Sent = Sent(deadline: nat, weather: Weather)

  function CompletedAfter(start: nat, sends: seq<Sent>): nat
    decreases |sends|
  {
    if sends == [] then start else
      var before := CompletedAfter(start, sends[..|sends| - 1]);
      var r := Outcome(before, sends[|sends| - 1].deadline, sends[|sends| - 1].weather);
      if r.Ok? then r.value else before
  }

  lemma CompletedNext(start: nat, sends: seq<Sent>, i: nat)
    requires i < |sends|
    ensures var r := Outcome(CompletedAfter(start, sends[..i]), sends[i].deadline, sends[i].weather);
            CompletedAfter(start, sends[..i + 1]) == if r.Ok? then r.value else CompletedAfter(start, sends[..i])
  {
    hide Outcome;
    var next := sends[..i + 1];
    assert next[..|next| - 1] == sends[..i] && next[|next| - 1] == sends[i];
  }

  lemma {:induction false} CompletedGrows(start: nat, sends: seq<Sent>, i: nat, j: nat)
    requires i <= j <= |sends|
    ensures CompletedAfter(start, sends[..i]) <= CompletedAfter(start, sends[..j])
    decreases j - i
  {
    if i < j {
      hide CompletedAfter;
      CompletedGrows(start, sends, i, j - 1);
      CompletedNext(start, sends, j - 1);
    }
  }

  /** Over any clock, timer and transport, completion times are nondecreasing and every success was
      started before its deadline, no earlier than the success before it. */
  lemma CompletionsOrdered(start: nat, sends: seq<Sent>, i: nat, j: nat)
    requires i < j < |sends|
    requires Outcome(CompletedAfter(start, sends[..i]), sends[i].deadline, sends[i].weather).Ok?
    requires Outcome(CompletedAfter(start, sends[..j]), sends[j].deadline, sends[j].weather).Ok?
    ensures var first := Outcome(CompletedAfter(start, sends[..i]), sends[i].deadline, sends[i].weather).value;
            var second := Outcome(CompletedAfter(start, sends[..j]), sends[j].deadline, sends[j].weather).value;
            && first <= sends[j].weather.before.value <= second
            && sends[i].weather.before.value < sends[i].deadline && sends[j].weather.before.value < sends[j].deadline
  {
    hide CompletedAfter;
    CompletedNext(start, sends, i);
    CompletedGrows(start, sends, i + 1, j);
  }

  // Retransmission.

  predicate IsDue(rto: Rto, now: nat) {
    rto.started && now >= rto.next
  }

  /** `next_attempt`: twice the timeout, one more attempt, or no more. */
  function NextAttempt(rto: Rto, now: nat): Option<Rto> {
    if !rto.started || rto.attempts >= MAX_RETRANSMIT then None
    else Some(Rto(rto.attempts + 1, true, SatAdd(now, SatMul2(rto.timeout)), SatMul2(rto.timeout)))
  }

  /** `saturating_mul(2)` on 32 bits. */
  function SatMul2(n: nat): nat {
    Min(2 * n, 0xFFFF_FFFF)
  }

  /** `commit_retransmit`: only the exact pending mark, and only when due. */
  function CommitRetransmit(e: Engine, tx: Slot, endpoint: Peer, expected: Pending, now: nat): (Engine, bool) {
    if PendingAt(e, tx) != Some(expected) || e.tx[tx].value.endpoint != endpoint || !IsDue(expected.rto, now) then (e, false)
    else
      var next := NextAttempt(expected.rto, now);
      var mark := if next.None? then None else Some(Pending(expected.mid, next.value));
      (e.(tx := e.tx[tx := Some(e.tx[tx].value.(pending := mark))]), true)
  }

  datatype Progress = Done | NotPending | RefusedSend | FailedSend

  function TimerAt(e: Engine, tx: Slot): Option<Rto> {
    var p := PendingAt(e, tx);
    if p.None? then None else Some(p.value.rto)
  }

  /** `fail_pending_client`: whichever exchange the table finds for the slot. */
  method FailPending(client: Client, tx: Slot, failure: Failure, order: seq<Call>)
    requires client.Valid()
    modifies client`engine, client.lives, client.inbox
    ensures client.Valid()
    ensures var c := Authority.ForTx(order, old(client.engine), tx);
            client.S() == if c.Some? then Fail(old(client.S()), client.cfg, c.value, failure, false) else old(client.S())
  {
    hide LiveTable.Views, ReplyTable.Views, OnePerEndpoint, Fail;
    var c := Authority.ForTx(order, client.engine, tx);
    if c.Some? {
      client.FailCall(c.value, failure, false);
    }
  }

  lemma FailLeavesTx(s: State, cfg: Config, c: Call, failure: Failure)
    ensures Fail(s, cfg, c, failure, false).engine.tx == s.engine.tx
  {
    hide Fail, PutReply, DropDatagram, Detach, DropBodies, DropUpload, Unbind, Disarm;
    ClientInvariant.FailParts(s, cfg, c, failure, false);
    var reply := Reply(true, Err(failure), None, None);
    var s1 := Detach(s, c, false);
    var s2 := DropDatagram(s1, c);
    var s3 := PutReply(s2, cfg, c, reply);
    var s4 := DropBodies(s3, c);
    var s5 := DropUpload(s4, c);
    DetachLeavesTx(s, c);
    RowsLeaveTx(s1, cfg, c, reply);
    RowsLeaveTx(s2, cfg, c, reply);
    RowsLeaveTx(s3, cfg, c, reply);
    RowsLeaveTx(s4, cfg, c, reply);
    RowsLeaveTx(s5, cfg, c, reply);
    RowsLeaveTx(Unbind(s5, c), cfg, c, reply);
  }

  lemma DetachLeavesTx(s: State, c: Call)
    ensures Detach(s, c, false).engine.tx == s.engine.tx
  {
  }

  lemma RowsLeaveTx(s: State, cfg: Config, c: Call, reply: Reply)
    ensures DropDatagram(s, c).engine.tx == s.engine.tx && PutReply(s, cfg, c, reply).engine.tx == s.engine.tx
    ensures DropBodies(s, c).engine.tx == s.engine.tx && DropUpload(s, c).engine.tx == s.engine.tx
    ensures Unbind(s, c).engine.tx == s.engine.tx && Disarm(s, c).engine.tx == s.engine.tx
  {
    hide LookupUpload, BodiesWithout;
  }

  /** `send_retransmit_packet_async`: the pending mark is left as it was only when the transport
      never took the packet; otherwise the attempt is counted once, or the slot is retired. */
  method SendRetransmit(client: Client, transport: ProtocolTransport, tx: Slot, w: Weather, order: seq<Call>)
    returns (r: Progress)
    requires client.Valid()
    modifies transport, client`engine, client.lives, client.inbox
    ensures client.Valid() && old(transport.completed) <= transport.completed
    ensures r.NotPending? <==> PendingAt(old(client.engine), tx).None?
    ensures r.NotPending? || r.RefusedSend? ==> client.S() == old(client.S())
    ensures r.RefusedSend? ==> !Reached(old(transport.completed), old(transport.deadline), w)
    ensures r.Done? ==>
              var was := PendingAt(old(client.engine), tx).value;
              && Reached(old(transport.completed), old(transport.deadline), w) && IsDue(was.rto, transport.completed)
              && client.engine == CommitRetransmit(old(client.engine), tx, old(client.engine).tx[tx].value.endpoint, was, transport.completed).0
              && PendingAt(client.engine, tx)
                 == (var next := NextAttempt(was.rto, transport.completed);
                     if next.None? then None else Some(Pending(was.mid, next.value)))
    ensures r.FailedSend? ==> tx < |old(client.engine).tx| && client.engine.tx == old(client.engine).tx[tx := None]
                              && client.S() == Authority.GiveUp(old(client.S()), client.cfg, order, tx, ContinuationFailed)
    ensures !r.NotPending? ==>
              var event := if r.RefusedSend? then NotAccepted else if r.FailedSend? then Uncertain else AcceptedAt(transport.completed);
              TimerAt(client.engine, tx) == Served(TimerAt(old(client.engine), tx), event)
  {
    hide LiveTable.Views, ReplyTable.Views, OnePerEndpoint, Fail, Outcome;
    var expected := PendingAt(client.engine, tx);
    if expected.None? { return NotPending; }
    ClassifiersExact(transport.completed, transport.deadline, w);
    var sent := transport.Send(w);
    if sent.Ok? {
      var endpoint := client.engine.tx[tx].value.endpoint;
      var (e, ok) := CommitRetransmit(client.engine, tx, endpoint, expected.value, transport.completed);
      if ok {
        AdvanceKeeps(client.engine, tx, endpoint, expected.value, transport.completed);
        client.engine := e;
        var next := PendingAt(client.engine, tx);
        if next.Some? && next.value.rto.started {
          transport.LimitDeadline(next.value.rto.next);
        }
        return Done;
      }
    } else if RefusedBeforeSend(sent.error) {
      return RefusedSend;
    }
    ghost var s := client.S();
    FailPending(client, tx, ContinuationFailed, order);
    ghost var c := Authority.ForTx(order, s.engine, tx);
    if c.Some? {
      FailLeavesTx(s, client.cfg, c.value, ContinuationFailed);
    }
    assert client.engine.tx == s.engine.tx;
    ReleaseKeeps(client.engine, tx);
    client.engine := ReleaseTx(client.engine, tx);
    return FailedSend;
  }

  lemma AdvanceKeeps(e: Engine, tx: Slot, endpoint: Peer, expected: Pending, now: nat)
    ensures OnePerEndpoint(e.tx) ==> OnePerEndpoint(CommitRetransmit(e, tx, endpoint, expected, now).0.tx)
  {
  }

  lemma ReleaseKeeps(e: Engine, tx: Slot)
    ensures OnePerEndpoint(e.tx) ==> OnePerEndpoint(ReleaseTx(e, tx).tx)
  {
  }

  // One packet's whole life.

  /** What happens to a pending packet when its timer is served. */
  datatype Event = NotAccepted | Uncertain | AcceptedAt(now: nat)

  /** The pending timer after one event: as `SendRetransmit` leaves it. */
  function Served(rto: Option<Rto>, event: Event): Option<Rto> {
    if rto.None? then None
    else match event
      case NotAccepted => rto
      case Uncertain => None
      case AcceptedAt(now) => if IsDue(rto.value, now) then NextAttempt(rto.value, now) else None
  }

  function ServedAll(rto: Option<Rto>, events: seq<Event>): Option<Rto>
    decreases |events|
  {
    if events == [] then rto else ServedAll(Served(rto, events[0]), events[1..])
  }

  /** Events that may have put the packet on the wire while it was pending. */
  function MayHaveReached(rto: Option<Rto>, events: seq<Event>): nat
    decreases |events|
  {
    if events == [] || rto.None? then 0
    else (if events[0].NotAccepted? then 0 else 1) + MayHaveReached(Served(rto, events[0]), events[1..])
  }

  /** Each accepted send uses up one attempt number, so a packet with `a` attempts used is put on the
      wire at most `MAX_RETRANSMIT - a + 1` more times, however events fall. */
  lemma {:induction false} AttemptsNeverRepeat(rto: Rto, events: seq<Event>)
    requires rto.attempts <= MAX_RETRANSMIT
    ensures var after := ServedAll(Some(rto), events);
            var wire := MayHaveReached(Some(rto), events);
            && (after.Some? ==> after.value.attempts == rto.attempts + wire <= MAX_RETRANSMIT)
            && wire <= MAX_RETRANSMIT - rto.attempts + 1
    decreases |events|
  {
    if events != [] {
      var next := Served(Some(rto), events[0]);
      if next.None? {
        NothingPending(events[1..]);
      } else {
        AttemptsNeverRepeat(next.value, events[1..]);
      }
    }
  }

  lemma {:induction false} NothingPending(events: seq<Event>)
    ensures ServedAll(None, events) == None && MayHaveReached(None, events) == 0
  {
    if events != [] {
      NothingPending(events[1..]);
    }
  }

  // The schedule.

  function Pow2(n: nat): (p: nat)
    ensures p > 0
  {
    if n == 0 then 1 else 2 * Pow2(n - 1)
  }

  /** The wait before retransmission `k`, counted from 0, when the first was `first`. */
  function Wait(first: nat, k: nat): nat {
    Min(Pow2(k) * first, 0xFFFF_FFFF)
  }

  /** When the transport took the packet again. */
  function Acceptances(events: seq<Event>): seq<nat> {
    if events == [] then []
    else if events[0].AcceptedAt? then [events[0].now] + Acceptances(events[1..])
    else Acceptances(events[1..])
  }

  /** When retransmission `i` is due: `due` for the first, and after each one twice the wait before it. */
  function DueTime(due: nat, first: nat, times: seq<nat>, i: nat): nat
    requires i <= |times|
  {
    if i == 0 then due else SatAdd(times[i - 1], Wait(first, i))
  }

  predicate Spaced(due: nat, first: nat, times: seq<nat>) {
    forall i :: 0 <= i < |times| ==> times[i] >= DueTime(due, first, times, i)
  }

  lemma WaitDoubles(first: nat, k: nat)
    requires first <= 0xFFFF_FFFF
    ensures Wait(Min(2 * first, 0xFFFF_FFFF), k) == Wait(first, k + 1)
  {
    PowTimes(k, first);
    if 2 * first > 0xFFFF_FFFF {
      PowTimes(k, 0xFFFF_FFFF);
    }
  }

  lemma PowTimes(k: nat, n: nat)
    ensures Pow2(k) * n >= n && Pow2(k) * (2 * n) == Pow2(k + 1) * n
  {
    assert Pow2(k + 1) == 2 * Pow2(k);
    Grows(Pow2(k), n);
  }

  lemma Grows(p: nat, n: nat)
    requires p > 0
    ensures p * n >= n && p * (2 * n) == (2 * p) * n
  {
    assert p * n == (p - 1) * n + n;
  }

  lemma SpacedAgain(due: nat, first: nat, times: seq<nat>)
    requires times != [] && first <= 0xFFFF_FFFF
    ensures var next := Min(2 * first, 0xFFFF_FFFF);
            Spaced(due, first, times) <==> times[0] >= due && Spaced(SatAdd(times[0], next), next, times[1..])
  {
    var next, rest := Min(2 * first, 0xFFFF_FFFF), times[1..];
    forall i | 0 <= i < |rest|
      ensures rest[i] == times[i + 1] && DueTime(SatAdd(times[0], next), next, rest, i) == DueTime(due, first, times, i + 1)
    {
      DueAgain(due, first, times, i);
    }
    forall i | 0 < i < |times|
      ensures times[i] == rest[i - 1] && DueTime(SatAdd(times[0], next), next, rest, i - 1) == DueTime(due, first, times, i)
    {
      DueAgain(due, first, times, i - 1);
    }
  }

  /** Seen from the first retransmission on, the schedule is that of the doubled timeout. */
  lemma DueAgain(due: nat, first: nat, times: seq<nat>, i: nat)
    requires i < |times| && first <= 0xFFFF_FFFF
    ensures var next := Min(2 * first, 0xFFFF_FFFF);
            DueTime(SatAdd(times[0], next), next, times[1..], i) == DueTime(due, first, times, i + 1)
  {
    if i == 0 {
      assert Pow2(1) == 2 * Pow2(0);
    } else {
      WaitDoubles(first, i);
    }
  }

  /** Binary exponential back-off (section 4.2 of RFC 7252), whatever the events: a packet is still pending
      exactly when no send was in doubt, attempts are left and every retransmission waited twice as long
      as the one before; and then its timer runs from the last one. */
  lemma {:induction false} Schedule(rto: Rto, events: seq<Event>)
    requires rto.started && rto.attempts <= MAX_RETRANSMIT && rto.timeout <= 0xFFFF_FFFF
    ensures var after := ServedAll(Some(rto), events);
            var times := Acceptances(events);
            && (after.Some? <==> && Uncertain !in events && rto.attempts + |times| <= MAX_RETRANSMIT
                                 && Spaced(rto.next, rto.timeout, times))
            && (after.Some? ==> after.value == Rto(rto.attempts + |times|, true,
                                                   DueTime(rto.next, rto.timeout, times, |times|),
                                                   Wait(rto.timeout, |times|)))
    decreases |events|
  {
    if events != [] {
      var rest, next := events[1..], Served(Some(rto), events[0]);
      assert events == [events[0]] + rest;
      if next.None? {
        NothingPending(rest);
        if events[0].AcceptedAt? {
          SpacedAgain(rto.next, rto.timeout, Acceptances(events));
        }
      } else {
        Schedule(next.value, rest);
        if events[0].AcceptedAt? {
          var times := Acceptances(events);
          assert times[1..] == Acceptances(rest);
          SpacedAgain(rto.next, rto.timeout, times);
          WaitDoubles(rto.timeout, |times| - 1);
        }
      }
    }
  }

  // What the defaults amount to (section 4.8.2 of RFC 7252).

  /** Retransmissions each accepted the moment they are due. */
  predicate Prompt(due: nat, first: nat, times: seq<nat>) {
    forall i :: 0 <= i < |times| ==> times[i] == DueTime(due, first, times, i)
  }

  lemma {:induction false} PromptTimes(now: nat, first: nat, times: seq<nat>, i: nat)
    requires Prompt(now + first, first, times) && i <= |times| <= 4 && first <= 3000 && now + 93_000 <= U64_MAX
    ensures DueTime(now + first, first, times, i) == now + (Pow2(i + 1) - 1) * first
  {
    if i > 0 {
      PromptTimes(now, first, times, i - 1);
      assert times[i - 1] == now + (Pow2(i) - 1) * first;
      assert Pow2(0) == 1 && Pow2(1) == 2 && Pow2(2) == 4 && Pow2(3) == 8 && Pow2(4) == 16 && Pow2(5) == 32;
    } else {
      assert Pow2(1) == 2 * Pow2(0);
    }
  }

  /** A confirmable sent at `now` is due again between two and three seconds later. Served promptly it is
      put on the wire again exactly four times, the last time within 45 seconds, and given up within 93. */
  lemma TransmitSpan(now: nat, jitter: nat, times: seq<nat>)
    requires now + 93_000 <= U64_MAX
    requires var rto := Started(now, jitter); Prompt(rto.next, rto.timeout, times) && |times| == 4
    ensures var rto := Started(now, jitter);
            var first := 2000 + Min(jitter, 1000);
            && rto.attempts == 0 && rto.started && rto.next == now + first
            && Spaced(rto.next, rto.timeout, times)
            && times[0] == now + first && times[1] == now + 3 * first && times[2] == now + 7 * first
            && times[3] == now + 15 * first <= now + 45_000
            && DueTime(rto.next, rto.timeout, times, 4) == now + 31 * first <= now + 93_000
            && rto.attempts + 4 == MAX_RETRANSMIT
  {
    var first := 2000 + Min(jitter, 1000);
    assert Pow2(0) == 1 && Pow2(1) == 2 && Pow2(2) == 4 && Pow2(3) == 8 && Pow2(4) == 16 && Pow2(5) == 32;
    PromptTimes(now, first, times, 0);
    PromptTimes(now, first, times, 1);
    PromptTimes(now, first, times, 2);
    PromptTimes(now, first, times, 3);
    PromptTimes(now, first, times, 4);
  }

  /** The lifetimes follow from the span: with 100 seconds for a message to arrive and two to be processed,
      a confirmable may be answered for 247 seconds and an unconfirmed one for 145. */
  lemma LifetimesCoverSpan(live: Live, now: nat)
    requires now + 247_000 <= U64_MAX
    ensures Lifetime(live, now) == now + if live.con then 45_000 + 2 * 100_000 + 2_000 else 45_000 + 100_000
  {
  }
}
