/**
 The storage engine as the client uses it: packet slots with a pending-confirmable mark, outstanding
 exchanges, observe interest, receive packets, body slots and security bindings.
 */
module Engines {
  import opened Common

  type Token = nat
  type Peer = nat
  type Slot = nat

  const MAX_RETRANSMIT: nat := 4
  const ACK_TIMEOUT_MS: nat := 2000
  const ACK_RANDOM_SPAN_MS: nat := 1000

  datatype Call = Call(token: Token, peer: Peer)

  /** The retransmission timer of a pending confirmable; unstarted means reserved, not yet sent. */
  datatype Rto = Rto(attempts: nat, started: bool, next: nat, timeout: nat)

  const RESERVED: Rto := Rto(0, false, 0, 0)

  /** `initial_timeout_ms`: a jitter beyond the span counts as the span. */
  function InitialTimeout(jitter: nat): nat {
    ACK_TIMEOUT_MS + Min(jitter, ACK_RANDOM_SPAN_MS)
  }

  function Started(now: nat, jitter: nat): Rto {
    Rto(0, true, SatAdd(now, InitialTimeout(jitter)), InitialTimeout(jitter))
  }

  datatype Pending = Pending(mid: nat, rto: Rto)

  /** An occupied transmit slot. */
  datatype Packet = Packet(endpoint: Peer, token: Token, request: bool, pending: Option<Pending>)

  /** An outstanding request; its transmit slot may since have been reused. */
  datatype Exchange = Exchange(mid: nat, tx: Slot)

  datatype Body = Body(call: Call, q: bool)

  datatype Upload = Upload(call: Call, tag: nat)

  datatype Engine = Engine(
    exchanges: map<Call, Exchange>,
    observes: set<Call>,
    tx: seq<Option<Packet>>,
    rx: set<Slot>,
    bodies: seq<Option<Body>>,
    uploads: seq<Option<Upload>>,
    bindings: set<Call>)

  // Pending confirmables.

  function PendingAt(e: Engine, slot: Slot): Option<Pending> {
    if slot < |e.tx| && e.tx[slot].Some? then e.tx[slot].value.pending else None
  }

  /** A started confirmable with this Message ID to this endpoint: what an ACK or Reset may match. */
  predicate Owns(packet: Option<Packet>, mid: nat, peer: Peer) {
    && packet.Some? && packet.value.endpoint == peer
    && packet.value.pending.Some? && packet.value.pending.value.mid == mid && packet.value.pending.value.rto.started
  }

  function LookupPending(tx: seq<Option<Packet>>, mid: nat, peer: Peer): (s: Option<Slot>)
    ensures s.Some? ==> s.value < |tx| && Owns(tx[s.value], mid, peer)
    ensures s.None? ==> forall i :: 0 <= i < |tx| ==> !Owns(tx[i], mid, peer)
  {
    if tx == [] then None
    else if Owns(tx[0], mid, peer) then Some(0)
    else
      var rest := LookupPending(tx[1..], mid, peer);
      assert forall i :: 1 <= i < |tx| ==> tx[i] == tx[1..][i - 1];
      if rest.None? then None else Some(rest.value + 1)
  }

  function Unmarked(packet: Option<Packet>): Option<Packet> {
    if packet.None? then None else Some(packet.value.(pending := None))
  }

  /** `take_pending_con`: clear the mark, keep the slot. */
  function TakePending(e: Engine, mid: nat, peer: Peer): (Engine, Option<Slot>) {
    var s := LookupPending(e.tx, mid, peer);
    if s.None? then (e, None) else (e.(tx := e.tx[s.value := Unmarked(e.tx[s.value])]), s)
  }

  /** `cancel_pending_con`: only the exact reservation. */
  function CancelPending(e: Engine, slot: Slot, endpoint: Peer, pending: Pending): (Engine, bool) {
    if pending.rto.started || PendingAt(e, slot) != Some(pending) || e.tx[slot].value.endpoint != endpoint then (e, false)
    else (e.(tx := e.tx[slot := Unmarked(e.tx[slot])]), true)
  }

  /** `commit_pending_con`: the exact reservation starts its timer. */
  function CommitPending(e: Engine, slot: Slot, endpoint: Peer, pending: Pending, now: nat, jitter: nat): (Engine, bool) {
    if pending.rto.started || PendingAt(e, slot) != Some(pending) || e.tx[slot].value.endpoint != endpoint then (e, false)
    else (e.(tx := e.tx[slot := Some(e.tx[slot].value.(pending := Some(Pending(pending.mid, Started(now, jitter)))))]), true)
  }

  /** At most one pending confirmable, reserved or sent, for an endpoint. */
  predicate OnePerEndpoint(tx: seq<Option<Packet>>) {
    forall i, j :: 0 <= i < j < |tx| && tx[i].Some? && tx[j].Some?
                   && tx[i].value.pending.Some? && tx[j].value.pending.Some? ==>
      tx[i].value.endpoint != tx[j].value.endpoint
  }

  predicate Outstanding(tx: seq<Option<Packet>>, endpoint: Peer) {
    exists i :: 0 <= i < |tx| && tx[i].Some? && tx[i].value.pending.Some? && tx[i].value.endpoint == endpoint
  }

  /** `reserve_pending_con`: idempotent for the same mark, refused for another or at the endpoint limit. */
  function ReservePending(e: Engine, slot: Slot, endpoint: Peer, mid: nat): (Engine, Option<Pending>) {
    if slot >= |e.tx| || e.tx[slot].None? then (e, None)
    else if e.tx[slot].value.pending.Some? then
      var p := e.tx[slot].value.pending.value;
      if !p.rto.started && p.mid == mid && e.tx[slot].value.endpoint == endpoint then (e, Some(p)) else (e, None)
    else if Outstanding(e.tx, endpoint) then (e, None)
    else
      var p := Pending(mid, RESERVED);
      (e.(tx := e.tx[slot := Some(e.tx[slot].value.(endpoint := endpoint, pending := Some(p)))]), Some(p))
  }

  lemma ReserveKeeps(e: Engine, slot: Slot, endpoint: Peer, mid: nat)
    requires OnePerEndpoint(e.tx)
    ensures OnePerEndpoint(ReservePending(e, slot, endpoint, mid).0.tx)
  {
  }

  // Slots.

  function ReleaseTx(e: Engine, slot: Slot): Engine {
    if slot < |e.tx| then e.(tx := e.tx[slot := None]) else e
  }

  function ReleaseRx(e: Engine, slot: Slot): Engine {
    e.(rx := e.rx - {slot})
  }

  function ReleaseBody(e: Engine, slot: Slot): Engine {
    if slot < |e.bodies| then e.(bodies := e.bodies[slot := None]) else e
  }

  function ReleaseUpload(e: Engine, slot: Slot): Engine {
    if slot < |e.uploads| then e.(uploads := e.uploads[slot := None]) else e
  }

  function ReleaseAny(e: Engine, rx: Option<Slot>, body: Option<Slot>): Engine {
    var e1 := if rx.Some? then ReleaseRx(e, rx.value) else e;
    if body.Some? then ReleaseBody(e1, body.value) else e1
  }

  function BodiesWithout(bodies: seq<Option<Body>>, call: Call): (r: seq<Option<Body>>)
    ensures |r| == |bodies|
    ensures forall i :: 0 <= i < |bodies| ==>
              r[i] == if bodies[i].Some? && bodies[i].value.call == call then None else bodies[i]
  {
    seq(|bodies|, i requires 0 <= i < |bodies| =>
      if bodies[i].Some? && bodies[i].value.call == call then None else bodies[i])
  }

  function UploadsWithout(uploads: seq<Option<Upload>>, call: Call): (r: seq<Option<Upload>>)
    ensures |r| == |uploads|
    ensures forall i :: 0 <= i < |uploads| ==>
              r[i] == if uploads[i].Some? && uploads[i].value.call == call then None else uploads[i]
  {
    seq(|uploads|, i requires 0 <= i < |uploads| =>
      if uploads[i].Some? && uploads[i].value.call == call then None else uploads[i])
  }

  /** `upload_body`: the slot holding this call's upload under this tag. */
  function LookupUpload(uploads: seq<Option<Upload>>, call: Call, tag: nat): (s: Option<Slot>)
    ensures s.Some? ==> s.value < |uploads| && uploads[s.value] == Some(Upload(call, tag))
    ensures s.None? ==> forall i :: 0 <= i < |uploads| ==> uploads[i] != Some(Upload(call, tag))
  {
    if uploads == [] then None
    else if uploads[0] == Some(Upload(call, tag)) then Some(0)
    else
      var rest := LookupUpload(uploads[1..], call, tag);
      assert forall i :: 1 <= i < |uploads| ==> uploads[i] == uploads[1..][i - 1];
      if rest.None? then None else Some(rest.value + 1)
  }

  // Abandoning a send.

  /** A pending request packet of this call. */
  predicate Mine(packet: Option<Packet>, call: Call) {
    && packet.Some? && packet.value.pending.Some? && packet.value.request
    && packet.value.endpoint == call.peer && packet.value.token == call.token
  }

  function TxWithout(tx: seq<Option<Packet>>, call: Call): (r: seq<Option<Packet>>)
    ensures |r| == |tx|
    ensures forall i :: 0 <= i < |tx| ==> r[i] == if Mine(tx[i], call) then None else tx[i]
  {
    seq(|tx|, i requires 0 <= i < |tx| => if Mine(tx[i], call) then None else tx[i])
  }

  /** What `abandon_send` leaves: nothing this call owns on the sending side. */
  function AbandonSend(e: Engine, call: Call): Engine {
    e.(exchanges := e.exchanges - {call}, tx := TxWithout(e.tx, call),
       uploads := UploadsWithout(e.uploads, call), bindings := e.bindings - {call})
  }

  /** The loop over transmit slots: each of this call's pending requests loses its mark and its slot. */
  method AbandonSlots(tx: seq<Option<Packet>>, call: Call) returns (r: seq<Option<Packet>>)
    requires OnePerEndpoint(tx)
    ensures r == TxWithout(tx, call)
  {
    r := tx;
    for i := 0 to |tx|
      invariant |r| == |tx|
      invariant forall k :: 0 <= k < i ==> r[k] == if Mine(tx[k], call) then None else tx[k]
      invariant forall k :: i <= k < |tx| ==> r[k] == tx[k]
    {
      if r[i].Some? && r[i].value.pending.Some? {
        if r[i].value.endpoint == call.peer && r[i].value.token == call.token && r[i].value.request {
          var found := LookupPending(r, r[i].value.pending.value.mid, call.peer);
          if found.Some? {
            TakenIsMine(tx, r, i, found.value, call);
            r := r[found.value := Unmarked(r[found.value])];
          }
          r := r[i := None];
        }
      }
    }
  }

  /** With one confirmable per endpoint, the mark an abandoned slot names is its own. */
  lemma TakenIsMine(tx: seq<Option<Packet>>, r: seq<Option<Packet>>, i: nat, found: nat, call: Call)
    requires OnePerEndpoint(tx) && |r| == |tx| && i < |tx| && found < |tx|
    requires forall k :: 0 <= k < i ==> r[k] == if Mine(tx[k], call) then None else tx[k]
    requires forall k :: i <= k < |tx| ==> r[k] == tx[k]
    requires Mine(tx[i], call) && Owns(r[found], tx[i].value.pending.value.mid, call.peer)
    ensures found == i
  {
  }

  method AbandonUploads(uploads: seq<Option<Upload>>, call: Call) returns (r: seq<Option<Upload>>)
    ensures r == UploadsWithout(uploads, call)
  {
    r := uploads;
    for i := 0 to |uploads|
      invariant |r| == |uploads|
      invariant forall k :: 0 <= k < i ==>
                  r[k] == if uploads[k].Some? && uploads[k].value.call == call then None else uploads[k]
      invariant forall k :: i <= k < |uploads| ==> r[k] == uploads[k]
    {
      if r[i].Some? && r[i].value.call == call {
        r := r[i := None];
      }
    }
  }

  method ReleaseBodies(bodies: seq<Option<Body>>, call: Call) returns (r: seq<Option<Body>>)
    ensures r == BodiesWithout(bodies, call)
  {
    r := bodies;
    for i := 0 to |bodies|
      invariant |r| == |bodies|
      invariant forall k :: 0 <= k < i ==>
                  r[k] == if bodies[k].Some? && bodies[k].value.call == call then None else bodies[k]
      invariant forall k :: i <= k < |bodies| ==> r[k] == bodies[k]
    {
      if r[i].Some? && r[i].value.call == call {
        r := r[i := None];
      }
    }
  }

  // Authority of an exchange.

  /** The exchange's own packet is reserved but not yet sent; the whole identity must match,
      because an old exchange may name a slot that another request now uses. */
  predicate Unsent(e: Engine, call: Call)
    requires call in e.exchanges
  {
    var x := e.exchanges[call];
    var p := PendingAt(e, x.tx);
    p.Some? && p.value.mid == x.mid && e.tx[x.tx].value.endpoint == call.peer && !p.value.rto.started
  }

  datatype Kind = Con | Non | Ack

  /** `matching_exchange`: a piggybacked response must carry the request's Message ID. */
  predicate MatchesExchange(e: Engine, call: Call, kind: Kind, mid: nat) {
    call in e.exchanges && (kind.Ack? ==> mid == e.exchanges[call].mid) && !Unsent(e, call)
  }

  /** `matching_observe`. */
  predicate MatchesObserve(e: Engine, call: Call, kind: Kind) {
    !kind.Ack? && call in e.observes
  }

  /** Dropping the exchange of a failed call: its reservation is cancelled, or its sent packet
      retired, and the slot released; a slot another request uses is left alone. */
  function DropExchange(e: Engine, call: Call, releasePending: bool): Engine {
    if call !in e.exchanges then e else
      var x := e.exchanges[call];
      var taken := e.(exchanges := e.exchanges - {call});
      if !releasePending then taken
      else if Unsent(e, call) then
        var (cancelled, ok) := CancelPending(taken, x.tx, call.peer, PendingAt(e, x.tx).value);
        if ok then ReleaseTx(cancelled, x.tx) else cancelled
      else
        var (cleared, slot) := TakePending(taken, x.mid, call.peer);
        if slot.Some? then ReleaseTx(cleared, slot.value) else cleared
  }

  /** The slot a failed call's exchange may free: the one carrying its own Message ID and endpoint. */
  lemma DropExchangeFrees(e: Engine, call: Call, release: bool, i: nat)
    requires i < |e.tx| && DropExchange(e, call, release).tx[i] != e.tx[i]
    ensures call in e.exchanges && release && e.tx[i].Some?
    ensures var p := e.tx[i].value;
            p.endpoint == call.peer && p.pending.Some? && p.pending.value.mid == e.exchanges[call].mid
  {
  }

  // What a call owns besides its exchange and its packet.

  predicate SameUploads(uploads: seq<Option<Upload>>, after: seq<Option<Upload>>, call: Call) {
    |after| == |uploads| && forall u :: 0 <= u < |uploads| ==>
      (uploads[u].Some? && uploads[u].value.call == call) || (after[u].Some? && after[u].value.call == call) ==> after[u] == uploads[u]
  }

  predicate SameBodies(bodies: seq<Option<Body>>, after: seq<Option<Body>>, call: Call) {
    |after| == |bodies| && forall b :: 0 <= b < |bodies| ==>
      (bodies[b].Some? && bodies[b].value.call == call) || (after[b].Some? && after[b].value.call == call) ==> after[b] == bodies[b]
  }

  /** The call's upload, the body it assembles and its security binding are as they were. */
  predicate SameHoldings(e: Engine, after: Engine, call: Call) {
    SameUploads(e.uploads, after.uploads, call) && SameBodies(e.bodies, after.bodies, call) && (call in after.bindings <==> call in e.bindings)
  }

  /** No other call's holdings differ. */
  ghost predicate OnlyOf(e: Engine, after: Engine, call: Call) {
    forall d :: d != call ==> SameHoldings(e, after, d)
  }

  lemma HoldingsThen(e: Engine, mid: Engine, after: Engine, call: Call)
    requires SameHoldings(e, mid, call) && SameHoldings(mid, after, call)
    ensures SameHoldings(e, after, call)
  {
  }

  lemma OnlyParts(e: Engine, after: Engine, call: Call)
    requires forall d :: d != call ==> SameUploads(e.uploads, after.uploads, d) && SameBodies(e.bodies, after.bodies, d)
    requires after.bindings - {call} == e.bindings - {call}
    ensures OnlyOf(e, after, call)
  {
    forall d | d != call
      ensures d in after.bindings <==> d in e.bindings
    {
      assert d in after.bindings <==> d in after.bindings - {call};
      assert d in e.bindings <==> d in e.bindings - {call};
    }
  }

  lemma HoldingsIgnoreRx(e: Engine, after: Engine, rx: set<Slot>, call: Call)
    requires OnlyOf(e, after, call)
    ensures OnlyOf(e, after.(rx := rx), call)
  {
    forall d | d != call
      ensures SameHoldings(e, after.(rx := rx), d)
    {
      assert SameHoldings(e, after, d);
    }
  }

  lemma AbandonOnly(e: Engine, call: Call)
    ensures OnlyOf(e, AbandonSend(e, call), call)
  {
    hide TxWithout;
  }

  // Who owns a pending packet.

  /** No pending request of this call. */
  predicate Quiet(tx: seq<Option<Packet>>, call: Call) {
    forall i :: 0 <= i < |tx| ==> !Mine(tx[i], call)
  }

  /** A pending packet has been sent, and a pending request is the one its call's exchange names. */
  predicate Attributed(exchanges: map<Call, Exchange>, packet: Option<Packet>, slot: Slot) {
    packet.Some? && packet.value.pending.Some? ==>
      var p := packet.value;
      var c := Call(p.token, p.endpoint);
      p.pending.value.rto.started
      && (p.request ==> c in exchanges && exchanges[c] == Exchange(p.pending.value.mid, slot))
  }

  predicate AllAttributed(exchanges: map<Call, Exchange>, tx: seq<Option<Packet>>) {
    forall i :: 0 <= i < |tx| ==> Attributed(exchanges, tx[i], i)
  }

  /** Between operations: one pending packet for an endpoint, each with its owner. */
  predicate TxOk(exchanges: map<Call, Exchange>, tx: seq<Option<Packet>>) {
    OnePerEndpoint(tx) && AllAttributed(exchanges, tx)
  }

  /** Nothing is reserved between operations. */
  lemma NeverUnsent(e: Engine, call: Call)
    requires TxOk(e.exchanges, e.tx) && call in e.exchanges
    ensures !Unsent(e, call)
  {
    var x := e.exchanges[call];
    assert x.tx < |e.tx| ==> Attributed(e.exchanges, e.tx[x.tx], x.tx);
  }

  lemma UnlistedIsQuiet(exchanges: map<Call, Exchange>, tx: seq<Option<Packet>>, call: Call)
    requires TxOk(exchanges, tx) && call !in exchanges
    ensures Quiet(tx, call)
  {
    assert forall i :: 0 <= i < |tx| ==> Attributed(exchanges, tx[i], i);
  }

  /** Slots emptied or unmarked, and nothing else. */
  predicate Fewer(tx: seq<Option<Packet>>, after: seq<Option<Packet>>) {
    |after| == |tx| && forall i :: 0 <= i < |tx| ==>
      after[i] == tx[i] || after[i].None? || after[i].value.pending.None?
  }

  lemma FewerOk(exchanges: map<Call, Exchange>, tx: seq<Option<Packet>>, after: seq<Option<Packet>>)
    requires TxOk(exchanges, tx) && Fewer(tx, after)
    ensures TxOk(exchanges, after)
  {
    assert forall i :: 0 <= i < |tx| ==> Attributed(exchanges, tx[i], i);
  }

  lemma TakenExchange(exchanges: map<Call, Exchange>, tx: seq<Option<Packet>>, call: Call)
    requires TxOk(exchanges, tx) && Quiet(tx, call)
    ensures TxOk(exchanges - {call}, tx)
  {
    forall i | 0 <= i < |tx|
      ensures Attributed(exchanges - {call}, tx[i], i)
    {
      assert Attributed(exchanges, tx[i], i) && !Mine(tx[i], call);
    }
  }

  /** A call's pending request is the only one pending to its peer, under its exchange's Message ID. */
  lemma FoundIsMine(exchanges: map<Call, Exchange>, tx: seq<Option<Packet>>, call: Call, i: nat)
    requires TxOk(exchanges, tx) && i < |tx| && Mine(tx[i], call)
    ensures call in exchanges && exchanges[call].tx == i
    ensures LookupPending(tx, exchanges[call].mid, call.peer) == Some(i)
  {
    assert Attributed(exchanges, tx[i], i);
    assert Owns(tx[i], exchanges[call].mid, call.peer);
  }

  /** Dropping an exchange with its packet leaves no packet of the call behind. */
  lemma DropExchangeOk(e: Engine, call: Call)
    requires TxOk(e.exchanges, e.tx)
    ensures var after := DropExchange(e, call, true);
            TxOk(after.exchanges, after.tx) && Quiet(after.tx, call) && after.exchanges == e.exchanges - {call}
  {
    var after := DropExchange(e, call, true);
    if call !in e.exchanges {
      UnlistedIsQuiet(e.exchanges, e.tx, call);
      assert e.exchanges - {call} == e.exchanges;
    } else {
      NeverUnsent(e, call);
      assert Fewer(e.tx, after.tx);
      FewerOk(e.exchanges, e.tx, after.tx);
      forall i | 0 <= i < |after.tx|
        ensures !Mine(after.tx[i], call)
      {
        if Mine(e.tx[i], call) {
          FoundIsMine(e.exchanges, e.tx, call, i);
        }
      }
      TakenExchange(e.exchanges, after.tx, call);
    }
  }

  lemma StopOk(e: Engine, mid: nat, peer: Peer, call: Call)
    requires TxOk(e.exchanges, e.tx)
    ensures var (e1, slot) := TakePending(e, mid, peer);
            var e2 := if slot.Some? then ReleaseTx(e1, slot.value) else e1;
            && e2 == e.(tx := e2.tx) && TxOk(e2.exchanges, e2.tx)
            && (Quiet(e.tx, call) ==> Quiet(e2.tx, call))
            && (call in e.exchanges && e.exchanges[call].mid == mid && call.peer == peer ==> Quiet(e2.tx, call))
  {
    var (e1, slot) := TakePending(e, mid, peer);
    var e2 := if slot.Some? then ReleaseTx(e1, slot.value) else e1;
    assert Fewer(e.tx, e2.tx);
    FewerOk(e.exchanges, e.tx, e2.tx);
    forall i | 0 <= i < |e.tx| && call in e.exchanges && e.exchanges[call].mid == mid && call.peer == peer
      ensures !Mine(e2.tx[i], call)
    {
      if Mine(e.tx[i], call) {
        FoundIsMine(e.exchanges, e.tx, call, i);
      }
    }
  }

  lemma AbandonOk(e: Engine, call: Call)
    requires TxOk(e.exchanges, e.tx)
    ensures TxOk(AbandonSend(e, call).exchanges, AbandonSend(e, call).tx) && Quiet(AbandonSend(e, call).tx, call)
  {
    var tx := TxWithout(e.tx, call);
    FewerOk(e.exchanges, e.tx, tx);
    TakenExchange(e.exchanges, tx, call);
  }

  /** Abandoning takes the call's exchange, binding, uploads and pending requests, and nothing of another. */
  lemma AbandonEnds(e: Engine, call: Call)
    ensures var after := AbandonSend(e, call);
            && call !in after.exchanges && call !in after.bindings && Quiet(after.tx, call)
            && (forall u :: 0 <= u < |after.uploads| && after.uploads[u].Some? ==> after.uploads[u].value.call != call)
            && (forall c :: c != call ==>
                  && (c in after.exchanges <==> c in e.exchanges) && (c in e.exchanges ==> after.exchanges[c] == e.exchanges[c])
                  && (c in after.bindings <==> c in e.bindings))
            && |after.uploads| == |e.uploads| && |after.tx| == |e.tx|
            && (forall u :: 0 <= u < |e.uploads| && after.uploads[u] != e.uploads[u] ==> e.uploads[u].value.call == call)
            && (forall i :: 0 <= i < |e.tx| && after.tx[i] != e.tx[i] ==> Mine(e.tx[i], call))
            && after.observes == e.observes && after.rx == e.rx && after.bodies == e.bodies
  {
  }

  lemma ReleaseOk(exchanges: map<Call, Exchange>, tx: seq<Option<Packet>>, slot: Slot)
    requires TxOk(exchanges, tx) && slot < |tx|
    ensures TxOk(exchanges, tx[slot := None])
  {
    FewerOk(exchanges, tx, tx[slot := None]);
  }
}
