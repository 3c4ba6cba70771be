/**
 The association table: each installed security context gets a namespace number that is never
 issued twice, and a peer address resolves to a context only when exactly one can be meant.
 */
module Associations {
  import opened Common
  import opened Slots

  const U32_MAX: nat := 0xFFFF_FFFF

  /** An address with the namespace it is qualified by; zero is the bare address. */
  datatype Endpoint = Endpoint(address: nat, association: nat) {
    function Physical(): Endpoint {
      Endpoint(address, 0)
    }
  }

  /** Only the identifiers and the tokens of live requests matter here. */
  datatype Context = Context(recipient: seq<Byte>, idContext: seq<Byte>, live: set<seq<Byte>>)

  datatype Association = Association(route: Endpoint, owner: seq<Byte>, epoch: nat)

  datatype Entry = Entry(context: Context, association: Option<Association>, revoked: bool)

  type Rows = seq<Option<Entry>>

  datatype InstallError = MissingCandidate | Busy | Ambiguous | Capacity | GenerationExhausted | UnknownAssociation

  datatype RouteError = ContextError | HeaderError

  // Scans.

  predicate IsPrimary(row: Option<Entry>) {
    row.Some? && row.value.association.None?
  }

  predicate Associated(row: Option<Entry>) {
    row.Some? && row.value.association.Some?
  }

  function Namespace(row: Entry): nat {
    if row.association.None? then 0 else row.association.value.route.association
  }

  predicate HasPrimary(rows: Rows) {
    exists i :: 0 <= i < |rows| && IsPrimary(rows[i])
  }

  predicate SamePlace(row: Entry, address: nat, context: Context)
    requires row.association.Some?
  {
    && row.association.value.route.address == address
    && row.context.recipient == context.recipient && row.context.idContext == context.idContext
  }

  predicate Clash(row: Option<Entry>, address: nat, owner: seq<Byte>, epoch: nat, context: Context) {
    && Associated(row)
    && ((row.value.association.value.owner == owner && row.value.association.value.epoch == epoch)
        || SamePlace(row.value, address, context))
  }

  predicate Clashes(rows: Rows, address: nat, owner: seq<Byte>, epoch: nat, context: Context) {
    exists i :: 0 <= i < |rows| && Clash(rows[i], address, owner, epoch, context)
  }

  /** The slot and namespace an install would use, or its refusal. */
  function CheckInstall(rows: Rows, generation: nat, address: nat, owner: seq<Byte>, epoch: nat, context: Context)
    : Result<(nat, nat), InstallError>
  {
    if HasPrimary(rows) then Err(Busy)
    else if Clashes(rows, address, owner, epoch, context) then Err(Ambiguous)
    else if FirstFree(rows) == |rows| then Err(Capacity)
    else if generation + 1 > U32_MAX then Err(GenerationExhausted)
    else Ok((FirstFree(rows), generation + 1))
  }

  // Resolution.

  function RouteOf(row: Entry, peer: Endpoint): Endpoint {
    if row.association.None? then peer.Physical() else row.association.value.route
  }

  predicate OnAddress(row: Option<Entry>, peer: Endpoint) {
    row.Some? && !row.value.revoked && RouteOf(row.value, peer).address == peer.address
  }

  predicate Selects(row: Option<Entry>, peer: Endpoint) {
    && OnAddress(row, peer)
    && (peer.association == 0 || peer.association == RouteOf(row.value, peer).association)
  }

  /** `is_some`: a context is attached, or one ever was. */
  predicate Attached(rows: Rows, generation: nat) {
    generation != 0 || exists i :: 0 <= i < |rows| && rows[i].Some?
  }

  /** What an inbound message offers for selecting a context. */
  datatype Inbound = Request(header: Option<(seq<Byte>, Option<seq<Byte>>)>) | Response(token: seq<Byte>)

  predicate MatchesRecipient(context: Context, kid: seq<Byte>, kidContext: Option<seq<Byte>>) {
    kid == context.recipient && (if kidContext.None? then context.idContext == [] else kidContext.value == context.idContext)
  }

  predicate Accepts(row: Option<Entry>, peer: Endpoint, m: Inbound) {
    && OnAddress(row, peer)
    && match m
       case Request(None) => row.value.association.None?
       case Request(Some((kid, kidContext))) => MatchesRecipient(row.value.context, kid, kidContext)
       case Response(token) => token in row.value.context.live
  }

  predicate UnrevokedPrimary(rows: Rows) {
    exists i :: 0 <= i < |rows| && IsPrimary(rows[i]) && !rows[i].value.revoked
  }

  /** Row `i`, and no other, is selected by the peer. */
  predicate OnlySelects(rows: Rows, peer: Endpoint, i: nat) {
    i < |rows| && Selects(rows[i], peer) && forall j :: 0 <= j < |rows| && Selects(rows[j], peer) ==> j == i
  }

  /** Row `i`, and no other, accepts the message. */
  predicate OnlyAccepts(rows: Rows, peer: Endpoint, m: Inbound, i: nat) {
    i < |rows| && Accepts(rows[i], peer, m) && forall j :: 0 <= j < |rows| && Accepts(rows[j], peer, m) ==> j == i
  }

  predicate Live(row: Option<Entry>, namespace: nat) {
    row.Some? && !row.value.revoked && Namespace(row.value) == namespace
  }

  // The table's invariant over runs.

  predicate Bounded(rows: Rows, generation: nat) {
    forall i :: 0 <= i < |rows| && Associated(rows[i]) ==> 1 <= Namespace(rows[i].value) <= generation
  }

  predicate DistinctNamespaces(rows: Rows) {
    forall i, j :: 0 <= i < j < |rows| && Associated(rows[i]) && Associated(rows[j]) ==>
      Namespace(rows[i].value) != Namespace(rows[j].value)
  }

  predicate DistinctPlaces(rows: Rows) {
    forall i, j :: 0 <= i < j < |rows| && Associated(rows[i]) && Associated(rows[j]) ==>
      !SamePlace(rows[i].value, rows[j].value.association.value.route.address, rows[j].value.context)
  }

  /** No party holds two contexts of one epoch. */
  predicate DistinctOwners(rows: Rows) {
    forall i, j :: 0 <= i < j < |rows| && Associated(rows[i]) && Associated(rows[j]) ==>
      || rows[i].value.association.value.owner != rows[j].value.association.value.owner
      || rows[i].value.association.value.epoch != rows[j].value.association.value.epoch
  }

  /** A context without an association only ever sits alone in row zero, before any install. */
  predicate PrimaryAlone(rows: Rows, generation: nat) {
    && (generation == 0 ==> forall i :: 0 < i < |rows| ==> rows[i].None?)
    && (generation == 0 ==> |rows| > 0 ==> !Associated(rows[0]))
    && (generation != 0 ==> forall i :: 0 <= i < |rows| ==> !IsPrimary(rows[i]))
  }

  predicate Inv(rows: Rows, generation: nat) {
    && generation <= U32_MAX
    && Bounded(rows, generation) && DistinctNamespaces(rows) && DistinctPlaces(rows) && DistinctOwners(rows)
    && PrimaryAlone(rows, generation)
  }

  class Store {
    var rows: Rows
    var generation: nat

    ghost predicate Valid()
      reads this
    {
      Inv(rows, generation)
    }

    constructor (n: nat)
      ensures Valid() && rows == seq(n, _ => None) && generation == 0
    {
      rows := seq(n, _ => None);
      generation := 0;
    }

    method Check(endpoint: Endpoint, owner: seq<Byte>, epoch: nat, context: Context)
      returns (r: Result<(nat, nat), InstallError>)
      ensures r == CheckInstall(rows, generation, endpoint.address, owner, epoch, context)
    {
      var i := 0;
      while i < |rows|
        invariant i <= |rows| && forall j :: 0 <= j < i ==> !IsPrimary(rows[j])
      {
        if rows[i].Some? && rows[i].value.association.None? { return Err(Busy); }
        i := i + 1;
      }
      i := 0;
      while i < |rows|
        invariant i <= |rows| && forall j :: 0 <= j < i ==> !Clash(rows[j], endpoint.address, owner, epoch, context)
      {
        if Clash(rows[i], endpoint.address, owner, epoch, context) { return Err(Ambiguous); }
        i := i + 1;
      }
      i := FindFree(rows);
      if i == |rows| { return Err(Capacity); }
      if generation + 1 > U32_MAX { return Err(GenerationExhausted); }
      return Ok((i, generation + 1));
    }

    /** `install`: the candidate is taken exactly on success. */
    method Install(endpoint: Endpoint, owner: seq<Byte>, epoch: nat, candidate: Option<Context>)
      returns (r: Result<Association, InstallError>, left: Option<Context>)
      requires Valid()
      modifies this
      ensures Valid()
      ensures candidate.None? ==> r == Err(MissingCandidate)
      ensures r.Err? ==> left == candidate && rows == old(rows) && generation == old(generation)
      ensures candidate.Some? ==>
                var c := CheckInstall(old(rows), old(generation), endpoint.address, owner, epoch, candidate.value);
                && (r.Ok? <==> c.Ok?) && (c.Err? ==> r == Err(c.error))
                && (r.Ok? ==> && left.None?
                              && r.value == Association(Endpoint(endpoint.address, c.value.1), owner, epoch)
                              && rows == old(rows)[c.value.0 := Some(Entry(candidate.value, Some(r.value), false))]
                              && generation == c.value.1)
      ensures candidate.Some? ==>
                State(rows, generation) == Apply(State(old(rows), old(generation)),
                                                 Op.Install(endpoint.address, owner, epoch, candidate.value))
    {
      if candidate.None? { return Err(MissingCandidate), candidate; }
      var checked := Check(endpoint, owner, epoch, candidate.value);
      if checked.Err? { return Err(checked.error), candidate; }
      InstallKeeps(rows, generation, endpoint.address, owner, epoch, candidate.value);
      var (slot, next) := checked.value;
      var association := Association(Endpoint(endpoint.address, next), owner, epoch);
      rows := rows[slot := Some(Entry(candidate.value, Some(association), false))];
      generation := next;
      return Ok(association), None;
    }

    /** `set_oscore`: the single context without an association, refused once anything was installed. */
    method SetPrimary(candidate: Option<Context>, busy: bool) returns (r: Result<(), InstallError>, left: Option<Context>)
      requires Valid() && |rows| > 0
      modifies this
      ensures Valid()
      ensures r == (if candidate.None? then Err(MissingCandidate)
                    else if busy || old(generation) != 0 then Err(InstallError.Busy) else Ok(()))
      ensures left == if r.Ok? then None else candidate
      ensures candidate.None? ==> rows == old(rows) && generation == old(generation)
      ensures candidate.Some? ==>
                State(rows, generation) == Apply(State(old(rows), old(generation)), Primary(candidate.value, busy))
    {
      if candidate.None? { return Err(MissingCandidate), None; }
      if busy || generation != 0 { return Err(InstallError.Busy), candidate; }
      rows := rows[0 := Some(Entry(candidate.value, None, false))];
      return Ok(()), None;
    }

    /** `remove_association`: revoked at once, reclaimed when no buffer is pinned. */
    method RemoveAssociation(association: Association, pinned: bool) returns (r: Result<Context, InstallError>)
      requires Valid()
      modifies this
      ensures Valid()
      ensures State(rows, generation) == Apply(State(old(rows), old(generation)), Remove(association, pinned))
      ensures r == Err(UnknownAssociation) <==>
                forall i :: 0 <= i < |old(rows)| && old(rows)[i].Some? ==> old(rows)[i].value.association != Some(association)
      ensures r.Ok? || r.error == UnknownAssociation || (r.error == Busy && pinned)
    {
      ApplyKeeps(State(rows, generation), Remove(association, pinned));
      var n := 0;
      while n < |rows| && !(rows[n].Some? && rows[n].value.association == Some(association))
        invariant n <= |rows|
        invariant forall i :: 0 <= i < n && rows[i].Some? ==> rows[i].value.association != Some(association)
      {
        n := n + 1;
      }
      FindIs(rows, association, n);
      if n == |rows| { return Err(UnknownAssociation); }
      if pinned {
        rows := rows[n := Some(rows[n].value.(revoked := true))];
        return Err(Busy);
      }
      r := Ok(rows[n].value.context);
      rows := rows[n := None];
    }

    /** `resolve`: unprotected only if nothing was ever attached; otherwise exactly one row or an error. */
    method Resolve(peer: Endpoint) returns (r: Result<Endpoint, RouteError>)
      ensures !Attached(rows, generation) ==> r == Ok(peer.Physical())
      ensures Attached(rows, generation) ==>
                && (r.Ok? <==> exists i: nat :: OnlySelects(rows, peer, i))
                && (forall i: nat :: OnlySelects(rows, peer, i) ==> r == Ok(RouteOf(rows[i].value, peer)))
    {
      hide Selects;
      if !Attached(rows, generation) { return Ok(peer.Physical()); }
      var found: Option<nat> := None;
      for i := 0 to |rows|
        invariant found.Some? ==> found.value < i && Selects(rows[found.value], peer)
        invariant forall j :: 0 <= j < i && Selects(rows[j], peer) ==> found == Some(j)
      {
        if Selects(rows[i], peer) {
          if found.Some? { return Err(ContextError); }
          found := Some(i);
        }
      }
      if found.None? { return Err(ContextError); }
      assert OnlySelects(rows, peer, found.value);
      SelectsSome(rows[found.value], peer);
      return Ok(RouteOf(rows[found.value].value, peer));
    }

    /** `inbound_route`, with the message's options already read; `repeated` is a second OSCORE option. */
    method InboundRoute(peer: Endpoint, m: Inbound, repeated: bool) returns (r: Result<Endpoint, RouteError>)
      ensures !Attached(rows, generation) || UnrevokedPrimary(rows) ==> r == Ok(peer.Physical())
      ensures Attached(rows, generation) && !UnrevokedPrimary(rows) ==>
                && (repeated ==> r == Err(HeaderError))
                && (!repeated ==> && (r.Ok? <==> exists i: nat :: OnlyAccepts(rows, peer, m, i))
                                  && (forall i: nat :: OnlyAccepts(rows, peer, m, i) ==>
                                        r == Ok(RouteOf(rows[i].value, peer))))
    {
      hide Accepts;
      if !Attached(rows, generation) || UnrevokedPrimary(rows) { return Ok(peer.Physical()); }
      if repeated { return Err(HeaderError); }
      var found: Option<nat> := None;
      for i := 0 to |rows|
        invariant found.Some? ==> found.value < i && Accepts(rows[found.value], peer, m)
        invariant forall j :: 0 <= j < i && Accepts(rows[j], peer, m) ==> found == Some(j)
      {
        if Accepts(rows[i], peer, m) {
          if found.Some? { return Err(ContextError); }
          found := Some(i);
        }
      }
      if found.None? { return Err(ContextError); }
      assert OnlyAccepts(rows, peer, m, found.value);
      AcceptsSome(rows[found.value], peer, m);
      return Ok(RouteOf(rows[found.value].value, peer));
    }

    /** `context`: the first unrevoked row in the namespace. */
    method ContextFor(namespace: nat) returns (i: nat)
      ensures i <= |rows|
      ensures i < |rows| ==> Live(rows[i], namespace)
      ensures i == |rows| ==> forall j :: 0 <= j < |rows| ==> !Live(rows[j], namespace)
    {
      i := 0;
      while i < |rows| && !Live(rows[i], namespace)
        invariant i <= |rows| && forall j :: 0 <= j < i ==> !Live(rows[j], namespace)
      {
        i := i + 1;
      }
    }
  }

  lemma SelectsSome(row: Option<Entry>, peer: Endpoint)
    ensures Selects(row, peer) ==> row.Some?
  {
  }

  lemma AcceptsSome(row: Option<Entry>, peer: Endpoint, m: Inbound)
    ensures Accepts(row, peer, m) ==> row.Some?
  {
  }

  lemma InstallKeeps(rows: Rows, generation: nat, address: nat, owner: seq<Byte>, epoch: nat, context: Context)
    requires Inv(rows, generation)
    requires CheckInstall(rows, generation, address, owner, epoch, context).Ok?
    ensures var (slot, next) := CheckInstall(rows, generation, address, owner, epoch, context).value;
            && Inv(rows[slot := Some(Entry(context, Some(Association(Endpoint(address, next), owner, epoch)), false))], next)
  {
    var (slot, next) := CheckInstall(rows, generation, address, owner, epoch, context).value;
    forall i | 0 <= i < |rows| && Associated(rows[i])
      ensures !SamePlace(rows[i].value, address, context)
      ensures rows[i].value.association.value.owner != owner || rows[i].value.association.value.epoch != epoch
    {
      assert !Clash(rows[i], address, owner, epoch, context);
    }
    forall i | 0 <= i < |rows|
      ensures !IsPrimary(rows[i])
    {
    }
  }

  /** An install is ambiguous exactly when the row it would add could not be told from another: by its owner
      and epoch, or by its address, recipient and ID context. */
  lemma AmbiguousIff(rows: Rows, generation: nat, address: nat, owner: seq<Byte>, epoch: nat, context: Context, namespace: nat, slot: nat)
    requires Inv(rows, generation) && !HasPrimary(rows) && slot < |rows| && rows[slot].None?
    ensures var added := rows[slot := Some(Entry(context, Some(Association(Endpoint(address, namespace), owner, epoch)), false))];
            CheckInstall(rows, generation, address, owner, epoch, context) == Err(Ambiguous) <==>
              !DistinctOwners(added) || !DistinctPlaces(added)
  {
    var row := Some(Entry(context, Some(Association(Endpoint(address, namespace), owner, epoch)), false));
    var added := rows[slot := row];
    if Clashes(rows, address, owner, epoch, context) {
      var i :| 0 <= i < |rows| && Clash(rows[i], address, owner, epoch, context);
      assert added[i] == rows[i] && added[slot] == row && i != slot;
    } else {
      forall i | 0 <= i < |rows| && i != slot && Associated(rows[i])
        ensures !SamePlace(rows[i].value, address, context)
        ensures rows[i].value.association.value.owner != owner || rows[i].value.association.value.epoch != epoch
      {
        assert !Clash(rows[i], address, owner, epoch, context);
      }
    }
  }

  /** The other refusals of an install, and the row and namespace it is given. */
  lemma InstallIff(rows: Rows, generation: nat, address: nat, owner: seq<Byte>, epoch: nat, context: Context)
    requires generation <= 0xFFFF_FFFF
    ensures var r := CheckInstall(rows, generation, address, owner, epoch, context);
            var primary := exists i :: 0 <= i < |rows| && rows[i].Some? && rows[i].value.association.None?;
            var full := forall i :: 0 <= i < |rows| ==> rows[i].Some?;
            && (r == Err(Busy) <==> primary)
            && (r == Err(Ambiguous) <==>
                  !primary && exists i :: 0 <= i < |rows| && rows[i].Some? && rows[i].value.association.Some? &&
                                var a := rows[i].value.association.value;
                                || (a.owner == owner && a.epoch == epoch)
                                || (a.route.address == address && rows[i].value.context.recipient == context.recipient
                                    && rows[i].value.context.idContext == context.idContext))
            && (r == Err(Capacity) <==> !primary && r != Err(Ambiguous) && full)
            && (r == Err(GenerationExhausted) <==>
                  !primary && r != Err(Ambiguous) && !full && generation == 0xFFFF_FFFF)
            && (r.Ok? ==> && r.value.1 == generation + 1 && r.value.0 < |rows| && rows[r.value.0].None?
                          && forall i :: 0 <= i < r.value.0 ==> rows[i].Some?)
            && (r.Err? ==> r.error in {Busy, Ambiguous, Capacity, GenerationExhausted})
  {
    assert forall i :: 0 <= i < |rows| && Clash(rows[i], address, owner, epoch, context) ==> rows[i].Some?;
  }

  /** A primary context is for every address and no namespace. */
  lemma PrimaryFor(context: Context, revoked: bool, peer: Endpoint)
    ensures var row := Some(Entry(context, None, revoked));
            && (Selects(row, peer) <==> !revoked && peer.association == 0)
            && RouteOf(row.value, peer) == Endpoint(peer.address, 0)
            && (UnrevokedPrimary([row]) <==> !revoked)
  {
    var row := Some(Entry(context, None, revoked));
    assert [row][0] == row;
  }

  /** Which traffic an associated row is for: only while it is not revoked, only from its address, a peer of
      its namespace or of none, a request protected for its recipient and ID context, a response it awaits. */
  lemma MeantFor(context: Context, route: Endpoint, owner: seq<Byte>, epoch: nat, revoked: bool, peer: Endpoint, m: Inbound)
    ensures var row := Some(Entry(context, Some(Association(route, owner, epoch)), revoked));
            var here := !revoked && route.address == peer.address;
            && (Selects(row, peer) <==> here && (peer.association == 0 || peer.association == route.association))
            && (Accepts(row, peer, m) <==>
                  here && match m
                          case Response(token) => token in context.live
                          case Request(None) => false
                          case Request(Some((kid, None))) => kid == context.recipient && context.idContext == []
                          case Request(Some((kid, Some(id)))) => kid == context.recipient && id == context.idContext)
            && (Live(row, route.association) <==> !revoked)
            && (Selects(row, peer) ==> RouteOf(row.value, peer) == route)
  {
  }

  // What the invariant buys.

  /** A namespaced peer is never ambiguous. */
  lemma NamespaceUnambiguous(rows: Rows, generation: nat, peer: Endpoint, i: nat, j: nat)
    requires Inv(rows, generation) && peer.association != 0
    requires i < |rows| && j < |rows| && Selects(rows[i], peer) && Selects(rows[j], peer)
    ensures i == j
  {
  }

  /** Nor is a protected request: recipient and ID context single out one row of an address. */
  lemma RequestUnambiguous(rows: Rows, generation: nat, peer: Endpoint, m: Inbound, i: nat, j: nat)
    requires Inv(rows, generation) && generation != 0 && m.Request?
    requires i < |rows| && j < |rows| && Accepts(rows[i], peer, m) && Accepts(rows[j], peer, m)
    ensures i == j
  {
    assert Associated(rows[i]) && Associated(rows[j]);
  }

  /** An unrevoked context is found again by its own namespace, and by a request protected for it, and no
      other is. */
  lemma FoundAgain(rows: Rows, generation: nat, i: nat)
    requires Inv(rows, generation) && i < |rows| && Associated(rows[i]) && !rows[i].value.revoked
    ensures var route := rows[i].value.association.value.route;
            var context := rows[i].value.context;
            && OnlySelects(rows, route, i) && Attached(rows, generation) && RouteOf(rows[i].value, route) == route
            && OnlyAccepts(rows, route, Request(Some((context.recipient, Some(context.idContext)))), i)
            && (context.idContext == [] ==> OnlyAccepts(rows, route, Request(Some((context.recipient, None))), i))
  {
    var route, context := rows[i].value.association.value.route, rows[i].value.context;
    var named, plain := Request(Some((context.recipient, Some(context.idContext)))), Request(Some((context.recipient, None)));
    assert generation != 0 && route.association != 0;
    forall j | 0 <= j < |rows| && Selects(rows[j], route)
      ensures j == i
    {
      NamespaceUnambiguous(rows, generation, route, i, j);
    }
    forall j | 0 <= j < |rows|
      ensures Accepts(rows[j], route, named) ==> j == i
      ensures context.idContext == [] && Accepts(rows[j], route, plain) ==> j == i
    {
      if Accepts(rows[j], route, named) {
        RequestUnambiguous(rows, generation, route, named, i, j);
      }
      if context.idContext == [] && Accepts(rows[j], route, plain) {
        RequestUnambiguous(rows, generation, route, plain, i, j);
      }
    }
  }

  // Runs.

  datatype Op =
    | Install(address: nat, owner: seq<Byte>, epoch: nat, context: Context)
    | Primary(primary: Context, busy: bool)
    | Remove(association: Association, pinned: bool)
    | Work(namespace: nat, live: set<seq<Byte>>)

  datatype State = State(rows: Rows, generation: nat) {
    predicate Valid() {
      Inv(rows, generation)
    }
  }

  function Find(rows: Rows, association: Association): (n: nat)
    ensures n <= |rows|
    ensures n < |rows| ==> rows[n].Some? && rows[n].value.association == Some(association)
  {
    if rows == [] || (rows[0].Some? && rows[0].value.association == Some(association)) then 0
    else Find(rows[1..], association) + 1
  }

  lemma {:induction false} FindIs(rows: Rows, association: Association, n: nat)
    requires n <= |rows|
    requires forall i :: 0 <= i < n && rows[i].Some? ==> rows[i].value.association != Some(association)
    requires n < |rows| ==> rows[n].Some? && rows[n].value.association == Some(association)
    ensures Find(rows, association) == n
  {
    if n > 0 {
      assert forall i :: 0 <= i < |rows[1..]| ==> rows[1..][i] == rows[i + 1];
      FindIs(rows[1..], association, n - 1);
    }
  }

  function FindLive(rows: Rows, namespace: nat): (n: nat)
    ensures n <= |rows|
    ensures n < |rows| ==> Live(rows[n], namespace)
  {
    if rows == [] || Live(rows[0], namespace) then 0 else FindLive(rows[1..], namespace) + 1
  }

  /** Installing, attaching the primary context, revoking and reclaiming (a pinned buffer leaves the
      row revoked), and request work inside a context. */
  function Apply(s: State, op: Op): State {
    match op
    case Install(address, owner, epoch, context) =>
      var c := CheckInstall(s.rows, s.generation, address, owner, epoch, context);
      if c.Err? then s else
        State(s.rows[c.value.0 := Some(Entry(context, Some(Association(Endpoint(address, c.value.1), owner, epoch)), false))],
              c.value.1)
    case Primary(context, busy) =>
      if busy || s.generation != 0 || s.rows == [] then s
      else State(s.rows[0 := Some(Entry(context, None, false))], 0)
    case Remove(association, pinned) =>
      var n := Find(s.rows, association);
      if n == |s.rows| then s
      else if pinned then s.(rows := s.rows[n := Some(s.rows[n].value.(revoked := true))])
      else s.(rows := s.rows[n := None])
    case Work(namespace, live) =>
      var n := FindLive(s.rows, namespace);
      if n == |s.rows| then s
      else s.(rows := s.rows[n := Some(s.rows[n].value.(context := s.rows[n].value.context.(live := live)))])
  }

  lemma ApplyKeeps(s: State, op: Op)
    requires s.Valid()
    ensures Apply(s, op).Valid()
    ensures s.generation <= Apply(s, op).generation
  {
    if op.Install? {
      if CheckInstall(s.rows, s.generation, op.address, op.owner, op.epoch, op.context).Ok? {
        InstallKeeps(s.rows, s.generation, op.address, op.owner, op.epoch, op.context);
      }
    } else if op.Remove? {
      ReplaceKeeps(s, Find(s.rows, op.association), None);
      RevokeKeeps(s, op);
    } else if op.Work? {
      WorkKeeps(s, op);
    }
  }

  predicate Narrower(before: Option<Entry>, after: Option<Entry>) {
    after.Some? ==> before.Some? && after.value.association == before.value.association
                    && after.value.context.recipient == before.value.context.recipient
                    && after.value.context.idContext == before.value.context.idContext
  }

  /** A row that keeps its identity, or goes, breaks nothing. */
  lemma ReplaceKeeps(s: State, n: nat, row: Option<Entry>)
    requires s.Valid()
    ensures n < |s.rows| && Narrower(s.rows[n], row) ==> Inv(s.rows[n := row], s.generation)
  {
  }

  lemma RevokeKeeps(s: State, op: Op)
    requires s.Valid() && op.Remove?
    ensures Apply(s, op).Valid()
  {
    hide Inv;
    var n := Find(s.rows, op.association);
    ReplaceKeeps(s, n, None);
    if n < |s.rows| {
      ReplaceKeeps(s, n, Some(s.rows[n].value.(revoked := true)));
    }
  }

  lemma WorkKeeps(s: State, op: Op)
    requires s.Valid() && op.Work?
    ensures Apply(s, op).Valid()
  {
    hide Inv;
    var n := FindLive(s.rows, op.namespace);
    if n < |s.rows| {
      ReplaceKeeps(s, n, Some(s.rows[n].value.(context := s.rows[n].value.context.(live := op.live))));
    }
  }

  function Run(s: State, ops: seq<Op>): State
    decreases |ops|
  {
    if ops == [] then s else Run(Apply(s, ops[0]), ops[1..])
  }

  lemma {:induction false} RunKeeps(s: State, ops: seq<Op>)
    requires s.Valid()
    ensures Run(s, ops).Valid() && s.generation <= Run(s, ops).generation
    decreases |ops|
  {
    hide Inv, Apply;
    if ops != [] {
      ApplyKeeps(s, ops[0]);
      RunKeeps(Apply(s, ops[0]), ops[1..]);
    }
  }

  /** Every row a step leaves in an issued namespace was there before, with the same identity. */
  predicate Descends(before: Rows, after: Rows, namespace: nat) {
    forall i :: 0 <= i < |after| && Live(after[i], namespace) ==>
      i < |before| && Live(before[i], namespace) && Narrower(before[i], after[i])
  }

  lemma ApplyDescends(s: State, op: Op, namespace: nat)
    requires s.Valid() && 1 <= namespace <= s.generation
    ensures Descends(s.rows, Apply(s, op).rows, namespace)
  {
    hide Inv, CheckInstall, DistinctNamespaces, DistinctPlaces, DistinctOwners, PrimaryAlone;
    assert s.generation != 0;
    if op.Install? {
      InstallNumbers(s, op);
    }
  }

  lemma InstallNumbers(s: State, op: Op)
    requires op.Install?
    ensures var c := CheckInstall(s.rows, s.generation, op.address, op.owner, op.epoch, op.context);
            c.Ok? ==> c.value.0 < |s.rows| && c.value.1 == s.generation + 1
  {
  }

  /** An old handle never selects a later context: whatever a run leaves under a namespace issued
      before it is the context that namespace was issued for, still in its row. */
  lemma {:induction false} HandleKeepsItsContext(s: State, ops: seq<Op>, namespace: nat)
    requires s.Valid() && 1 <= namespace <= s.generation
    ensures Descends(s.rows, Run(s, ops).rows, namespace)
    decreases |ops|
  {
    hide Inv, Apply, Live;
    if ops != [] {
      var next := Apply(s, ops[0]);
      ApplyKeeps(s, ops[0]);
      ApplyDescends(s, ops[0], namespace);
      HandleKeepsItsContext(next, ops[1..], namespace);
    }
  }

  /** Namespaces are issued in strictly increasing order, so no two installs of a run share one. */
  lemma NamespaceFresh(s: State, ops: seq<Op>, op: Op)
    requires s.Valid() && op.Install?
    ensures var t := Run(s, ops);
            var c := CheckInstall(t.rows, t.generation, op.address, op.owner, op.epoch, op.context);
            c.Ok? ==> s.generation < c.value.1 == Apply(t, op).generation && c.value.1 != 0
  {
    RunKeeps(s, ops);
  }

  /** Once anything was installed, no run returns to the unprotected answer. */
  lemma NeverUnprotected(s: State, ops: seq<Op>)
    requires s.Valid() && s.generation != 0
    ensures Attached(Run(s, ops).rows, Run(s, ops).generation) && !UnrevokedPrimary(Run(s, ops).rows)
  {
    RunKeeps(s, ops);
  }
}
