/**
 The route table and its discovery document: a fixed table whose slots are route identities, and
 the `/.well-known/core` body written from it.
 */
module Sites {
  import opened Common
  import opened Slots
  import opened Strings
  import opened Paths
  import opened Catalog
  import opened LinkGrammar
  import opened LinkWriter
  import LinkOutput
  import CatalogOutput
  import LinkSyntax
  import Seqs
  import Uri
  import Utf8

  const RESPONSE_BODY: nat := 4096

  /** `methods` stands for the bound method router. */
  datatype Entry = Entry(path: Path, methods: nat, metadata: Option<Metadata>)

  datatype RouteError = BadPath(path: PathError) | Full | NotFound | BadMetadata(metadata: LinkSyntax.Error)

  type Table = seq<Option<Entry>>

  predicate EntryOk(e: Entry) {
    PathOk(e.path) && (e.metadata.Some? ==> Check(e.metadata.value).None?)
  }

  predicate Holds(table: Table, i: nat, path: Path) {
    i < |table| && table[i].Some? && table[i].value.path == path
  }

  /** Admissible entries under distinct paths. */
  predicate TableOk(table: Table) {
    && (forall i :: 0 <= i < |table| && table[i].Some? ==> EntryOk(table[i].value))
    && (forall i, j :: 0 <= i < j < |table| && table[i].Some? && table[j].Some? ==>
          table[i].value.path != table[j].value.path)
  }

  /** The slot of a path: its local route identity. */
  function Slot(table: Table, path: Path): (s: Option<nat>)
    ensures s.Some? ==> Holds(table, s.value, path) && forall j :: 0 <= j < s.value ==> !Holds(table, j, path)
    ensures s.None? ==> forall j :: 0 <= j < |table| ==> !Holds(table, j, path)
  {
    SlotFrom(table, path, 0)
  }

  function SlotFrom(table: Table, path: Path, from: nat): (s: Option<nat>)
    requires from <= |table|
    ensures s.Some? ==> from <= s.value && Holds(table, s.value, path)
                        && forall j :: from <= j < s.value ==> !Holds(table, j, path)
    ensures s.None? ==> forall j :: from <= j < |table| ==> !Holds(table, j, path)
    decreases |table| - from
  {
    if from == |table| then None
    else if Holds(table, from, path) then Some(from)
    else SlotFrom(table, path, from + 1)
  }

  function Occupied(table: Table): (es: seq<Entry>)
    ensures |es| <= |table|
  {
    if table == [] then []
    else if table[0].Some? then [table[0].value] + Occupied(table[1..])
    else Occupied(table[1..])
  }

  // The operations on values.

  datatype Op = Bind(path: Path, methods: nat)
              | Unbind(path: Path)
              | Describe(path: Path, metadata: Option<Metadata>)

  /** The effect of an operation; a refused one changes nothing. */
  function Apply(table: Table, op: Op): (t: Table)
    ensures |t| == |table|
  {
    var slot := Slot(table, op.path);
    match op
    case Bind(path, methods) =>
      if slot.Some? then table[slot.value := Some(table[slot.value].value.(methods := methods))]
      else if FirstFree(table) == |table| then table
      else table[FirstFree(table) := Some(Entry(path, methods, None))]
    case Unbind(path) =>
      if slot.Some? then table[slot.value := None] else table
    case Describe(path, metadata) =>
      if slot.Some? then table[slot.value := Some(table[slot.value].value.(metadata := metadata))] else table
  }

  predicate OpOk(op: Op) {
    PathOk(op.path) && (op.Describe? && op.metadata.Some? ==> Check(op.metadata.value).None?)
  }

  lemma ApplyOk(table: Table, op: Op)
    requires TableOk(table) && OpOk(op)
    ensures TableOk(Apply(table, op))
  {
    hide PathOk, Check;
    var slot := Slot(table, op.path);
    if op.Bind? && slot.None? && FirstFree(table) < |table| {
      forall j | 0 <= j < |table| && table[j].Some?
        ensures table[j].value.path != op.path
      {
        assert !Holds(table, j, op.path);
      }
    }
  }

  lemma SlotIs(table: Table, path: Path, i: nat)
    requires TableOk(table) && Holds(table, i, path)
    ensures Slot(table, path) == Some(i)
  {
    hide EntryOk;
    var s := Slot(table, path);
    assert s.None? ==> !Holds(table, i, path);
  }

  /** Other routes keep their slot, handler and metadata. */
  lemma OthersStay(table: Table, op: Op, path: Path)
    requires TableOk(table) && OpOk(op) && path != op.path
    ensures Slot(Apply(table, op), path) == Slot(table, path)
    ensures Slot(table, path).Some? ==>
              Apply(table, op)[Slot(table, path).value] == table[Slot(table, path).value]
  {
    hide EntryOk, OpOk;
    ApplyOk(table, op);
    var after := Apply(table, op);
    var slot := Slot(table, path);
    if slot.Some? {
      assert Holds(after, slot.value, path);
      SlotIs(after, path, slot.value);
    } else {
      assert Slot(after, path).Some? ==> Holds(table, Slot(after, path).value, path);
    }
  }

  /** The named route keeps its slot through a rebind or a new description, a rebind keeps its
      metadata, and only removal or an absent slot can lose it. */
  lemma SelfStays(table: Table, op: Op)
    requires TableOk(table) && OpOk(op) && Slot(table, op.path).Some? && !op.Unbind?
    ensures var i := Slot(table, op.path).value;
            && Slot(Apply(table, op), op.path) == Some(i)
            && (op.Bind? ==> Apply(table, op)[i].value == table[i].value.(methods := op.methods))
            && (op.Describe? ==> Apply(table, op)[i].value == table[i].value.(metadata := op.metadata))
  {
    hide EntryOk, OpOk;
    ApplyOk(table, op);
    SlotIs(Apply(table, op), op.path, Slot(table, op.path).value);
  }

  /** A new route takes the first free slot with no metadata, if there is one. */
  lemma NewRoute(table: Table, path: Path, methods: nat)
    requires TableOk(table) && PathOk(path) && Slot(table, path).None?
    ensures var after := Apply(table, Bind(path, methods));
            if FirstFree(table) == |table| then after == table
            else Slot(after, path) == Some(FirstFree(table)) && after[FirstFree(table)] == Some(Entry(path, methods, None))
  {
    hide EntryOk;
    var after := Apply(table, Bind(path, methods));
    if FirstFree(table) < |table| {
      assert EntryOk(Entry(path, methods, None)) by { NewEntryOk(path, methods); }
      ApplyOk(table, Bind(path, methods));
      SlotIs(after, path, FirstFree(table));
    }
  }

  lemma NewEntryOk(path: Path, methods: nat)
    requires PathOk(path)
    ensures EntryOk(Entry(path, methods, None)) && OpOk(Bind(path, methods))
  {
  }

  /** A removed route is gone, and its slot is free. */
  lemma RemovedRoute(table: Table, path: Path)
    requires TableOk(table) && Slot(table, path).Some?
    ensures var after := Apply(table, Unbind(path));
            Slot(after, path).None? && after[Slot(table, path).value].None?
  {
    hide EntryOk;
    var after := Apply(table, Unbind(path));
    assert Slot(after, path).Some? ==> Holds(table, Slot(after, path).value, path);
  }

  function Run(table: Table, ops: seq<Op>): (t: Table)
    ensures |t| == |table|
    decreases |ops|
  {
    if ops == [] then table else Run(Apply(table, ops[0]), ops[1..])
  }

  /** Over any run, a route that is not removed keeps its identity. */
  lemma {:induction false} IdentityStable(table: Table, ops: seq<Op>, path: Path)
    requires TableOk(table) && forall k :: 0 <= k < |ops| ==> OpOk(ops[k])
    requires Slot(table, path).Some?
    requires forall k :: 0 <= k < |ops| ==> ops[k] != Unbind(path)
    ensures TableOk(Run(table, ops))
    ensures Slot(Run(table, ops), path) == Slot(table, path)
    decreases |ops|
  {
    hide TableOk, OpOk, Apply, Slot;
    if ops != [] {
      ApplyOk(table, ops[0]);
      if ops[0].path == path {
        SelfStays(table, ops[0]);
      } else {
        OthersStay(table, ops[0], path);
      }
      IdentityStable(Apply(table, ops[0]), ops[1..], path);
    }
  }

  // Counting.

  lemma {:induction false} OccupiedConcat(a: Table, b: Table)
    ensures Occupied(a + b) == Occupied(a) + Occupied(b)
  {
    if a == [] {
      assert a + b == b;
    } else {
      OccupiedConcat(a[1..], b);
      Seqs.DropCat(a, b, 1);
    }
  }

  lemma OneOccupied(e: Option<Entry>)
    ensures Occupied([e]) == if e.Some? then [e.value] else []
  {
    assert [e][1..] == [];
  }

  lemma {:induction false} OccupiedCount(table: Table)
    ensures |Occupied(table)| == Used(table)
  {
    if table != [] {
      OccupiedCount(table[1..]);
    }
  }

  class Site {
    const capacity: nat
    var entries: Table
    var len: nat
    var wellKnown: bool

    ghost predicate Valid()
      reads this
    {
      |entries| == capacity && TableOk(entries) && len == Used(entries)
    }

    constructor (n: nat)
      ensures Valid() && capacity == n && len == 0 && !wellKnown
    {
      capacity := n;
      entries := seq(n, _ => None);
      len := 0;
      wellKnown := false;
      new;
      NoneUsed(entries);
    }

    /** The position of a path, by exact segment comparison. */
    method Position(path: Path) returns (slot: Option<nat>)
      ensures slot == Slot(entries, path)
    {
      var i := 0;
      while i < |entries|
        invariant i <= |entries|
        invariant Slot(entries, path) == SlotFrom(entries, path, i)
      {
        if entries[i].Some? && entries[i].value.path == path { return Some(i); }
        i := i + 1;
      }
      return None;
    }

    method InsertRoute(path: Path, methods: nat) returns (r: Result<(), RouteError>)
      requires Valid() && PathOk(path)
      modifies this`entries, this`len
      ensures Valid()
      ensures entries == Apply(old(entries), Bind(path, methods))
      ensures r == (if old(Slot(entries, path)).None? && old(len) == capacity then Err(Full) else Ok(()))
    {
      hide TableOk, PathOk, Used;
      ApplyOk(entries, Bind(path, methods));
      FullIff(entries);
      var slot := Position(path);
      if slot.Some? {
        UsedUpdate(entries, slot.value, Some(entries[slot.value].value.(methods := methods)));
        entries := entries[slot.value := Some(entries[slot.value].value.(methods := methods))];
        return Ok(());
      }
      if len >= capacity { return Err(Full); }
      var index := FindFree(entries);
      if index == |entries| { return Err(Full); }
      UsedUpdate(entries, index, Some(Entry(path, methods, None)));
      entries := entries[index := Some(Entry(path, methods, None))];
      len := len + 1;
      return Ok(());
    }

    method RemovePath(path: Path) returns (removed: bool)
      requires Valid() && PathOk(path)
      modifies this`entries, this`len
      ensures Valid()
      ensures entries == Apply(old(entries), Unbind(path))
      ensures removed == old(Slot(entries, path)).Some?
    {
      hide TableOk, PathOk, Used;
      ApplyOk(entries, Unbind(path));
      var slot := Position(path);
      if slot.None? { return false; }
      UsedUpdate(entries, slot.value, None);
      entries := entries[slot.value := None];
      len := len - 1;
      return true;
    }

    /** `try_route`. */
    method TryRoute(path: string, methods: nat) returns (r: Result<(), RouteError>)
      requires Valid()
      modifies this`entries, this`len
      ensures Valid()
      ensures r.Err? ==> entries == old(entries) && len == old(len)
      ensures r.Ok? ==> PathOk(Pieces(path)) && entries == Apply(old(entries), Bind(Pieces(path), methods))
      ensures r.Ok? <==> PathOk(Pieces(path)) && (old(Slot(entries, Pieces(path))).Some? || old(len) < capacity)
    {
      hide TableOk, PathOk, Used, Pieces;
      var parsed := FromText(path);
      if parsed.Err? { return Err(BadPath(parsed.error)); }
      FullIff(entries);
      r := InsertRoute(parsed.value, methods);
    }

    /** `set_discovery_metadata`: path, then metadata, then presence. */
    method SetDiscoveryMetadata(path: string, metadata: Option<Metadata>) returns (r: Result<(), RouteError>)
      requires Valid()
      modifies this`entries
      ensures Valid()
      ensures r.Err? ==> entries == old(entries)
      ensures r.Ok? ==> PathOk(Pieces(path)) && entries == Apply(old(entries), Describe(Pieces(path), metadata))
      ensures r.Ok? <==> && PathOk(Pieces(path)) && old(Slot(entries, Pieces(path))).Some?
                         && (metadata.Some? ==> Check(metadata.value).None? && LinkOutput.EncodedSize(metadata.value) <= USIZE_MAX)
      ensures PathOk(Pieces(path)) && metadata.Some? && Check(metadata.value).Some? ==>
                r == Err(BadMetadata(Check(metadata.value).value))
    {
      hide TableOk, PathOk, Used, Pieces, Check, LinkOutput.EncodedSize;
      var parsed := FromText(path);
      if parsed.Err? { return Err(BadPath(parsed.error)); }
      if metadata.Some? {
        var size := LinkOutput.EncodedLen(metadata.value);
        if size.Err? { return Err(BadMetadata(size.error)); }
      }
      var slot := Position(parsed.value);
      if slot.None? { return Err(NotFound); }
      ApplyOk(entries, Describe(parsed.value, metadata));
      UsedUpdate(entries, slot.value, Some(entries[slot.value].value.(metadata := metadata)));
      entries := entries[slot.value := Some(entries[slot.value].value.(metadata := metadata))];
      return Ok(());
    }

    /** `link_format`: the catalog of every registered route, or 5.00 exactly when it does not fit. */
    method LinkFormat(storage: array<Byte>) returns (body: Option<nat>)
      requires Valid() && storage.Length <= USIZE_MAX
      modifies storage
      ensures body.Some? <==> LinkOutput.Size(CatalogText(entries)) <= Min(RESPONSE_BODY, storage.Length)
      ensures body.Some? ==> body.value == LinkOutput.Size(CatalogText(entries))
                             && storage[..body.value] == Utf8.Encode(CatalogText(entries))
    {
      hide EntryOk, Render, Occupied, Utf8.Encode, Links, RenderLink, Link;
      var cap := Min(RESPONSE_BODY, storage.Length);
      var n := 0;
      var first := true;
      CatalogStarts();
      assert entries[..0] == [] && storage[..0] == [];
      for i := 0 to |entries|
        invariant n <= cap && first == (Occupied(entries[..i]) == [])
        invariant storage[..n] == Utf8.Encode(CatalogText(entries[..i]))
      {
        CatalogNext(entries, i);
        if entries[i].Some? {
          var ok, next := WriteEntry(storage, cap, n, entries[i].value, first);
          LinkOutput.SizeGrows(CatalogText(entries[..i]), Piece(entries[i].value, first));
          if !ok { CatalogPrefix(entries, i + 1); return None; }
          assert storage[..next] == storage[..n] + storage[n..next];
          n := next;
          first := false;
        }
      }
      assert entries[..|entries|] == entries;
      return Some(n);
    }
  }

  // The catalog text.

  function Link(e: Entry): Parsed {
    Parsed(Target(e.path), if e.metadata.None? then [] else Described(e.metadata.value))
  }

  function Links(es: seq<Entry>): (ps: seq<Parsed>)
    ensures |ps| == |es|
    ensures forall i :: 0 <= i < |es| ==> ps[i] == Link(es[i])
  {
    seq(|es|, i requires 0 <= i < |es| => Link(es[i]))
  }

  function CatalogText(table: Table): string {
    Render(Links(Occupied(table)))
  }

  /** What one entry adds. */
  function Piece(e: Entry, first: bool): string {
    (if first then "" else ",") + RenderLink(Link(e))
  }

  lemma CatalogStarts()
    ensures CatalogText([]) == "" && Occupied([]) == [] && Utf8.Encode(CatalogText([])) == []
  {
  }

  lemma {:induction false} RenderSnoc(ps: seq<Parsed>, p: Parsed)
    ensures Render(ps + [p]) == Render(ps) + ((if ps == [] then "" else ",") + RenderLink(p))
    decreases |ps|
  {
    hide RenderLink;
    if ps == [] {
      assert ps + [p] == [p];
      assert "" + RenderLink(p) == RenderLink(p);
    } else if |ps| == 1 {
      assert (ps + [p])[1..] == [p];
    } else {
      hide Render;
      RenderSnoc(ps[1..], p);
      var head, tail := RenderLink(ps[0]) + ",", Render(ps[1..]);
      assert (ps + [p])[1..] == ps[1..] + [p];
      RenderHead(ps);
      RenderHead(ps + [p]);
      Seqs.Assoc(head, tail, "," + RenderLink(p));
    }
  }

  lemma RenderHead(ps: seq<Parsed>)
    requires |ps| >= 2
    ensures Render(ps) == RenderLink(ps[0]) + "," + Render(ps[1..])
  {
  }

  lemma CatalogNext(table: Table, i: nat)
    requires i < |table|
    ensures table[i].None? ==> Occupied(table[..i + 1]) == Occupied(table[..i])
    ensures table[i].Some? ==> Occupied(table[..i + 1]) == Occupied(table[..i]) + [table[i].value]
    ensures table[i].Some? ==>
              CatalogText(table[..i + 1]) == CatalogText(table[..i]) + Piece(table[i].value, Occupied(table[..i]) == [])
  {
    hide Render, RenderLink, Link;
    Seqs.TakeNext(table, i);
    OccupiedConcat(table[..i], [table[i]]);
    OneOccupied(table[i]);
    if table[i].Some? {
      var es := Occupied(table[..i]);
      assert Links(es + [table[i].value]) == Links(es) + [Link(table[i].value)];
      RenderSnoc(Links(es), Link(table[i].value));
    }
  }

  /** Later entries only lengthen the text. */
  lemma {:induction false} CatalogPrefix(table: Table, i: nat)
    requires i <= |table|
    ensures LinkOutput.Size(CatalogText(table[..i])) <= LinkOutput.Size(CatalogText(table))
    decreases |table| - i
  {
    hide CatalogText, Piece, Occupied;
    if i == |table| {
      assert table[..i] == table;
    } else {
      CatalogNext(table, i);
      CatalogSame(table[..i], table[..i + 1]);
      CatalogPrefix(table, i + 1);
      if table[i].Some? {
        LinkOutput.SizeGrows(CatalogText(table[..i]), Piece(table[i].value, Occupied(table[..i]) == []));
      }
    }
  }

  lemma CatalogSame(a: Table, b: Table)
    ensures Occupied(a) == Occupied(b) ==> CatalogText(a) == CatalogText(b)
  {
  }

  lemma EntryText(e: Entry)
    ensures RenderLink(Link(e))
         == CatalogOutput.Bracketed(e.path) + RenderAttributes(if e.metadata.None? then [] else Described(e.metadata.value))
  {
    hide RenderAttributes, Described, Target;
  }

  lemma NoAttributes()
    ensures RenderAttributes([]) == ""
  {
  }

  /** The comma between links, and the target. */
  function Head(path: Path, first: bool): string {
    (if first then "" else ",") + CatalogOutput.Bracketed(path)
  }

  method WriteHead(storage: array<Byte>, cap: nat, at: nat, path: Path, first: bool) returns (ok: bool, n: nat)
    requires at <= cap <= storage.Length <= USIZE_MAX
    modifies storage
    ensures ok <==> at + LinkOutput.Size(Head(path, first)) <= cap
    ensures ok ==> n == at + LinkOutput.Size(Head(path, first))
    ensures ok ==> storage[at..n] == Utf8.Encode(Head(path, first))
    ensures storage[..at] == old(storage[..at])
  {
    hide Utf8.Encode, CatalogOutput.Bracketed, CatalogOutput.Wrote;
    ghost var comma := if first then "" else ",";
    ghost var open := CatalogOutput.Bracketed(path);
    CommaBytes();
    LinkOutput.SizeGrows(comma, open);
    CatalogOutput.BracketedAscii(path);
    Utf8.EncodeAscii(open);
    n := at;
    if !first {
      if n >= cap { return false, n; }
      storage[n] := ',' as int;
      n := n + 1;
    }
    ghost var c := n;
    ghost var before := storage[..];
    assert before[at..c] == Utf8.Encode(comma);
    assert before[..at] == old(storage[..at]);
    ok, n := CatalogOutput.WriteLink(storage, cap, n, path);
    if !ok { assert storage[..at] == before[..at]; return; }
    ghost var linked := storage[..];
    CatalogOutput.WroteEncoded(before, linked, c, open);
    Kept(before, linked, at, c);
    Stacked(linked, at, c, n);
    assert storage[at..n] == linked[at..n] && storage[..at] == linked[..at];
  }

  /** One entry: its head and its attributes. */
  method WriteEntry(storage: array<Byte>, cap: nat, at: nat, e: Entry, first: bool) returns (ok: bool, n: nat)
    requires at <= cap <= storage.Length <= USIZE_MAX && EntryOk(e)
    modifies storage
    ensures ok <==> at + LinkOutput.Size(Piece(e, first)) <= cap
    ensures ok ==> n == at + LinkOutput.Size(Piece(e, first))
    ensures ok ==> storage[at..n] == Utf8.Encode(Piece(e, first))
    ensures storage[..at] == old(storage[..at])
  {
    hide Utf8.Encode, Described, RenderAttributes, Head, PathOk, Check, Piece;
    ghost var tail := RenderAttributes(if e.metadata.None? then [] else Described(e.metadata.value));
    PieceText(e, first);
    LinkOutput.SizeGrows(Head(e.path, first), tail);
    ok, n := WriteHead(storage, cap, at, e.path, first);
    if !ok { return; }
    ghost var linked := storage[..];
    ghost var m := n;
    if e.metadata.Some? {
      var written := LinkOutput.WriteInto(e.metadata.value, storage, n, cap);
      if written.Err? { assert storage[..at] == linked[..at]; return false, n; }
      n := n + written.value;
    } else {
      NoAttributes();
      CommaBytes();
    }
    ghost var after := storage[..];
    assert after[..m] == linked[..m];
    assert after[m..n] == Utf8.Encode(tail);
    Kept(linked, after, at, m);
    Stacked(after, at, m, n);
    assert storage[at..n] == after[at..n] && storage[..at] == after[..at] && linked[..at] == old(storage[..at]);
  }

  lemma PieceText(e: Entry, first: bool)
    ensures Piece(e, first)
         == Head(e.path, first) + RenderAttributes(if e.metadata.None? then [] else Described(e.metadata.value))
  {
    hide RenderAttributes, Described, CatalogOutput.Bracketed, RenderLink, Link;
    EntryText(e);
    var tail := RenderAttributes(if e.metadata.None? then [] else Described(e.metadata.value));
    Seqs.Assoc(if first then "" else ",", CatalogOutput.Bracketed(e.path), tail);
  }

  lemma Kept(before: seq<Byte>, after: seq<Byte>, at: nat, c: nat)
    requires at <= c <= |before| && |after| == |before| && after[..c] == before[..c]
    ensures after[at..c] == before[at..c] && after[..at] == before[..at]
  {
    assert after[..c][at..] == after[at..c] && before[..c][at..] == before[at..c];
    assert after[..c][..at] == after[..at] && before[..c][..at] == before[..at];
  }

  lemma Stacked(s: seq<Byte>, a: nat, b: nat, c: nat)
    requires a <= b <= c <= |s|
    ensures s[a..c] == s[a..b] + s[b..c]
  {
  }

  lemma CommaBytes()
    ensures Utf8.Encode("") == [] && Utf8.Encode(",") == [',' as int]
  {
  }

  // The round trip.

  lemma LinkIsOk(e: Entry)
    requires EntryOk(e)
    ensures LinkOk(Link(e))
  {
    hide Described, AllOk, Admissible, LinkSyntax.UriChars, Target, Check;
    TargetReads(e.path);
    if e.metadata.Some? {
      DescribedOk(e.metadata.value);
    } else {
      EmptyOk();
    }
  }

  lemma EmptyOk()
    ensures AllOk([]) && Admissible([])
  {
  }

  lemma {:induction false} OccupiedFrom(table: Table, i: nat)
    requires TableOk(table) && i < |Occupied(table)|
    ensures exists j :: 0 <= j < |table| && table[j] == Some(Occupied(table)[i])
    ensures EntryOk(Occupied(table)[i])
  {
    hide EntryOk;
    var rest := table[1..];
    assert forall k :: 0 <= k < |rest| ==> rest[k] == table[k + 1];
    if table[0].Some? {
      if i == 0 {
        assert table[0] == Some(Occupied(table)[0]);
      } else {
        OccupiedFrom(rest, i - 1);
        var j :| 0 <= j < |rest| && rest[j] == Some(Occupied(rest)[i - 1]);
        assert table[j + 1] == Some(Occupied(table)[i]);
      }
    } else {
      OccupiedFrom(rest, i);
      var j :| 0 <= j < |rest| && rest[j] == Some(Occupied(rest)[i]);
      assert table[j + 1] == Some(Occupied(table)[i]);
    }
  }

  /** The discovery document, read by the library's own parser, is the registered routes in slot
      order with their attributes. */
  lemma CatalogRoundTrip(table: Table)
    requires TableOk(table)
    ensures ParsesTo(CatalogText(table), Links(Occupied(table)))
  {
    hide TableOk, LinkOk, Occupied, Render, ParsesTo, Link;
    var es := Occupied(table);
    forall i | 0 <= i < |es|
      ensures LinkOk(Link(es[i]))
    {
      OccupiedFrom(table, i);
      LinkIsOk(es[i]);
    }
    ParsesExactly(CatalogText(table), Links(es));
  }

  /** From the response bytes to the routes: the body is UTF-8, its text parses to one link for
      each registered route, and each target splits and decodes to that route's own segments. */
  lemma DiscoveryFindsRoutes(table: Table, body: seq<Byte>)
    requires TableOk(table) && body == Utf8.Encode(CatalogText(table))
    ensures Utf8.WellFormed(body)
    ensures var es := Occupied(table);
            && ParsesTo(Utf8.Decode(body), Links(es))
            && (forall i :: 0 <= i < |es| ==>
                  var segments := Uri.PathSegments(Links(es)[i].target);
                  && |segments| == |es[i].path|
                  && forall k :: 0 <= k < |segments| ==>
                       Uri.Decodable(segments[k]) && Utf8.Decode(Uri.Decoded(segments[k])) == es[i].path[k])
  {
    hide TableOk, Occupied, ParsesTo, CatalogText, Uri.PathSegments, Uri.Decoded, Utf8.Decode, Utf8.Encode, Described;
    Utf8.DecodeEncode(CatalogText(table));
    CatalogRoundTrip(table);
    var es := Occupied(table);
    forall i | 0 <= i < |es|
      ensures var segments := Uri.PathSegments(Links(es)[i].target);
              && |segments| == |es[i].path|
              && forall k :: 0 <= k < |segments| ==>
                   Uri.Decodable(segments[k]) && Utf8.Decode(Uri.Decoded(segments[k])) == es[i].path[k]
    {
      OccupiedFrom(table, i);
      TargetRoundTrip(es[i].path);
    }
  }
}
