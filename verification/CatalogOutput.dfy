/** Writing one link target into the discovery buffer: counted first, then written byte by byte. */
module CatalogOutput {
  import opened Common
  import opened Paths
  import opened Catalog
  import Seqs
  import Utf8

  lemma {:induction false} EscapeConcat(a: seq<Byte>, b: seq<Byte>)
    ensures EscapeBytes(a + b) == EscapeBytes(a) + EscapeBytes(b)
  {
    hide EscapeByte;
    if a == [] {
      assert a + b == b;
    } else {
      EscapeConcat(a[1..], b);
      Seqs.DropCat(a, b, 1);
      Seqs.Assoc(EscapeByte(a[0]), EscapeBytes(a[1..]), EscapeBytes(b));
    }
  }

  lemma EscapeNext(bytes: seq<Byte>, i: nat)
    requires i < |bytes|
    ensures EscapeBytes(bytes[..i + 1]) == EscapeBytes(bytes[..i]) + EscapeByte(bytes[i])
    ensures |EscapeBytes(bytes[..i + 1])| <= |EscapeBytes(bytes)|
  {
    hide EscapeByte;
    Seqs.TakeNext(bytes, i);
    EscapeConcat(bytes[..i], [bytes[i]]);
    assert EscapeBytes([bytes[i]]) == EscapeByte(bytes[i]) + EscapeBytes([bytes[i]][1..]);
    Seqs.SplitAt(bytes, i + 1);
    EscapeConcat(bytes[..i + 1], bytes[i + 1..]);
  }

  lemma {:induction false} SlashedConcat(a: Path, b: Path)
    ensures Slashed(a + b) == Slashed(a) + Slashed(b)
    decreases |a|
  {
    hide Segment;
    if a == [] {
      assert a + b == b;
    } else {
      SlashedConcat(a[1..], b);
      Seqs.DropCat(a, b, 1);
      Seqs.Assoc("/" + Segment(a[0]), Slashed(a[1..]), Slashed(b));
    }
  }

  lemma SlashedNext(path: Path, i: nat)
    requires i < |path|
    ensures Slashed(path[..i + 1]) == Slashed(path[..i]) + ("/" + Segment(path[i]))
    ensures |Slashed(path[..i + 1])| <= |Slashed(path)|
  {
    hide Segment;
    Seqs.TakeNext(path, i);
    SlashedConcat(path[..i], [path[i]]);
    assert Slashed([path[i]]) == "/" + Segment(path[i]) + Slashed([path[i]][1..]);
    Seqs.SplitAt(path, i + 1);
    SlashedConcat(path[..i + 1], path[i + 1..]);
  }

  // The counting pass.

  /** The inner fold: `total` plus the escaped length, as long as it stays within the limit. */
  method SegmentBytes(bytes: seq<Byte>, total: nat, limit: nat) returns (r: Option<nat>)
    requires total <= limit <= USIZE_MAX
    ensures var n := total + |EscapeBytes(bytes)|; r == if n <= limit then Some(n) else None
  {
    hide EscapeBytes, EscapeByte;
    var n := total;
    assert EscapeBytes(bytes[..0]) == "" by { Nothing(); }
    for i := 0 to |bytes|
      invariant n == total + |EscapeBytes(bytes[..i])| && n <= limit
    {
      EscapeNext(bytes, i);
      EscapeWidth(bytes[i]);
      n := n + if Literal(bytes[i]) then 1 else 3;
      if n > USIZE_MAX || n > limit { return None; }
    }
    assert bytes[..|bytes|] == bytes;
    return Some(n);
  }

  lemma Nothing()
    ensures EscapeBytes([]) == "" && Slashed([]) == ""
  {
  }

  lemma EscapeWidth(b: Byte)
    ensures |EscapeByte(b)| == if Literal(b) then 1 else 3
  {
  }

  /** `link_bytes`: the length of `<target>` when it is within the limit. */
  method LinkBytes(path: Path, limit: nat) returns (r: Option<nat>)
    requires limit <= USIZE_MAX
    ensures var n := |Target(path)| + 2; r == if n <= limit then Some(n) else None
  {
    hide Slashed, Segment;
    if path == [] {
      return if limit >= 3 then Some(3) else None;
    }
    var total := 2;
    Nothing();
    assert path[..0] == [];
    for i := 0 to |path|
      invariant total == 2 + |Slashed(path[..i])| && (i > 0 ==> total <= limit)
    {
      SlashedNext(path, i);
      total := total + 1;
      if total > USIZE_MAX || total > limit { SegmentPart(path[i]); return None; }
      SegmentPart(path[i]);
      var more := SegmentBytes(Utf8.Encode(path[i]), total, limit);
      if more.None? { return None; }
      total := more.value;
    }
    assert path[..|path|] == path;
    return Some(total);
  }

  lemma SegmentPart(segment: string)
    ensures |"/" + Segment(segment)| == 1 + |EscapeBytes(Utf8.Encode(segment))|
  {
  }

  // The writing pass.

  /** `after` is `before` with the ASCII `text` put at `from`. */
  ghost predicate Wrote(before: seq<Byte>, after: seq<Byte>, from: nat, text: string) {
    && |after| == |before| && from + |text| <= |after|
    && (forall i {:trigger after[i]} :: from <= i < from + |text| ==> after[i] == text[i - from] as int)
    && (forall i {:trigger after[i]} :: 0 <= i < |after| && !(from <= i < from + |text|) ==> after[i] == before[i])
  }

  lemma WroteMore(before: seq<Byte>, mid: seq<Byte>, after: seq<Byte>, from: nat, a: string, b: string)
    requires Wrote(before, mid, from, a) && Wrote(mid, after, from + |a|, b)
    ensures Wrote(before, after, from, a + b)
  {
    forall i | 0 <= i < |after|
      ensures after[i] == if from <= i < from + |a + b| then (a + b)[i - from] as int else before[i]
    {
      assert mid[i] == if from <= i < from + |a| then a[i - from] as int else before[i];
    }
  }

  method Put(buf: array<Byte>, at: nat, c: char)
    requires at < buf.Length && Utf8.IsAscii(c)
    modifies buf
    ensures Wrote(old(buf[..]), buf[..], at, [c])
  {
    buf[at] := c as int;
  }

  method PutByte(buf: array<Byte>, at: nat, byte: Byte) returns (n: nat)
    requires at + |EscapeByte(byte)| <= buf.Length
    modifies buf
    ensures n == at + |EscapeByte(byte)|
    ensures Wrote(old(buf[..]), buf[..], at, EscapeByte(byte))
  {
    if Literal(byte) {
      buf[at] := byte;
      n := at + 1;
    } else {
      buf[at] := '%' as int;
      buf[at + 1] := HexChar(byte / 16) as int;
      buf[at + 2] := HexChar(byte % 16) as int;
      n := at + 3;
    }
  }

  method PutSegment(buf: array<Byte>, at: nat, bytes: seq<Byte>) returns (n: nat)
    requires at + |EscapeBytes(bytes)| <= buf.Length
    modifies buf
    ensures n == at + |EscapeBytes(bytes)|
    ensures Wrote(old(buf[..]), buf[..], at, EscapeBytes(bytes))
  {
    hide EscapeBytes, EscapeByte, Wrote;
    n := at;
    ghost var start := buf[..];
    Nothing();
    assert bytes[..0] == [];
    assert Wrote(start, start, at, "") by { WroteNothing(start, at); }
    for i := 0 to |bytes|
      invariant n == at + |EscapeBytes(bytes[..i])|
      invariant Wrote(start, buf[..], at, EscapeBytes(bytes[..i]))
    {
      ghost var mid := buf[..];
      EscapeNext(bytes, i);
      n := PutByte(buf, n, bytes[i]);
      WroteMore(start, mid, buf[..], at, EscapeBytes(bytes[..i]), EscapeByte(bytes[i]));
    }
    assert bytes[..|bytes|] == bytes;
  }

  lemma WroteNothing(buf: seq<Byte>, at: nat)
    requires at <= |buf|
    ensures Wrote(buf, buf, at, "")
  {
  }

  method PutSegments(buf: array<Byte>, at: nat, path: Path) returns (n: nat)
    requires at + |Slashed(path)| <= buf.Length
    modifies buf
    ensures n == at + |Slashed(path)|
    ensures Wrote(old(buf[..]), buf[..], at, Slashed(path))
  {
    hide Slashed, EscapeBytes, Wrote;
    n := at;
    ghost var start := buf[..];
    Nothing();
    assert path[..0] == [];
    assert Wrote(start, start, at, "") by { WroteNothing(start, at); }
    for i := 0 to |path|
      invariant n == at + |Slashed(path[..i])|
      invariant Wrote(start, buf[..], at, Slashed(path[..i]))
    {
      ghost var before := buf[..];
      SlashedNext(path, i);
      Put(buf, n, '/');
      ghost var mid := buf[..];
      n := PutSegment(buf, n + 1, Utf8.Encode(path[i]));
      WroteMore(before, mid, buf[..], at + |Slashed(path[..i])|, "/", Segment(path[i]));
      WroteMore(start, before, buf[..], at, Slashed(path[..i]), "/" + Segment(path[i]));
    }
    assert path[..|path|] == path;
  }

  /** The text between the comma and the attributes. */
  function Bracketed(path: Path): string {
    "<" + Target(path) + ">"
  }

  /** `write_link` into `buf[..cap]`: all of the link or nothing. */
  method WriteLink(buf: array<Byte>, cap: nat, at: nat, path: Path) returns (ok: bool, n: nat)
    requires at <= cap <= buf.Length <= USIZE_MAX
    modifies buf
    ensures ok <==> at + |Bracketed(path)| <= cap
    ensures ok ==> n == at + |Bracketed(path)| && Wrote(old(buf[..]), buf[..], at, Bracketed(path))
    ensures !ok ==> n == at && buf[..] == old(buf[..])
  {
    hide Slashed, Wrote;
    var bytes := LinkBytes(path, cap - at);
    if bytes.None? { return false, at; }
    ghost var start := buf[..];
    Put(buf, at, '<');
    ghost var begun := buf[..];
    if path == [] {
      Put(buf, at + 1, '/');
      n := at + 2;
    } else {
      n := PutSegments(buf, at + 1, path);
    }
    ghost var mid := buf[..];
    WroteMore(start, begun, mid, at, "<", Target(path));
    Put(buf, n, '>');
    WroteMore(start, mid, buf[..], at, "<" + Target(path), ">");
    return true, n + 1;
  }

  lemma WroteEncoded(before: seq<Byte>, after: seq<Byte>, from: nat, text: string)
    requires Wrote(before, after, from, text)
    requires forall i :: 0 <= i < |text| ==> Utf8.IsAscii(text[i])
    ensures after[from..from + |text|] == Utf8.Encode(text)
    ensures |Utf8.Encode(text)| == |text|
    ensures after[..from] == before[..from]
  {
    Utf8.EncodeAscii(text);
  }

  lemma BracketedAscii(path: Path)
    ensures forall i :: 0 <= i < |Bracketed(path)| ==> Utf8.IsAscii(Bracketed(path)[i])
  {
    hide Target;
    TargetReads(path);
  }
}
