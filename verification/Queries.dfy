/** Query values packed into one fixed buffer, and read back in order. */
module Queries {
  import opened Common
  import Paths
  import Seqs
  import Utf8

  const BUFFER: nat := 256
  const MAX_VALUE: nat := 255

  /** `lengths` covers `count` values laid end to end in `bytes`. */
  datatype Retained = Retained(bytes: seq<Byte>, lengths: seq<nat>, count: nat)

  function Size(query: string): nat {
    |Utf8.Encode(query)|
  }

  /** The values laid end to end. */
  function Flat(queries: seq<string>): seq<Byte> {
    if queries == [] then [] else Flat(queries[..|queries| - 1]) + Utf8.Encode(queries[|queries| - 1])
  }

  /** What the buffer can hold. */
  predicate Packable(queries: seq<string>) {
    && |queries| <= Paths.MAX_PATH_SEGMENTS && |Flat(queries)| <= BUFFER
    && forall i :: 0 <= i < |queries| ==> Size(queries[i]) <= MAX_VALUE
  }

  predicate Packs(r: Retained, queries: seq<string>) {
    && |r.bytes| == BUFFER && |r.lengths| == Paths.MAX_PATH_SEGMENTS
    && r.count == |queries| <= |r.lengths| && Flat(queries) <= r.bytes
    && forall i :: 0 <= i < |queries| ==> r.lengths[i] == Size(queries[i])
  }

  lemma FlatNext(queries: seq<string>, k: nat)
    requires k < |queries|
    ensures Flat(queries[..k + 1]) == Flat(queries[..k]) + Utf8.Encode(queries[k])
  {
    var next := queries[..k + 1];
    assert next[..|next| - 1] == queries[..k] && next[|next| - 1] == queries[k];
  }

  lemma {:induction false} FlatPrefix(queries: seq<string>, i: nat, k: nat)
    requires i <= k <= |queries|
    ensures Flat(queries[..i]) <= Flat(queries[..k])
    decreases k - i
  {
    hide Flat;
    if i < k {
      FlatNext(queries, k - 1);
      FlatPrefix(queries, i, k - 1);
    }
  }

  /** Where value `i` lies in any buffer that starts with the values. */
  lemma FlatSlice(queries: seq<string>, i: nat, bytes: seq<Byte>)
    requires i < |queries| && Flat(queries) <= bytes
    ensures var at := |Flat(queries[..i])|;
            at + Size(queries[i]) <= |bytes| && bytes[at..at + Size(queries[i])] == Utf8.Encode(queries[i])
  {
    hide Flat, Utf8.Encode;
    FlatNext(queries, i);
    FlatPrefix(queries, i + 1, |queries|);
    assert queries[..|queries|] == queries;
    Within(Flat(queries[..i]), Utf8.Encode(queries[i]), bytes);
  }

  lemma Within(a: seq<Byte>, b: seq<Byte>, bytes: seq<Byte>)
    requires a + b <= bytes
    ensures bytes[|a|..|a| + |b|] == b
  {
    assert bytes[|a|..|a| + |b|] == bytes[..|a + b|][|a|..];
  }

  lemma Spliced(bytes: seq<Byte>, at: seq<Byte>, value: seq<Byte>)
    requires at <= bytes && |at| + |value| <= |bytes|
    ensures var s := bytes[..|at|] + value + bytes[|at| + |value|..];
            |s| == |bytes| && at + value <= s
  {
  }

  /** `RetainedQueries::new`: accepts exactly what fits. */
  method New(queries: seq<string>) returns (r: Option<Retained>)
    ensures r.Some? <==> Packable(queries)
    ensures r.Some? ==> Packs(r.value, queries)
  {
    hide Utf8.Encode, Flat;
    if |queries| > Paths.MAX_PATH_SEGMENTS { return None; }
    var bytes: seq<Byte> := seq(BUFFER, _ => 0);
    var lengths: seq<nat> := seq(Paths.MAX_PATH_SEGMENTS, _ => 0);
    var offset := 0;
    assert Flat(queries[..0]) == [] by { FlatNone(queries); }
    for i := 0 to |queries|
      invariant |bytes| == BUFFER && |lengths| == Paths.MAX_PATH_SEGMENTS
      invariant offset == |Flat(queries[..i])| && Flat(queries[..i]) <= bytes
      invariant forall j :: 0 <= j < i ==> lengths[j] == Size(queries[j]) <= MAX_VALUE
    {
      FlatNext(queries, i);
      FlatPrefix(queries, i + 1, |queries|);
      assert queries[..|queries|] == queries;
      var value := Utf8.Encode(queries[i]);
      if |value| > MAX_VALUE || |value| > BUFFER - offset { return None; }
      Spliced(bytes, Flat(queries[..i]), value);
      bytes := bytes[..offset] + value + bytes[offset + |value|..];
      lengths := lengths[i := |value|];
      offset := offset + |value|;
    }
    assert queries[..|queries|] == queries;
    return Some(Retained(bytes, lengths, |queries|));
  }

  lemma FlatNone(queries: seq<string>)
    ensures Flat(queries[..0]) == []
  {
  }

  /** `values`: the packed values, in their original order. */
  method Values(r: Retained, ghost queries: seq<string>) returns (values: seq<string>)
    requires Packs(r, queries)
    ensures values == queries
  {
    hide Utf8.Encode, Utf8.Decode, Utf8.WellFormed, Flat;
    values := [];
    var offset := 0;
    FlatNone(queries);
    for i := 0 to r.count
      invariant |values| == i && values == queries[..i] && offset == |Flat(queries[..i])|
    {
      FlatNext(queries, i);
      FlatSlice(queries, i, r.bytes);
      Utf8.DecodeEncode(queries[i]);
      var end := offset + r.lengths[i];
      values := values + [Utf8.Decode(r.bytes[offset..end])];
      offset := end;
      Seqs.TakeNext(queries, i);
    }
    assert queries[..|queries|] == queries;
  }

  lemma {:induction false} SameValues(r: Retained, a: seq<string>, b: seq<string>, k: nat)
    requires Packs(r, a) && Packs(r, b) && k <= r.count
    ensures a[..k] == b[..k]
    decreases k
  {
    hide Utf8.Encode, Flat, Utf8.WellFormed;
    if k > 0 {
      SameValues(r, a, b, k - 1);
      FlatSlice(a, k - 1, r.bytes);
      FlatSlice(b, k - 1, r.bytes);
      SameText(a[k - 1], b[k - 1]);
      Seqs.TakeNext(a, k - 1);
      Seqs.TakeNext(b, k - 1);
    }
  }

  lemma SameText(a: string, b: string)
    requires Utf8.Encode(a) == Utf8.Encode(b)
    ensures a == b
  {
    Utf8.DecodeEncode(a);
    Utf8.DecodeEncode(b);
  }

  /** A packed buffer stands for one list, so comparing read-back values compares the lists. */
  lemma PackedDetermines(r: Retained, a: seq<string>, b: seq<string>)
    requires Packs(r, a) && Packs(r, b)
    ensures a == b
  {
    SameValues(r, a, b, r.count);
    assert a[..r.count] == a && b[..r.count] == b;
  }
}
