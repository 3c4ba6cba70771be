/** Wrapper types shared by every module. */
module Common {

  datatype Option<+T> = None | Some(value: T)

  datatype Result<+T, +E> = Ok(value: T) | Err(error: E)

  type Byte = b: int | 0 <= b < 256

  function Min(a: int, b: int): (m: int)
    ensures m <= a && m <= b && (m == a || m == b)
  {
    if a <= b then a else b
  }

  function Max(a: int, b: int): (m: int)
    ensures m >= a && m >= b && (m == a || m == b)
  {
    if a >= b then a else b
  }

  /** Rust's `usize` on the 64-bit hosts the library is built for. */
  const USIZE_MAX: nat := 0xFFFF_FFFF_FFFF_FFFF

  /** Rust's `u64`; clocks and deadlines saturate here. */
  const U64_MAX: nat := 0xFFFF_FFFF_FFFF_FFFF

  function SatSub(a: nat, b: nat): (d: nat)
    ensures if b <= a then b + d == a else d == 0
  {
    if a >= b then a - b else 0
  }

  function SatAdd(a: nat, b: nat): (n: nat)
    ensures n <= a + b && n <= 0xFFFF_FFFF_FFFF_FFFF && (n == a + b || n == 0xFFFF_FFFF_FFFF_FFFF)
  {
    if a + b > U64_MAX then U64_MAX else a + b
  }
}

/** Sequence facts the solver should not have to rediscover inside larger proofs. */
module Seqs {
  lemma Assoc<T>(a: seq<T>, b: seq<T>, c: seq<T>)
    ensures a + b + c == a + (b + c)
  {
  }

  lemma HeadTail<T>(s: seq<T>)
    requires s != []
    ensures s == [s[0]] + s[1..]
  {
  }

  lemma CutAt<T>(s: seq<T>, n: nat)
    requires n < |s|
    ensures s == s[..n] + [s[n]] + s[n + 1..]
  {
  }

  lemma SplitAt<T>(s: seq<T>, n: nat)
    requires n <= |s|
    ensures s == s[..n] + s[n..]
  {
  }

  lemma TakeNext<T>(s: seq<T>, n: nat)
    requires n < |s|
    ensures s[..n + 1] == s[..n] + [s[n]]
  {
  }

  lemma DropCat<T>(a: seq<T>, b: seq<T>, n: nat)
    requires n <= |a|
    ensures (a + b)[n..] == a[n..] + b
    ensures (a + b)[..n] == a[..n]
  {
  }

  lemma Drop2<T>(s: seq<T>, i: nat, n: nat)
    requires i + n <= |s|
    ensures s[i..][n..] == s[i + n..]
    ensures s[i..][..n] == s[i..i + n]
  {
  }
}

/** Map facts with their cardinalities. */
module Maps {
  lemma MapPut<K, V>(m: map<K, V>, k: K, v: V)
    ensures |m[k := v]| == if k in m then |m| else |m| + 1
    ensures m[k := v].Keys == m.Keys + {k}
  {
    assert m[k := v].Keys == m.Keys + {k};
    assert |m[k := v].Keys| == |m.Keys + {k}|;
  }

  lemma MapTwice<K, V>(m: map<K, V>, k: K, a: V, b: V)
    ensures m[k := a][k := b] == m[k := b]
  {
  }

  lemma MapSame<K, V>(m: map<K, V>, k: K)
    requires k !in m
    ensures m - {k} == m
  {
  }

  lemma MapMinus<K, V>(m: map<K, V>, k: K)
    requires k in m
    ensures |m - {k}| == |m| - 1 && (m - {k}).Keys == m.Keys - {k}
  {
    assert (m - {k}).Keys == m.Keys - {k};
    assert |(m - {k}).Keys| == |m.Keys - {k}|;
  }
}

/** Fixed tables of optional rows. */
module Slots {
  import opened Common
  import Seqs

  /** First free slot, or the length. */
  function FirstFree<T>(rows: seq<Option<T>>): (n: nat)
    ensures n <= |rows|
    ensures n < |rows| ==> rows[n].None?
    ensures forall i :: 0 <= i < n ==> rows[i].Some?
  {
    if rows == [] || rows[0].None? then 0 else
      var k := FirstFree(rows[1..]);
      assert forall i :: 1 <= i < k + 1 ==> rows[i] == rows[1..][i - 1];
      k + 1
  }

  function Used<T>(rows: seq<Option<T>>): (n: nat)
    ensures n <= |rows|
  {
    if rows == [] then 0 else (if rows[0].Some? then 1 else 0) + Used(rows[1..])
  }

  lemma {:induction false} UsedConcat<T>(a: seq<Option<T>>, b: seq<Option<T>>)
    ensures Used(a + b) == Used(a) + Used(b)
  {
    if a == [] {
      assert a + b == b;
    } else {
      UsedConcat(a[1..], b);
      Seqs.DropCat(a, b, 1);
    }
  }

  /** The count changes by one exactly when a slot changes hands. */
  lemma UsedUpdate<T>(rows: seq<Option<T>>, i: nat, row: Option<T>)
    requires i < |rows|
    ensures Used(rows[i := row]) == Used(rows) - (if rows[i].Some? then 1 else 0) + (if row.Some? then 1 else 0)
  {
    UsedCut(rows, i);
    UsedCut(rows[i := row], i);
    assert rows[i := row][..i] == rows[..i] && rows[i := row][i + 1..] == rows[i + 1..];
  }

  lemma UsedCut<T>(rows: seq<Option<T>>, i: nat)
    requires i < |rows|
    ensures Used(rows) == Used(rows[..i]) + (if rows[i].Some? then 1 else 0) + Used(rows[i + 1..])
  {
    Seqs.CutAt(rows, i);
    UsedConcat(rows[..i], [rows[i]]);
    UsedConcat(rows[..i] + [rows[i]], rows[i + 1..]);
    assert [rows[i]][1..] == [];
  }

  /** Full by count is full by slots. */
  lemma {:induction false} FullIff<T>(rows: seq<Option<T>>)
    ensures Used(rows) == |rows| <==> FirstFree(rows) == |rows|
  {
    if rows != [] {
      FullIff(rows[1..]);
    }
  }

  lemma {:induction false} NoneUsed<T>(rows: seq<Option<T>>)
    requires forall i :: 0 <= i < |rows| ==> rows[i].None?
    ensures Used(rows) == 0
  {
    if rows != [] {
      NoneUsed(rows[1..]);
    }
  }

  /** The scan for a free slot. */
  method FindFree<T>(rows: seq<Option<T>>) returns (i: nat)
    ensures i == FirstFree(rows)
  {
    i := 0;
    while i < |rows| && rows[i].Some?
      invariant i <= |rows| && forall j :: 0 <= j < i ==> rows[j].Some?
    {
      i := i + 1;
    }
  }
}
