/** The pieces of Rust's `str` interface the parsers use. */
module Strings {
  import opened Common
  import Seqs

  /** Index of the first character satisfying `p`, or the length. */
  function Find(s: string, p: char -> bool): (n: nat)
    ensures n <= |s|
    ensures forall i :: 0 <= i < n ==> !p(s[i])
    ensures n < |s| ==> p(s[n])
  {
    if s == [] || p(s[0]) then 0 else
      var k := Find(s[1..], p);
      assert forall i :: 1 <= i < k + 1 ==> s[i] == s[1..][i - 1];
      k + 1
  }

  /** A position with `Find`'s two properties is `Find`'s answer. */
  lemma FindUnique(s: string, p: char -> bool, n: nat)
    requires n <= |s|
    requires forall i :: 0 <= i < n ==> !p(s[i])
    requires n < |s| ==> p(s[n])
    ensures Find(s, p) == n
  {
  }

  function FindChar(s: string, c: char): (n: nat)
    ensures n <= |s|
    ensures forall i :: 0 <= i < n ==> s[i] != c
    ensures n < |s| ==> s[n] == c
  {
    Find(s, x => x == c)
  }

  lemma FindCharUnique(s: string, c: char, n: nat)
    requires n <= |s|
    requires forall i :: 0 <= i < n ==> s[i] != c
    requires n < |s| ==> s[n] == c
    ensures FindChar(s, c) == n
  {
  }

  /** `str::split`: the pieces between separators, always at least one. */
  function Split(s: string, sep: char): (parts: seq<string>)
    ensures |parts| >= 1
    ensures forall i, k :: 0 <= i < |parts| && 0 <= k < |parts[i]| ==> parts[i][k] != sep
    decreases |s|
  {
    var n := FindChar(s, sep);
    if n == |s| then [s] else [s[..n]] + Split(s[n + 1..], sep)
  }

  function Join(parts: seq<string>, sep: char): string
    requires |parts| >= 1
  {
    if |parts| == 1 then parts[0] else parts[0] + [sep] + Join(parts[1..], sep)
  }

  lemma JoinCons(head: string, tail: seq<string>, sep: char)
    requires tail != []
    ensures Join([head] + tail, sep) == head + [sep] + Join(tail, sep)
  {
    assert ([head] + tail)[1..] == tail;
  }

  /** The first piece of a split is what stands before the first separator. */
  lemma SplitCons(head: string, rest: string, sep: char)
    requires forall k :: 0 <= k < |head| ==> head[k] != sep
    ensures Split(head + [sep] + rest, sep) == [head] + Split(rest, sep)
  {
    var s := head + [sep] + rest;
    FindCharUnique(s, sep, |head|);
    assert s[..|head|] == head;
    assert s[|head| + 1..] == rest;
  }

  lemma {:induction false} JoinSplit(s: string, sep: char)
    ensures Join(Split(s, sep), sep) == s
    decreases |s|
  {
    var n := FindChar(s, sep);
    if n < |s| {
      JoinSplit(s[n + 1..], sep);
      JoinCons(s[..n], Split(s[n + 1..], sep), sep);
      Seqs.CutAt(s, n);
    }
  }

  lemma {:induction false} SplitJoin(parts: seq<string>, sep: char)
    requires |parts| >= 1
    requires forall i, k :: 0 <= i < |parts| && 0 <= k < |parts[i]| ==> parts[i][k] != sep
    ensures Split(Join(parts, sep), sep) == parts
    decreases |parts|
  {
    hide Split;
    if |parts| == 1 {
      SplitOne(parts[0], sep);
      assert parts == [parts[0]];
    } else {
      var tail := parts[1..];
      assert forall i :: 0 <= i < |tail| ==> tail[i] == parts[i + 1];
      SplitJoin(tail, sep);
      SplitCons(parts[0], Join(tail, sep), sep);
      Seqs.HeadTail(parts);
    }
  }

  lemma SplitOne(s: string, sep: char)
    requires forall k :: 0 <= k < |s| ==> s[k] != sep
    ensures Split(s, sep) == [s]
  {
    FindCharUnique(s, sep, |s|);
  }

  predicate IsDigit(c: char) {
    '0' <= c <= '9'
  }

  predicate IsLower(c: char) {
    'a' <= c <= 'z'
  }

  predicate IsAlpha(c: char) {
    IsLower(c) || 'A' <= c <= 'Z'
  }

  predicate IsAlnum(c: char) {
    IsAlpha(c) || IsDigit(c)
  }

  const DIGITS: string := "0123456789"
  const LOWER: string := "abcdefghijklmnopqrstuvwxyz"
  const UPPER: string := "ABCDEFGHIJKLMNOPQRSTUVWXYZ"

  /** The classes are the alphabets, letter by letter, and lower-casing goes from one to the other. */
  lemma Alphabets()
    ensures |DIGITS| == 10 && |LOWER| == |UPPER| == 26
    ensures forall i :: 0 <= i < 10 ==> DIGITS[i] as int == '0' as int + i
    ensures forall i :: 0 <= i < 26 ==> LOWER[i] as int == 'a' as int + i && UPPER[i] as int == 'A' as int + i
  {
  }

  /** A row of consecutive characters holds exactly those between its ends. */
  lemma InRow(row: string, first: char, c: char)
    requires forall i :: 0 <= i < |row| ==> row[i] as int == first as int + i
    ensures c in row <==> first as int <= c as int < first as int + |row|
  {
    if first as int <= c as int < first as int + |row| {
      assert row[c as int - first as int] == c;
    }
  }

  lemma ClassesSpelled(c: char)
    ensures IsDigit(c) <==> c in DIGITS
    ensures IsLower(c) <==> c in LOWER
    ensures IsAlpha(c) <==> c in LOWER || c in UPPER
    ensures IsAlnum(c) <==> c in DIGITS || c in LOWER || c in UPPER
  {
    Alphabets();
    InRow(DIGITS, '0', c);
    InRow(LOWER, 'a', c);
    InRow(UPPER, 'A', c);
  }

  lemma LowerSpelled(c: char)
    ensures forall i :: 0 <= i < |UPPER| == |LOWER| && c == UPPER[i] ==> Lower(c) == LOWER[i]
    ensures c !in UPPER ==> Lower(c) == c
  {
    Alphabets();
    InRow(UPPER, 'A', c);
  }

  /** ASCII lower-casing of one character. */
  function Lower(c: char): char {
    if 'A' <= c <= 'Z' then (c as int + 32) as char else c
  }

  /** `str::eq_ignore_ascii_case`. */
  predicate SameIgnoringCase(a: string, b: string) {
    |a| == |b| && forall i :: 0 <= i < |a| ==> Lower(a[i]) == Lower(b[i])
  }

  predicate All(s: string, p: char -> bool) {
    forall i :: 0 <= i < |s| ==> p(s[i])
  }

  predicate HasPrefix(s: string, c: char) {
    |s| > 0 && s[0] == c
  }

  /** Decimal value of a digit string. */
  function Value(s: string): nat
    requires All(s, IsDigit)
  {
    if s == [] then 0 else Value(s[..|s| - 1]) * 10 + (s[|s| - 1] as int - '0' as int)
  }

  /** Decimal spelling without leading zeros, as `{}` prints an unsigned integer. */
  function Decimal(n: nat): (s: string)
    ensures s != [] && All(s, IsDigit)
    ensures Value(s) == n
    ensures s[0] == '0' ==> s == "0"
  {
    var d := ('0' as int + n % 10) as char;
    if n < 10 then
      assert [d][..0] == [];
      [d]
    else
      var hi := Decimal(n / 10);
      var s := hi + [d];
      assert s[..|s| - 1] == hi;
      s
  }
}
