/**
 UTF-8 as section 4 of RFC 3629 defines it. `Encode` is what Rust's `str::as_bytes` exposes and
 `WellFormed` is what `core::str::from_utf8` accepts: a byte string is accepted exactly when it is
 the encoding of some text, and that text is unique.
 */
module Utf8 {
  import opened Common
  import Seqs

  /** The bytes of one Unicode scalar value. */
  function EncodeChar(c: char): (bytes: seq<Byte>)
    ensures 1 <= |bytes| <= 4
  {
    var v := c as int;
    var hi := v / 64;
    var top := hi / 64;
    if v < 0x80 then [v]
    else if v < 0x800 then [0xC0 + hi, 0x80 + v % 64]
    else if v < 0x10000 then [0xE0 + top, 0x80 + hi % 64, 0x80 + v % 64]
    else [0xF0 + top / 64, 0x80 + top % 64, 0x80 + hi % 64, 0x80 + v % 64]
  }

  function Encode(text: string): seq<Byte> {
    if text == [] then [] else EncodeChar(text[0]) + Encode(text[1..])
  }

  predicate Tail(b: Byte) {
    0x80 <= b <= 0xBF
  }

  /** `UTF8-char` of section 4 of RFC 3629. */
  predicate IsScalar(s: seq<Byte>) {
    || (|s| == 1 && s[0] <= 0x7F)
    || (|s| == 2 && 0xC2 <= s[0] <= 0xDF && Tail(s[1]))
    || (|s| == 3 && Tail(s[2]) && (
            || (s[0] == 0xE0 && 0xA0 <= s[1] <= 0xBF)
            || (0xE1 <= s[0] <= 0xEC && Tail(s[1]))
            || (s[0] == 0xED && 0x80 <= s[1] <= 0x9F)
            || (0xEE <= s[0] <= 0xEF && Tail(s[1]))))
    || (|s| == 4 && Tail(s[2]) && Tail(s[3]) && (
            || (s[0] == 0xF0 && 0x90 <= s[1] <= 0xBF)
            || (0xF1 <= s[0] <= 0xF3 && Tail(s[1]))
            || (s[0] == 0xF4 && 0x80 <= s[1] <= 0x8F)))
  }

  /** Scalar width announced by a lead byte; 0 for a byte that cannot lead. */
  function Width(lead: Byte): (n: nat)
    ensures n <= 4
  {
    if lead <= 0x7F then 1
    else if 0xC2 <= lead <= 0xDF then 2
    else if 0xE0 <= lead <= 0xEF then 3
    else if 0xF0 <= lead <= 0xF4 then 4
    else 0
  }

  /** `UTF8-octets` of section 4 of RFC 3629: a concatenation of scalars. */
  predicate WellFormed(s: seq<Byte>) {
    s == [] ||
    (var n := Width(s[0]);
     0 < n <= |s| && IsScalar(s[..n]) && WellFormed(s[n..]))
  }

  /** One base-64 digit appended. */
  function Digit(hi: int, lo: int): (v: int)
    ensures 0 <= lo < 64 ==> v / 64 == hi && v % 64 == lo
  {
    hi * 64 + lo
  }

  /** The number one scalar spells, and its range. */
  function Value(s: seq<Byte>): (v: int)
    requires IsScalar(s)
    ensures 0 <= v < 0xD800 || 0xE000 <= v < 0x110000
    ensures |s| == 1 <==> v < 0x80
    ensures |s| == 2 <==> 0x80 <= v < 0x800
    ensures |s| == 3 <==> 0x800 <= v < 0x10000
  {
    var b0: int := s[0];
    if |s| == 1 then b0 else
      var b1: int := s[1];
      if |s| == 2 then Digit(b0 - 0xC0, b1 - 0x80) else
        var b2: int := s[2];
        if |s| == 3 then Digit(Digit(b0 - 0xE0, b1 - 0x80), b2 - 0x80) else
          var b3: int := s[3];
          Digit(Digit(Digit(b0 - 0xF0, b1 - 0x80), b2 - 0x80), b3 - 0x80)
  }

  /** The character one scalar stands for. */
  function DecodeScalar(s: seq<Byte>): (c: char)
    requires IsScalar(s)
    ensures EncodeChar(c) == s
  {
    Value(s) as char
  }

  /** The text a well-formed byte string stands for. */
  function Decode(s: seq<Byte>): (text: string)
    requires WellFormed(s)
    ensures Encode(text) == s
  {
    if s == [] then [] else
      var n := Width(s[0]);
      var c := DecodeScalar(s[..n]);
      var rest := Decode(s[n..]);
      assert ([c] + rest)[1..] == rest;
      [c] + rest
  }

  lemma EncodeCharIsScalar(c: char)
    ensures IsScalar(EncodeChar(c))
    ensures Width(EncodeChar(c)[0]) == |EncodeChar(c)|
    ensures DecodeScalar(EncodeChar(c)) == c
  {
    EncodeCharShape(c);
    var v := c as int;
    assert Digit(v / 64, v % 64) == v;
    assert Digit(v / 64 / 64, v / 64 % 64) == v / 64;
    assert Digit(v / 64 / 64 / 64, v / 64 / 64 % 64) == v / 64 / 64;
    assert Value(EncodeChar(c)) == c as int;
  }

  lemma EncodeCharShape(c: char)
    ensures IsScalar(EncodeChar(c))
    ensures Width(EncodeChar(c)[0]) == |EncodeChar(c)|
  {
  }

  lemma ScalarWidth(s: seq<Byte>)
    requires IsScalar(s)
    ensures Width(s[0]) == |s|
  {
  }

  lemma {:induction false} PrependScalar(m: seq<Byte>, s: seq<Byte>)
    requires IsScalar(m)
    ensures WellFormed(m + s) <==> WellFormed(s)
    ensures WellFormed(s) ==> Decode(m + s) == [DecodeScalar(m)] + Decode(s)
  {
    ScalarWidth(m);
    assert (m + s)[..|m|] == m;
    assert (m + s)[|m|..] == s;
  }

  /** `from_utf8(s.as_bytes())` is always `s`. */
  lemma {:induction false} DecodeEncode(text: string)
    ensures WellFormed(Encode(text))
    ensures Decode(Encode(text)) == text
  {
    if text != [] {
      EncodeCharIsScalar(text[0]);
      DecodeEncode(text[1..]);
      PrependScalar(EncodeChar(text[0]), Encode(text[1..]));
      assert text == [text[0]] + text[1..];
    }
  }

  /** Acceptance is exactly being an encoding, and the text is unique. */
  lemma WellFormedIff(s: seq<Byte>)
    ensures WellFormed(s) <==> exists text :: Encode(text) == s
    ensures forall a, b :: Encode(a) == s && Encode(b) == s ==> a == b
  {
    if WellFormed(s) {
      assert Encode(Decode(s)) == s;
    }
    forall text | Encode(text) == s
      ensures WellFormed(s) && text == Decode(s)
    {
      DecodeEncode(text);
    }
  }

  lemma {:induction false} EncodeConcat(a: string, b: string)
    ensures Encode(a + b) == Encode(a) + Encode(b)
  {
    if a == [] {
      assert a + b == b;
    } else {
      hide EncodeChar;
      EncodeConcat(a[1..], b);
      Seqs.DropCat(a, b, 1);
      Seqs.Assoc(EncodeChar(a[0]), Encode(a[1..]), Encode(b));
    }
  }

  /** Two byte strings around an ASCII byte are well formed together exactly when each is. */
  lemma {:induction false} SplitAtAscii(x: seq<Byte>, a: Byte, y: seq<Byte>)
    requires a < 0x80
    ensures WellFormed(x + [a] + y) <==> WellFormed(x) && WellFormed(y)
    decreases |x|
  {
    var s := x + [a] + y;
    if x == [] {
      assert s == [a] + y;
      PrependScalar([a], y);
    } else {
      var n := Width(s[0]);
      if 0 < n <= |x| {
        assert s[..n] == x[..n];
        assert s[n..] == x[n..] + [a] + y;
        SplitAtAscii(x[n..], a, y);
      } else if n > |x| && n <= |s| {
        // A scalar reaching past x would hold the ASCII byte in a tail position.
        assert s[..n][|x|] == a;
        assert !IsScalar(s[..n]);
      }
    }
  }

  lemma {:induction false} ConcatWellFormed(x: seq<Byte>, y: seq<Byte>)
    requires WellFormed(x) && WellFormed(y)
    ensures WellFormed(x + y)
    decreases |x|
  {
    if x == [] {
      assert x + y == y;
    } else {
      var n := Width(x[0]);
      hide IsScalar, Width;
      ConcatWellFormed(x[n..], y);
      Seqs.DropCat(x, y, n);
    }
  }

  predicate IsAscii(c: char) {
    c as int < 0x80
  }

  lemma {:induction false} EncodeAscii(text: string)
    requires forall i :: 0 <= i < |text| ==> IsAscii(text[i])
    ensures |Encode(text)| == |text|
    ensures forall i :: 0 <= i < |text| ==> Encode(text)[i] == text[i] as int
  {
    if text != [] {
      EncodeAscii(text[1..]);
    }
  }

  /** Every byte of a non-ASCII character is at least 0x80. */
  lemma NonAsciiBytes(c: char, i: nat)
    requires !IsAscii(c) && i < |EncodeChar(c)|
    ensures EncodeChar(c)[i] >= 0x80
  {
  }

  predicate ByteIn(b: Byte, accepts: char -> bool) {
    b < 0x80 && accepts(b as char)
  }

  predicate BytesIn(bytes: seq<Byte>, accepts: char -> bool) {
    forall i :: 0 <= i < |bytes| ==> ByteIn(bytes[i], accepts)
  }

  /** Testing every byte of a text against an ASCII class is testing every character. */
  lemma {:induction false} AsciiScan(text: string, accepts: char -> bool)
    requires forall c :: accepts(c) ==> IsAscii(c)
    ensures BytesIn(Encode(text), accepts) <==> forall i :: 0 <= i < |text| ==> accepts(text[i])
  {
    if text != [] {
      var head, tail := EncodeChar(text[0]), Encode(text[1..]);
      AsciiScan(text[1..], accepts);
      assert Encode(text)[0] == head[0];
      assert forall i :: 0 <= i < |tail| ==> Encode(text)[|head| + i] == tail[i];
      assert forall i :: 0 <= i < |text[1..]| ==> text[1..][i] == text[i + 1];
      if IsAscii(text[0]) {
        assert head == [text[0] as int];
      } else {
        NonAsciiBytes(text[0], 0);
      }
    }
  }
}
