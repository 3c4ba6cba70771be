/**
 Registered paths written as URI references for `/.well-known/core`: percent-encoding, what a
 client reads back from it, and that the reference resolves against any host.
 */
module Catalog {
  import opened Common
  import opened Strings
  import opened Paths
  import LinkSyntax
  import Seqs
  import Uri
  import UriText
  import Utf8

  /** `uri_path_byte_is_literal`: the `pchar` characters of RFC 3986. */
  predicate Literal(b: Byte) {
    b < 0x80 && Uri.PChar(b as char)
  }

  function HexChar(n: nat): (c: char)
    requires n < 16
    ensures Uri.Hex(c) == Some(n) && LinkSyntax.HexDigit(c)
    ensures Utf8.IsAscii(c) && c != '/' && c != '?' && c != '#'
  {
    if n < 10 then ('0' as int + n) as char else ('A' as int + n - 10) as char
  }

  function EscapeByte(b: Byte): string {
    if Literal(b) then [b as char] else ['%', HexChar(b / 16), HexChar(b % 16)]
  }

  /** The bytes left bare, written out; the others become a percent sign and two upper-case digits. */
  lemma EscapeSpelled(b: Byte)
    ensures var bare := b < 0x80 && (b as char in DIGITS || b as char in LOWER || b as char in UPPER || b as char in "-._~!$&'()*+,;=:@");
            EscapeByte(b) == if bare then [b as char] else "%" + [Uri.HEX_UPPER[b / 16], Uri.HEX_UPPER[b % 16]]
  {
    hide Literal, HexChar;
    LiteralSpelled(b);
    UpperDigit(b / 16);
    UpperDigit(b % 16);
  }

  lemma LiteralSpelled(b: Byte)
    ensures Literal(b) <==>
            b < 0x80 && (b as char in DIGITS || b as char in LOWER || b as char in UPPER || b as char in "-._~!$&'()*+,;=:@")
  {
    hide Uri.Unreserved, Uri.SubDelim, Uri.PChar;
    if b < 0x80 {
      Uri.ClassesSpelled(b as char);
      assert "-._~!$&'()*+,;=:@" == "-._~" + "!$&'()*+,;=" + ":@";
    }
  }

  lemma UpperDigit(n: nat)
    requires n < 16
    ensures HexChar(n) == Uri.HEX_UPPER[n]
  {
    assert Uri.HEX_UPPER == DIGITS + "ABCDEF";
    assert forall i :: 0 <= i < 10 ==> DIGITS[i] as int == '0' as int + i;
    assert forall i :: 0 <= i < 6 ==> "ABCDEF"[i] as int == 'A' as int + i;
  }

  function EscapeBytes(bytes: seq<Byte>): string {
    if bytes == [] then "" else EscapeByte(bytes[0]) + EscapeBytes(bytes[1..])
  }

  function Segment(segment: string): string {
    EscapeBytes(Utf8.Encode(segment))
  }

  function Slashed(path: Path): string {
    if path == [] then "" else "/" + Segment(path[0]) + Slashed(path[1..])
  }

  /** The link target of a registered path. */
  function Target(path: Path): string {
    if path == [] then "/" else Slashed(path)
  }

  // Escaping a byte and what the URI module reads back.

  /** No character that ends a path, a segment or a link. */
  predicate Inner(s: string) {
    forall i :: 0 <= i < |s| ==> Utf8.IsAscii(s[i]) && s[i] != '/' && s[i] != '?' && s[i] != '#'
  }

  lemma EscapeInner(b: Byte)
    ensures Inner(EscapeByte(b))
  {
  }

  lemma EscapeReads(b: Byte, rest: string)
    ensures Uri.Legal(Uri.PathText, EscapeByte(b) + rest) == Uri.Legal(Uri.PathText, rest)
    ensures Uri.Decoded(EscapeByte(b) + rest) == [b] + Uri.Decoded(rest)
  {
    var s := EscapeByte(b) + rest;
    if Literal(b) {
      assert s[1..] == rest && s[0] == b as char;
    } else {
      assert s[3..] == rest && s[0] == '%' && s[1] == HexChar(b / 16) && s[2] == HexChar(b % 16);
      assert b == b / 16 * 16 + b % 16;
    }
  }

  lemma EscapeIsUri(b: Byte, rest: string)
    ensures LinkSyntax.UriChars(EscapeByte(b) + rest) == LinkSyntax.UriChars(rest)
  {
    var s := EscapeByte(b) + rest;
    if Literal(b) {
      assert s[1..] == rest && s[0] == b as char;
    } else {
      assert s[3..] == rest && s[0] == '%' && s[1] == HexChar(b / 16) && s[2] == HexChar(b % 16);
    }
  }

  /** Escaping is undone by decoding, whatever the bytes and whatever follows. */
  lemma {:induction false} EscapedReads(bytes: seq<Byte>, rest: string)
    ensures Uri.Legal(Uri.PathText, EscapeBytes(bytes) + rest) == Uri.Legal(Uri.PathText, rest)
    ensures Uri.Decoded(EscapeBytes(bytes) + rest) == bytes + Uri.Decoded(rest)
    ensures LinkSyntax.UriChars(EscapeBytes(bytes) + rest) == LinkSyntax.UriChars(rest)
    ensures Inner(EscapeBytes(bytes))
  {
    hide EscapeByte, Uri.Legal, Uri.Decoded, LinkSyntax.UriChars;
    if bytes == [] {
      assert "" + rest == rest;
    } else {
      var head, tail := EscapeByte(bytes[0]), EscapeBytes(bytes[1..]);
      EscapedReads(bytes[1..], rest);
      EscapeReads(bytes[0], tail + rest);
      EscapeIsUri(bytes[0], tail + rest);
      EscapeInner(bytes[0]);
      Seqs.Assoc(head, tail, rest);
      Seqs.HeadTail(bytes);
      Seqs.Assoc([bytes[0]], bytes[1..], Uri.Decoded(rest));
    }
  }

  lemma SegmentReads(segment: string)
    ensures Uri.Decoded(Segment(segment)) == Utf8.Encode(segment)
    ensures Inner(Segment(segment))
  {
    EscapedReads(Utf8.Encode(segment), "");
    assert Segment(segment) + "" == Segment(segment);
    assert Utf8.Encode(segment) + [] == Utf8.Encode(segment);
  }

  // Whole paths.

  function Encoded(path: Path): (parts: seq<string>)
    ensures |parts| == |path|
  {
    seq(|path|, i requires 0 <= i < |path| => Segment(path[i]))
  }

  lemma {:induction false} SlashedJoins(path: Path)
    requires path != []
    ensures Slashed(path) == "/" + Join(Encoded(path), '/')
    decreases |path|
  {
    hide Segment;
    if |path| == 1 {
      assert Slashed(path[1..]) == "";
    } else {
      SlashedJoins(path[1..]);
      assert Encoded(path)[1..] == Encoded(path[1..]);
    }
  }

  /** Segment boundaries survive: splitting the target gives one encoded piece per segment. */
  lemma TargetSplits(path: Path)
    requires PathOk(path)
    ensures Uri.PathSegments(Target(path)) == Encoded(path)
  {
    if path != [] {
      SlashedJoins(path);
      var text := Join(Encoded(path), '/');
      assert Target(path)[1..] == text;
      forall i | 0 <= i < |path|
        ensures Inner(Encoded(path)[i])
      {
        SegmentReads(path[i]);
      }
      SplitJoin(Encoded(path), '/');
      if text == "" {
        assert Split("", '/') == [""];
        assert Uri.Decoded(Encoded(path)[0]) == [];
        SegmentReads(path[0]);
        assert false;
      }
    }
  }

  function Plain(path: Path): string {
    if path == [] then "" else "/" + path[0] + Plain(path[1..])
  }

  lemma SlashFirst(rest: string)
    ensures Uri.Legal(Uri.PathText, "/" + rest) == Uri.Legal(Uri.PathText, rest)
    ensures Uri.Decoded("/" + rest) == [0x2F] + Uri.Decoded(rest)
    ensures LinkSyntax.UriChars("/" + rest) == LinkSyntax.UriChars(rest)
  {
    assert ("/" + rest)[1..] == rest;
  }

  lemma PlainEncodes(segment: string, rest: string)
    ensures Utf8.Encode("/" + segment + rest) == [0x2F] + (Utf8.Encode(segment) + Utf8.Encode(rest))
  {
    var s := "/" + segment + rest;
    assert s[0] == '/' && s[1..] == segment + rest;
    Utf8.EncodeConcat(segment, rest);
  }

  lemma {:induction false} SlashedReads(path: Path)
    ensures Uri.Legal(Uri.PathText, Slashed(path))
    ensures Uri.Decoded(Slashed(path)) == Utf8.Encode(Plain(path))
    ensures LinkSyntax.UriChars(Slashed(path))
    ensures forall i :: 0 <= i < |Slashed(path)| ==>
              Utf8.IsAscii(Slashed(path)[i]) && Slashed(path)[i] != '?' && Slashed(path)[i] != '#'
    decreases |path|
  {
    hide EscapeBytes;
    if path != [] {
      hide Uri.Legal, Uri.Decoded, LinkSyntax.UriChars, Utf8.Encode;
      var head, tail := Segment(path[0]), Slashed(path[1..]);
      SlashedReads(path[1..]);
      EscapedReads(Utf8.Encode(path[0]), tail);
      SlashFirst(head + tail);
      Seqs.Assoc("/", head, tail);
      PlainEncodes(path[0], Plain(path[1..]));
    }
  }

  lemma TargetReads(path: Path)
    ensures Uri.Valid(Uri.PathText, Target(path))
    ensures LinkSyntax.UriChars(Target(path))
    ensures forall i :: 0 <= i < |Target(path)| ==>
              Utf8.IsAscii(Target(path)[i]) && Target(path)[i] != '?' && Target(path)[i] != '#'
  {
    if path == [] {
      SlashFirst("");
      assert "/" + "" == "/";
      assert Uri.Decoded("/") == [0x2F];
      Uri.ScalarCheck([0x2F]);
    } else {
      SlashedReads(path);
      Utf8.DecodeEncode(Plain(path));
    }
  }

  lemma NoDots(segment: string)
    requires SegmentOk(segment)
    ensures !Uri.Dots(Utf8.Encode(segment))
  {
    Utf8.DecodeEncode(segment);
    Utf8.DecodeEncode(".");
    Utf8.DecodeEncode("..");
    assert Utf8.Encode(".") == [0x2E];
    assert Utf8.Encode("..") == [0x2E, 0x2E] by {
      assert ".."[1..] == ".";
    }
    var bytes := Utf8.Encode(segment);
    assert Uri.Dots(bytes) ==> bytes == [0x2E] || bytes == [0x2E, 0x2E];
  }

  /** A client that splits and decodes the advertised target has the registered segments. */
  lemma TargetRoundTrip(path: Path)
    requires PathOk(path)
    ensures var segments := Uri.PathSegments(Target(path));
            && |segments| == |path|
            && (forall i :: 0 <= i < |path| ==>
                  Uri.Decodable(segments[i]) && Utf8.Decode(Uri.Decoded(segments[i])) == path[i])
    ensures Uri.CheckTail(Target(path), None).None?
  {
    hide Target, Uri.PathSegments, Segment, Uri.Decoded, Utf8.Encode, Utf8.Decode, Uri.Valid, Uri.Dots;
    TargetSplits(path);
    TargetReads(path);
    forall i | 0 <= i < |path|
      ensures Uri.Decodable(Encoded(path)[i]) && Utf8.Decode(Uri.Decoded(Encoded(path)[i])) == path[i]
      ensures !Uri.Dots(Uri.Decoded(Encoded(path)[i]))
    {
      SegmentReads(path[i]);
      Utf8.DecodeEncode(path[i]);
      NoDots(path[i]);
    }
  }

  /** Two routes never share a target. */
  lemma TargetsDiffer(a: Path, b: Path)
    requires PathOk(a) && PathOk(b) && Target(a) == Target(b)
    ensures a == b
  {
    TargetRoundTrip(a);
    TargetRoundTrip(b);
  }

  // Resolving the target against a host.

  lemma TargetStarts(path: Path)
    ensures Target(path) != "" && Target(path)[0] == '/'
  {
  }

  /** Every advertised path, put after any host the library can name, is a URI the library itself
      accepts, with the target as its path. */
  lemma AdvertisedPathResolves(t: Uri.Transport, h: Uri.Host, port: Option<nat>, path: Path, ipv6: string -> bool)
    requires PathOk(path) && UriText.HostOk(h, ipv6) && (port.Some? ==> port.value <= 0xFFFF)
    ensures var u := Uri.Parse(UriText.Text(t, h, port, Target(path), None), ipv6);
            u.Ok? && u.value.path == Target(path) && u.value.host == h && u.value.transport == t && u.value.query.None?
  {
    hide Target, UriText.HostOk, Uri.Parse, UriText.Text;
    TargetRoundTrip(path);
    TargetStarts(path);
    Uri.TailRefused(Target(path), None);
    UriText.ParsesBack(t, h, port, Target(path), None, ipv6);
  }
}
