/**
 Absolute CoAP URIs: percent decoding, the scalar-at-a-time validity check, and the split into
 Uri-Path and Uri-Query components (sections 6.4 and 6.5 of RFC 7252).
 */
module Uri {
  import opened Common
  import opened Strings
  import Seqs
  import Utf8

  datatype Error = Scheme | Authority | Port | Encoding | Fragment | DotSegment | Capacity

  datatype Transport = Udp | Dtls

  datatype Host = Name(name: string) | Ipv6(address: string, zone: Option<string>)

  datatype Uri = Uri(transport: Transport, authority: string, host: Host, port: nat,
                     path: string, query: Option<string>)

  // Character classes.

  predicate Unreserved(c: char) {
    IsAlnum(c) || c == '-' || c == '.' || c == '_' || c == '~'
  }

  predicate SubDelim(c: char) {
    || c == '!' || c == '$' || c == '&' || c == '\'' || c == '(' || c == ')'
    || c == '*' || c == '+' || c == ',' || c == ';' || c == '='
  }

  predicate PChar(c: char) {
    Unreserved(c) || SubDelim(c) || c == ':' || c == '@'
  }

  /** The four closures `validate` is called with. */
  datatype Class = Zone | RegName | PathText | QueryText

  predicate Allowed(k: Class, c: char)
    ensures Allowed(k, c) ==> Utf8.IsAscii(c) && c != '%' && c != '#'
  {
    match k
    case Zone => Unreserved(c)
    case RegName => Unreserved(c) || SubDelim(c)
    case PathText => PChar(c) || c == '/'
    case QueryText => PChar(c) || c == '/' || c == '?'
  }

  function Hex(c: char): (v: Option<nat>)
    ensures v.Some? ==> v.value < 16
  {
    if '0' <= c <= '9' then Some(c as int - '0' as int)
    else if 'a' <= c <= 'f' then Some(c as int - 'a' as int + 10)
    else if 'A' <= c <= 'F' then Some(c as int - 'A' as int + 10)
    else None
  }

  const HEX_LOWER: string := "0123456789abcdef"
  const HEX_UPPER: string := "0123456789ABCDEF"

  /** A hexadecimal digit is its place in either row of digits. */
  lemma HexSpelled(c: char, v: nat)
    ensures Hex(c) == Some(v) <==> v < 16 && (HEX_LOWER[v] == c || HEX_UPPER[v] == c)
  {
    assert HEX_LOWER == DIGITS + "abcdef" && HEX_UPPER == DIGITS + "ABCDEF";
    assert forall i :: 0 <= i < 10 ==> DIGITS[i] as int == '0' as int + i;
    assert forall i :: 0 <= i < 6 ==> "abcdef"[i] as int == 'a' as int + i && "ABCDEF"[i] as int == 'A' as int + i;
  }

  /** The sets of section 2 of RFC 3986, character by character. */
  lemma ClassesSpelled(c: char)
    ensures Unreserved(c) <==> c in DIGITS || c in LOWER || c in UPPER || c in "-._~"
    ensures SubDelim(c) <==> c in "!$&'()*+,;="
    ensures PChar(c) <==> Unreserved(c) || SubDelim(c) || c in ":@"
    ensures Allowed(Zone, c) <==> Unreserved(c)
    ensures Allowed(RegName, c) <==> Unreserved(c) || SubDelim(c)
    ensures Allowed(PathText, c) <==> PChar(c) || c == '/'
    ensures Allowed(QueryText, c) <==> PChar(c) || c in "/?"
  {
    Strings.ClassesSpelled(c);
  }

  /** An escape `%XY` stands at the head of `s`. */
  predicate Escape(s: string) {
    |s| >= 3 && s[0] == '%' && Hex(s[1]).Some? && Hex(s[2]).Some?
  }

  /** The byte iterator `decoded`: it ends at the first malformed escape. */
  function Decoded(s: string): seq<Byte>
    decreases |s|
  {
    if s == [] then []
    else if s[0] != '%' then Utf8.EncodeChar(s[0]) + Decoded(s[1..])
    else if Escape(s) then [Hex(s[1]).value * 16 + Hex(s[2]).value] + Decoded(s[3..])
    else []
  }

  /** Every escape is complete and every other character is in the class. */
  predicate Legal(k: Class, s: string)
    decreases |s|
  {
    if s == [] then true
    else if s[0] == '%' then Escape(s) && Legal(k, s[3..])
    else Allowed(k, s[0]) && Legal(k, s[1..])
  }

  /** What `validate` is meant to accept: legal text whose decoded bytes are UTF-8. */
  predicate Valid(k: Class, s: string) {
    Legal(k, s) && Utf8.WellFormed(Decoded(s))
  }

  /** The first pass: characters and escapes. */
  method ScanText(k: Class, input: string) returns (ok: bool)
    ensures ok <==> Legal(k, input)
  {
    hide Allowed, Hex;
    var i := 0;
    while i < |input|
      invariant 0 <= i <= |input|
      invariant Legal(k, input) <==> Legal(k, input[i..])
    {
      if input[i] == '%' {
        if i + 1 >= |input| || Hex(input[i + 1]).None? || i + 2 >= |input| || Hex(input[i + 2]).None? {
          return false;
        }
        Seqs.Drop2(input, i, 3);
        i := i + 3;
      } else if !Allowed(k, input[i]) {
        return false;
      } else {
        Seqs.Drop2(input, i, 1);
        i := i + 1;
      }
    }
    return true;
  }

  /** The second pass: one scalar at a time from the decoded byte iterator. */
  method ScanScalars(bytes: seq<Byte>) returns (ok: bool)
    ensures ok <==> Utf8.WellFormed(bytes)
  {
    hide Utf8.IsScalar, Utf8.Width;
    var j := 0;
    while j < |bytes|
      invariant 0 <= j <= |bytes|
      invariant Utf8.WellFormed(bytes) <==> Utf8.WellFormed(bytes[j..])
    {
      var n := Utf8.Width(bytes[j]);
      if n == 0 || |bytes| - j < n {
        return false;
      }
      var scalar := bytes[j..j + n];
      Seqs.Drop2(bytes, j, n);
      ScalarCheck(scalar);
      if !Utf8.WellFormed(scalar) {
        return false;
      }
      j := j + n;
    }
    return true;
  }

  /** The whole check of one component, without a component-sized buffer. */
  method Validate(k: Class, input: string) returns (ok: bool)
    ensures ok <==> Valid(k, input)
  {
    ok := ScanText(k, input);
    if ok {
      ok := ScanScalars(Decoded(input));
    }
  }

  /** `from_utf8` on exactly the announced bytes is the single-scalar test. */
  lemma ScalarCheck(s: seq<Byte>)
    requires |s| > 0 && Utf8.Width(s[0]) == |s|
    ensures Utf8.WellFormed(s) <==> Utf8.IsScalar(s)
  {
    assert s[..|s|] == s;
    assert s[|s|..] == [];
  }

  /** Bytes `from_utf8` accepts, so that decoding cannot fail. */
  predicate Decodable(component: string) {
    Utf8.WellFormed(Decoded(component))
  }

  // Splitting.

  function PathSegments(path: string): seq<string> {
    if path == "" || path == "/" || path[0] != '/' then [] else Split(path[1..], '/')
  }

  function QueryArguments(query: Option<string>): seq<string> {
    if query.None? then [] else Split(query.value, '&')
  }

  /** The inline test on a decoded segment: one or two dots and nothing else. */
  predicate Dots(bytes: seq<Byte>) {
    |bytes| >= 1 && bytes[0] == 0x2E && (|bytes| == 1 || (bytes[1] == 0x2E && |bytes| == 2))
  }

  /** The segment reads "." or "..", however it is spelled. */
  predicate Climbs(segment: string) {
    Decodable(segment) && (Utf8.Decode(Decoded(segment)) == "." || Utf8.Decode(Decoded(segment)) == "..")
  }

  lemma DotsRead(segment: string)
    requires Decodable(segment)
    ensures Dots(Decoded(segment)) <==> Climbs(segment)
  {
    var bytes := Decoded(segment);
    assert Utf8.Encode(".") == [0x2E];
    assert Utf8.Encode("..") == [0x2E, 0x2E] by {
      assert ".."[1..] == ".";
    }
    Utf8.DecodeEncode(".");
    Utf8.DecodeEncode("..");
    assert Dots(bytes) <==> bytes == [0x2E] || bytes == [0x2E, 0x2E];
  }

  // Parsing.

  predicate SchemeMark(s: string) {
    |s| >= 3 && s[0] == ':' && s[1] == '/' && s[2] == '/'
  }

  /** First index of "://", or the length. */
  function FindMark(s: string): (n: nat)
    ensures n <= |s|
    ensures n < |s| ==> n + 3 <= |s| && s[n] == ':' && s[n + 1] == '/' && s[n + 2] == '/'
  {
    if s == [] || SchemeMark(s) then 0 else FindMark(s[1..]) + 1
  }

  /** First index of "%25", or the length. */
  function FindZone(s: string): (n: nat)
    ensures n <= |s|
    ensures n < |s| ==> n + 3 <= |s| && s[n] == '%' && s[n + 1] == '2' && s[n + 2] == '5'
  {
    if s == [] || (|s| >= 3 && s[..3] == "%25") then
      assert s != [] ==> s[..3][0] == s[0] && s[..3][1] == s[1] && s[..3][2] == s[2];
      0
    else FindZone(s[1..]) + 1
  }

  /** The text between the brackets of an IP literal; `ipv6` stands for `Ipv6Addr::from_str`. */
  function ParseLiteral(host: string, port: Option<string>, ipv6: string -> bool): Result<(Host, Option<string>), Error> {
    var mark := FindZone(host);
    if mark == |host| then
      if ipv6(host) then Ok((Ipv6(host, None), port)) else Err(Authority)
    else
      var zone := host[mark + 3..];
      if zone == "" then Err(Authority)
      else if !Valid(Zone, zone) then Err(Encoding)
      else if ipv6(host[..mark]) then Ok((Ipv6(host[..mark], Some(zone)), port))
      else Err(Authority)
  }

  function ParseHost(authority: string, ipv6: string -> bool): Result<(Host, Option<string>), Error>
    requires authority != ""
  {
    if authority[0] == '[' then
      var literal := authority[1..];
      var close := FindChar(literal, ']');
      if close == |literal| then Err(Authority) else
        var suffix := literal[close + 1..];
        if suffix != "" && suffix[0] != ':' then Err(Authority)
        else ParseLiteral(literal[..close], if suffix == "" then None else Some(suffix[1..]), ipv6)
    else
      var colon := FindChar(authority, ':');
      var name := authority[..colon];
      var port := if colon == |authority| then None else Some(authority[colon + 1..]);
      if name == "" then Err(Authority)
      else if !Valid(RegName, name) then Err(Encoding)
      else Ok((Name(name), port))
  }

  function ParsePort(port: Option<string>, default: nat): Result<nat, Error> {
    if port.None? || port.value == "" then Ok(default)
    else if !All(port.value, IsDigit) then Err(Port)
    else if Value(port.value) > 0xFFFF then Err(Port)
    else Ok(Value(port.value))
  }

  function ParseScheme(scheme: string): Option<Transport> {
    if SameIgnoringCase(scheme, "coap") then Some(Udp)
    else if SameIgnoringCase(scheme, "coaps") then Some(Dtls)
    else None
  }

  predicate EndsAuthority(c: char) {
    c == '/' || c == '?'
  }

  predicate HasDots(segments: seq<string>) {
    exists i :: 0 <= i < |segments| && Dots(Decoded(segments[i]))
  }

  function Parse(input: string, ipv6: string -> bool): Result<Uri, Error> {
    if FindChar(input, '#') < |input| then Err(Fragment) else
      var mark := FindMark(input);
      if mark == |input| then Err(Scheme) else
        var transport := ParseScheme(input[..mark]);
        if transport.None? then Err(Scheme) else
          ParseRest(transport.value, input[mark + 3..], ipv6)
  }

  function ParseRest(transport: Transport, rest: string, ipv6: string -> bool): Result<Uri, Error> {
    var end := Find(rest, EndsAuthority);
    var authority := rest[..end];
    if authority == "" || FindChar(authority, '@') < |authority| then Err(Authority) else
      match ParseHost(authority, ipv6)
      case Err(e) => Err(e)
      case Ok((host, portText)) =>
        match ParsePort(portText, if transport.Udp? then 5683 else 5684)
        case Err(e) => Err(e)
        case Ok(port) =>
          var (path, query) := SplitTail(rest[end..]);
          var checked := CheckTail(path, query);
          if checked.Some? then Err(checked.value)
          else Ok(Uri(transport, authority, host, port, path, query))
  }

  /** The path and the query after the authority. */
  function SplitTail(tail: string): (v: (string, Option<string>))
    ensures tail == Tail(v.0, v.1)
  {
    var q := FindChar(tail, '?');
    if q == |tail| then (tail, None)
    else
      assert tail == tail[..q] + "?" + tail[q + 1..];
      (tail[..q], Some(tail[q + 1..]))
  }

  function Tail(path: string, query: Option<string>): string {
    if query.None? then path else path + "?" + query.value
  }

  /** The error of the last three checks, if one of them refuses. */
  function CheckTail(path: string, query: Option<string>): (e: Option<Error>)
    ensures e.None? <==> && Valid(PathText, path)
                         && (query.Some? ==> Valid(QueryText, query.value))
                         && !HasDots(PathSegments(path))
  {
    if !Valid(PathText, path) then Some(Encoding)
    else if query.Some? && !Valid(QueryText, query.value) then Some(Encoding)
    else if HasDots(PathSegments(path)) then Some(DotSegment)
    else None
  }

  // Decoding is local to a component.

  /** Legal text decodes piece by piece. */
  lemma {:induction false} DecodedConcat(k: Class, a: string, b: string)
    requires Legal(k, a)
    ensures Decoded(a + b) == Decoded(a) + Decoded(b)
    decreases |a|
  {
    hide Hex, Utf8.EncodeChar;
    if a == [] {
      assert a + b == b;
    } else if a[0] == '%' {
      DecodedConcat(k, a[3..], b);
      Seqs.DropCat(a, b, 3);
      Seqs.Assoc([Hex(a[1]).value * 16 + Hex(a[2]).value], Decoded(a[3..]), Decoded(b));
    } else {
      DecodedConcat(k, a[1..], b);
      Seqs.DropCat(a, b, 1);
      Seqs.Assoc(Utf8.EncodeChar(a[0]), Decoded(a[1..]), Decoded(b));
    }
  }

  /** A separator is never part of an escape, so legality splits there. */
  lemma {:induction false} LegalSplit(k: Class, a: string, sep: char, b: string)
    requires sep != '%' && Hex(sep).None?
    ensures Legal(k, a + [sep] + b) <==> Legal(k, a) && Allowed(k, sep) && Legal(k, b)
    decreases |a|
  {
    var s := a + [sep] + b;
    if a == [] {
      assert s[1..] == b;
    } else if a[0] == '%' {
      if |a| >= 3 {
        assert s[3..] == a[3..] + [sep] + b;
        LegalSplit(k, a[3..], sep, b);
      } else {
        assert s[|a|] == sep;
      }
    } else {
      assert s[1..] == a[1..] + [sep] + b;
      LegalSplit(k, a[1..], sep, b);
    }
  }

  lemma DecodedSplit(k: Class, a: string, sep: char, b: string)
    requires Legal(k, a) && Allowed(k, sep) && Hex(sep).None?
    ensures sep as int < 0x80 && Decoded(a + [sep] + b) == Decoded(a) + [sep as int] + Decoded(b)
  {
    hide Hex;
    DecodedConcat(k, a, [sep] + b);
    assert a + [sep] + b == a + ([sep] + b);
    assert ([sep] + b)[1..] == b;
    assert Utf8.EncodeChar(sep) == [sep as int];
    assert Decoded([sep] + b) == [sep as int] + Decoded(b);
    Seqs.Assoc(Decoded(a), [sep as int], Decoded(b));
  }

  /** Validity of the whole is validity of both sides of a literal separator. */
  lemma ValidSplit(k: Class, a: string, sep: char, b: string)
    requires Allowed(k, sep) && Hex(sep).None?
    ensures Valid(k, a + [sep] + b) <==> Valid(k, a) && Valid(k, b)
  {
    LegalSplit(k, a, sep, b);
    if Legal(k, a) && Legal(k, b) {
      DecodedSplit(k, a, sep, b);
      hide Allowed, Hex, Decoded, Utf8.WellFormed;
      Utf8.SplitAtAscii(Decoded(a), sep as int, Decoded(b));
    }
  }

  predicate AllValid(k: Class, parts: seq<string>) {
    forall i :: 0 <= i < |parts| ==> Valid(k, parts[i])
  }

  lemma AllValidCons(k: Class, head: string, tail: seq<string>)
    ensures AllValid(k, [head] + tail) <==> Valid(k, head) && AllValid(k, tail)
  {
    var parts := [head] + tail;
    assert parts[0] == head;
    assert forall i :: 0 <= i < |tail| ==> parts[i + 1] == tail[i];
  }

  /** Valid text splits into valid components, and only valid components join into valid text. */
  lemma {:induction false} ValidComponents(k: Class, s: string, sep: char)
    requires Allowed(k, sep) && Hex(sep).None?
    ensures Valid(k, s) <==> AllValid(k, Split(s, sep))
    decreases |s|
  {
    var n := FindChar(s, sep);
    if n == |s| {
      assert Split(s, sep)[0] == s;
    } else {
      assert s == s[..n] + [sep] + s[n + 1..];
      ValidSplit(k, s[..n], sep, s[n + 1..]);
      ValidComponents(k, s[n + 1..], sep);
      AllValidCons(k, s[..n], Split(s[n + 1..], sep));
    }
  }

  lemma HostDecodes(authority: string, ipv6: string -> bool)
    requires authority != "" && ParseHost(authority, ipv6).Ok?
    ensures var h := ParseHost(authority, ipv6).value.0;
            && (h.Name? ==> h.name != "" && Decodable(h.name))
            && (h.Ipv6? && h.zone.Some? ==> h.zone.value != "" && Decodable(h.zone.value))
  {
  }

  /** In a valid path every segment decodes, and the byte test finds exactly the segments that read "." or
      "..". */
  lemma PathDecodes(path: string)
    requires Valid(PathText, path)
    ensures forall i :: 0 <= i < |PathSegments(path)| ==> Decodable(PathSegments(path)[i])
    ensures HasDots(PathSegments(path)) <==> exists i :: 0 <= i < |PathSegments(path)| && Climbs(PathSegments(path)[i])
  {
    hide Valid, Decoded, Utf8.Decode, Dots, Climbs;
    var segments := PathSegments(path);
    if segments != [] {
      assert path == [] + ['/'] + path[1..];
      ValidSplit(PathText, [], '/', path[1..]);
      ValidComponents(PathText, path[1..], '/');
    }
    forall i | 0 <= i < |segments|
      ensures Decodable(segments[i]) && (Dots(Decoded(segments[i])) <==> Climbs(segments[i]))
    {
      ValidDecodes(PathText, segments[i]);
      DotsRead(segments[i]);
    }
  }

  lemma ValidDecodes(k: Class, s: string)
    requires Valid(k, s)
    ensures Decodable(s)
  {
  }

  /** What the last checks refuse: bad encoding of path or query, and then a segment that reads "." or "..". */
  lemma TailRefused(path: string, query: Option<string>)
    ensures var valid := Valid(PathText, path) && (query.Some? ==> Valid(QueryText, query.value));
            && (CheckTail(path, query) == Some(Encoding) <==> !valid)
            && (CheckTail(path, query) == Some(DotSegment) <==>
                  valid && exists i :: 0 <= i < |PathSegments(path)| && Climbs(PathSegments(path)[i]))
            && (CheckTail(path, query).None? <==>
                  valid && forall i :: 0 <= i < |PathSegments(path)| ==> !Climbs(PathSegments(path)[i]))
  {
    hide Valid, PathSegments, Climbs, HasDots;
    if Valid(PathText, path) {
      PathDecodes(path);
    }
  }

  lemma QueryDecodes(query: Option<string>)
    requires query.Some? ==> Valid(QueryText, query.value)
    ensures forall i :: 0 <= i < |QueryArguments(query)| ==> Decodable(QueryArguments(query)[i])
  {
    if query.Some? {
      ValidComponents(QueryText, query.value, '&');
    }
  }

  /** Everything a caller relies on after `Uri::parse` succeeds. */
  ghost predicate Resolved(u: Uri) {
    && (forall i :: 0 <= i < |PathSegments(u.path)| ==>
          && Decodable(PathSegments(u.path)[i])
          && Utf8.Decode(Decoded(PathSegments(u.path)[i])) != "." && Utf8.Decode(Decoded(PathSegments(u.path)[i])) != "..")
    && (forall i :: 0 <= i < |QueryArguments(u.query)| ==> Decodable(QueryArguments(u.query)[i]))
    && (u.host.Name? ==> u.host.name != "" && Decodable(u.host.name))
    && (u.host.Ipv6? && u.host.zone.Some? ==> u.host.zone.value != "" && Decodable(u.host.zone.value))
    && u.port <= 0xFFFF
  }

  lemma RestResolves(transport: Transport, rest: string, ipv6: string -> bool)
    requires ParseRest(transport, rest, ipv6).Ok?
    ensures var u := ParseRest(transport, rest, ipv6).value;
            && Resolved(u) && u.transport == transport
            && rest == u.authority + Tail(u.path, u.query)
  {
    hide Valid, HasDots, PathSegments, QueryArguments, Decodable, ParseHost, Tail;
    var u := ParseRest(transport, rest, ipv6).value;
    HostDecodes(u.authority, ipv6);
    PathDecodes(u.path);
    QueryDecodes(u.query);
    assert rest == u.authority + rest[Find(rest, EndsAuthority)..];
  }

  lemma MarkSplits(input: string, m: nat)
    requires m + 3 <= |input| && input[m] == ':' && input[m + 1] == '/' && input[m + 2] == '/'
    ensures input == input[..m] + "://" + input[m + 3..]
  {
  }

  /** Each component of an accepted URI is itself valid UTF-8, no path segment is a dot segment,
      and the views reassemble the text. */
  lemma AcceptedDecodes(input: string, ipv6: string -> bool) returns (scheme: string)
    requires Parse(input, ipv6).Ok?
    ensures Resolved(Parse(input, ipv6).value)
    ensures var u := Parse(input, ipv6).value;
            && ParseScheme(scheme) == Some(u.transport)
            && input == scheme + "://" + (u.authority + Tail(u.path, u.query))
  {
    scheme := input[..FindMark(input)];
    var rest := input[FindMark(input) + 3..];
    var transport := ParseScheme(scheme).value;
    assert Parse(input, ipv6) == ParseRest(transport, rest, ipv6);
    RestResolves(transport, rest, ipv6);
    MarkSplits(input, FindMark(input));
  }

  /** `Component::decode`: exact, total on UTF-8, and silent about a short buffer. */
  method Decode(component: string, output: array<Byte>) returns (r: Result<string, Error>)
    modifies output
    ensures var bytes := Decoded(component);
            if output.Length < |bytes| then
              r == Err(Capacity) && output[..] == old(output[..])
            else
              && output[..|bytes|] == bytes
              && (forall k :: |bytes| <= k < output.Length ==> output[k] == old(output[k]))
              && r == (if Utf8.WellFormed(bytes) then Ok(Utf8.Decode(bytes)) else Err(Encoding))
  {
    var bytes := Decoded(component);
    var n := |bytes|;
    if output.Length < n {
      return Err(Capacity);
    }
    var i := 0;
    while i < n
      invariant 0 <= i <= n
      invariant forall k :: 0 <= k < i ==> output[k] == bytes[k]
      invariant forall k :: i <= k < output.Length ==> output[k] == old(output[k])
    {
      output[i] := bytes[i];
      i := i + 1;
    }
    assert output[..n] == bytes;
    if Utf8.WellFormed(output[..n]) {
      r := Ok(Utf8.Decode(output[..n]));
    } else {
      r := Err(Encoding);
    }
  }
}
