/** Writing a URI from its parts, and that the parser gives exactly those parts back. */
module UriText {
  import opened Common
  import opened Strings
  import opened Uri
  import Seqs
  import Utf8

  function Scheme(t: Transport): string {
    if t.Udp? then "coap" else "coaps"
  }

  function DefaultPort(t: Transport): nat {
    if t.Udp? then 5683 else 5684
  }

  predicate AddressChar(c: char) {
    Hex(c).Some? || c == ':' || c == '.'
  }

  /** A host the library can name: a registered name, or an IPv6 address with an optional zone. */
  predicate HostOk(h: Host, ipv6: string -> bool) {
    match h
    case Name(n) => n != "" && Valid(RegName, n)
    case Ipv6(a, z) => ipv6(a) && All(a, AddressChar) && (z.Some? ==> z.value != "" && Valid(Zone, z.value))
  }

  function Inner(a: string, z: Option<string>): string {
    if z.None? then a else a + "%25" + z.value
  }

  function HostText(h: Host): string {
    match h
    case Name(n) => n
    case Ipv6(a, z) => "[" + Inner(a, z) + "]"
  }

  /** A port as it stands in the text: absent, empty, or its digits. */
  function PortText(port: Option<string>): string {
    if port.None? then "" else ":" + port.value
  }

  function Authority(h: Host, port: Option<string>): string {
    HostText(h) + PortText(port)
  }

  /** The digits of a port number, when there is one. */
  function Digits(port: Option<nat>): Option<string> {
    if port.None? then None else Some(Decimal(port.value))
  }

  /** The URI written out. */
  function Text(t: Transport, h: Host, port: Option<nat>, path: string, query: Option<string>): string {
    Scheme(t) + "://" + (Authority(h, Digits(port)) + Tail(path, query))
  }

  /** A path, empty or from a slash, and a query, validly spelled. */
  predicate TailOk(path: string, query: Option<string>) {
    (path == "" || path[0] == '/') && Valid(PathText, path) && (query.Some? ==> Valid(QueryText, query.value))
  }

  /** Some segment reads "." or "..". */
  ghost predicate Climbing(path: string) {
    exists i :: 0 <= i < |PathSegments(path)| && Climbs(PathSegments(path)[i])
  }

  ghost predicate PathOk(path: string, query: Option<string>) {
    TailOk(path, query) && !Climbing(path)
  }

  // Characters.

  /** Legal text is made of allowed characters, hex digits and percent signs. */
  lemma {:induction false} LegalChars(k: Class, s: string)
    requires Legal(k, s)
    ensures forall i :: 0 <= i < |s| ==> s[i] == '%' || Hex(s[i]).Some? || Allowed(k, s[i])
    decreases |s|
  {
    hide Allowed, Hex;
    if s == "" {
    } else if s[0] == '%' {
      LegalChars(k, s[3..]);
      assert forall i :: 3 <= i < |s| ==> s[i] == s[3..][i - 3];
    } else {
      LegalChars(k, s[1..]);
      assert forall i :: 1 <= i < |s| ==> s[i] == s[1..][i - 1];
    }
  }

  predicate Without(s: string, c: char) {
    forall i :: 0 <= i < |s| ==> s[i] != c
  }

  lemma WithoutConcat(a: string, b: string, c: char)
    requires Without(a, c) && Without(b, c)
    ensures Without(a + b, c)
  {
  }

  lemma ValidIsLegal(k: Class, s: string)
    requires Valid(k, s)
    ensures Legal(k, s)
  {
  }

  lemma LegalWithout(k: Class, s: string, c: char)
    requires Valid(k, s) && c != '%' && Hex(c).None? && !Allowed(k, c)
    ensures Without(s, c)
  {
    hide Valid, Allowed, Hex;
    ValidIsLegal(k, s);
    LegalChars(k, s);
  }

  /** None of the characters that end or split an authority. */
  predicate Separator(c: char) {
    c == '/' || c == '?' || c == '#' || c == '@'
  }

  lemma HostWithout(h: Host, ipv6: string -> bool, c: char)
    requires HostOk(h, ipv6) && Separator(c)
    ensures Without(HostText(h), c)
  {
    match h {
      case Name(n) => LegalWithout(RegName, n, c);
      case Ipv6(a, z) =>
        assert Without(a, c);
        if z.Some? {
          LegalWithout(Zone, z.value, c);
          WithoutConcat(a, "%25", c);
          WithoutConcat(a + "%25", z.value, c);
        }
        WithoutConcat("[", Inner(a, z), c);
        WithoutConcat("[" + Inner(a, z), "]", c);
    }
  }

  /** What a port may be: nothing, or digits of a number below 65536. */
  predicate PortOk(port: Option<string>) {
    port.Some? && port.value != "" ==> All(port.value, IsDigit) && Value(port.value) <= 0xFFFF
  }

  lemma PortWithout(port: Option<string>, c: char)
    requires PortOk(port) && Separator(c)
    ensures Without(PortText(port), c)
  {
    if port.Some? {
      assert Without(port.value, c);
      WithoutConcat(":", port.value, c);
    }
  }

  lemma AuthorityWithout(h: Host, port: Option<string>, ipv6: string -> bool, c: char)
    requires HostOk(h, ipv6) && PortOk(port) && Separator(c)
    ensures Without(Authority(h, port), c)
  {
    HostWithout(h, ipv6, c);
    PortWithout(port, c);
    WithoutConcat(HostText(h), PortText(port), c);
  }

  // The authority.

  /** A port part: nothing, or a colon and its digits. */
  predicate Suffix(p: string) {
    p == "" || p[0] == ':'
  }

  function After(p: string): Option<string> {
    if p == "" then None else Some(p[1..])
  }

  lemma PortIsSuffix(port: Option<string>)
    ensures Suffix(PortText(port)) && After(PortText(port)) == port
  {
    if port.Some? {
      assert PortText(port)[1..] == port.value;
    }
  }

  lemma NameBranch(n: string, p: string, ipv6: string -> bool)
    requires n != "" && Valid(RegName, n) && Suffix(p) && Without(n, ':') && Without(n, '[')
    ensures ParseHost(n + p, ipv6) == Ok((Name(n), After(p)))
  {
    hide Valid, FindZone, FindChar;
    var authority := n + p;
    assert authority[0] == n[0];
    FindCharUnique(authority, ':', |n|);
    assert authority[..|n|] == n;
    if p != "" {
      assert authority[|n| + 1..] == p[1..];
    }
  }

  lemma NameParses(n: string, port: Option<string>, ipv6: string -> bool)
    requires n != "" && Valid(RegName, n)
    ensures ParseHost(n + PortText(port), ipv6) == Ok((Name(n), port))
  {
    hide Valid, PortText, ParseHost;
    LegalWithout(RegName, n, ':');
    LegalWithout(RegName, n, '[');
    PortIsSuffix(port);
    NameBranch(n, PortText(port), ipv6);
  }

  lemma {:induction false} NoZone(a: string)
    requires Without(a, '%')
    ensures FindZone(a) == |a|
  {
    if a != "" {
      assert |a| >= 3 ==> a[..3][0] == a[0];
      assert Without(a[1..], '%');
      NoZone(a[1..]);
    }
  }

  lemma {:induction false} ZoneAt(a: string, z: string)
    requires Without(a, '%')
    ensures FindZone(a + "%25" + z) == |a|
    decreases |a|
  {
    var s := a + "%25" + z;
    if a == "" {
      assert s[..3] == "%25";
    } else {
      assert s[1..] == a[1..] + "%25" + z;
      assert s[0] == a[0];
      assert s[..3][0] == a[0];
      ZoneAt(a[1..], z);
    }
  }

  lemma AddressPlain(a: string)
    requires All(a, AddressChar)
    ensures Without(a, '%') && Without(a, ']')
  {
  }

  lemma LiteralBranch(inner: string, p: string, ipv6: string -> bool)
    requires Without(inner, ']') && Suffix(p)
    ensures ParseHost("[" + inner + "]" + p, ipv6) == ParseLiteral(inner, After(p), ipv6)
  {
    hide ParseLiteral, FindChar, Valid;
    var authority := "[" + inner + "]" + p;
    var literal := authority[1..];
    assert literal == inner + "]" + p;
    FindCharUnique(literal, ']', |inner|);
    assert literal[..|inner|] == inner && literal[|inner| + 1..] == p;
  }

  lemma LiteralParses(a: string, z: Option<string>, port: Option<string>, ipv6: string -> bool)
    requires ipv6(a) && Without(a, '%') && (z.Some? ==> z.value != "" && Valid(Zone, z.value))
    ensures ParseLiteral(Inner(a, z), port, ipv6) == Ok((Ipv6(a, z), port))
  {
    hide Valid, FindZone;
    var inner := Inner(a, z);
    if z.Some? {
      ZoneAt(a, z.value);
      assert inner[..|a|] == a && inner[|a| + 3..] == z.value;
    } else {
      NoZone(a);
    }
  }

  lemma InnerWithout(a: string, z: Option<string>)
    requires Without(a, ']') && (z.Some? ==> Valid(Zone, z.value))
    ensures Without(Inner(a, z), ']')
  {
    if z.Some? {
      LegalWithout(Zone, z.value, ']');
      WithoutConcat(a, "%25", ']');
      WithoutConcat(a + "%25", z.value, ']');
    }
  }

  lemma Ipv6Parses(a: string, z: Option<string>, port: Option<string>, ipv6: string -> bool)
    requires HostOk(Ipv6(a, z), ipv6)
    ensures ParseHost(HostText(Ipv6(a, z)) + PortText(port), ipv6) == Ok((Ipv6(a, z), port))
  {
    hide Valid, ParseHost, ParseLiteral, Inner, PortText;
    AddressPlain(a);
    InnerWithout(a, z);
    PortIsSuffix(port);
    LiteralBranch(Inner(a, z), PortText(port), ipv6);
    LiteralParses(a, z, port, ipv6);
  }

  function PortOf(port: Option<string>, t: Transport): nat
    requires PortOk(port)
  {
    if port.None? || port.value == "" then DefaultPort(t) else Value(port.value)
  }

  lemma PortParses(port: Option<string>, t: Transport)
    ensures ParsePort(port, DefaultPort(t)).Ok? <==> PortOk(port)
    ensures PortOk(port) ==> ParsePort(port, DefaultPort(t)) == Ok(PortOf(port, t))
  {
  }

  // The tail.

  lemma TailSplits(path: string, query: Option<string>)
    requires TailOk(path, query)
    ensures SplitTail(Tail(path, query)) == (path, query)
    ensures Without(Tail(path, query), '#')
  {
    hide Valid;
    LegalWithout(PathText, path, '?');
    LegalWithout(PathText, path, '#');
    var tail := Tail(path, query);
    FindCharUnique(tail, '?', |path|);
    assert tail[..|path|] == path;
    if query.Some? {
      LegalWithout(QueryText, query.value, '#');
      assert tail[|path| + 1..] == query.value;
      WithoutConcat(path, "?", '#');
      WithoutConcat(path + "?", query.value, '#');
    }
  }

  lemma RestParses(t: Transport, h: Host, port: Option<string>, path: string, query: Option<string>, ipv6: string -> bool)
    requires HostOk(h, ipv6) && PortOk(port) && TailOk(path, query)
    ensures ParseRest(t, Authority(h, port) + Tail(path, query), ipv6)
         == if Climbing(path) then Err(DotSegment) else Ok(Uri(t, Authority(h, port), h, PortOf(port, t), path, query))
  {
    hide Valid, ParseHost, ParsePort, CheckTail, HostText, SplitTail, PortText, PortOf, Climbs, PathSegments;
    var authority, tail := Authority(h, port), Tail(path, query);
    var rest := authority + tail;
    AuthorityWithout(h, port, ipv6, '/');
    AuthorityWithout(h, port, ipv6, '?');
    AuthorityWithout(h, port, ipv6, '@');
    HostNonEmpty(h, ipv6);
    FindUnique(rest, EndsAuthority, |authority|);
    assert rest[..|authority|] == authority && rest[|authority|..] == tail;
    FindCharUnique(authority, '@', |authority|);
    if h.Name? {
      NameParses(h.name, port, ipv6);
      NameIsText(h.name);
    } else {
      Ipv6Parses(h.address, h.zone, port, ipv6);
    }
    PortParses(port, t);
    TailSplits(path, query);
    TailRefused(path, query);
  }

  lemma NameIsText(n: string)
    ensures HostText(Name(n)) == n
  {
  }

  lemma HostNonEmpty(h: Host, ipv6: string -> bool)
    requires HostOk(h, ipv6)
    ensures HostText(h) != ""
  {
  }

  lemma SchemeChars(scheme: string)
    requires ParseScheme(scheme).Some?
    ensures Without(scheme, ':') && Without(scheme, '#')
  {
    var name := if SameIgnoringCase(scheme, "coap") then "coap" else "coaps";
    forall i | 0 <= i < |scheme|
      ensures scheme[i] != ':' && scheme[i] != '#'
    {
      assert Lower(scheme[i]) == Lower(name[i]) && IsLower(name[i]);
    }
  }

  lemma MarkAfter(scheme: string, rest: string)
    requires Without(scheme, ':')
    ensures var s := scheme + "://" + rest;
            FindMark(s) == |scheme| && s[..|scheme|] == scheme && s[|scheme| + 3..] == rest
  {
    var s := scheme + "://" + rest;
    NotYet(s, |scheme|);
    assert SchemeMark(s[|scheme|..]);
  }

  lemma {:induction false} NotYet(s: string, n: nat)
    requires n + 3 <= |s| && SchemeMark(s[n..]) && forall i :: 0 <= i < n ==> s[i] != ':'
    ensures FindMark(s) == n
    decreases n
  {
    if n == 0 {
      assert s[0..] == s;
    } else {
      assert s[1..][n - 1..] == s[n..];
      NotYet(s[1..], n - 1);
    }
  }

  /** Completeness: a URI in any spelling of its scheme, with a namable host, a port or none, and a
      valid path and query, is refused if a segment reads "." or "..", and otherwise accepted and gives
      back exactly those parts. */
  lemma ParsesText(scheme: string, t: Transport, h: Host, port: Option<string>, path: string, query: Option<string>, ipv6: string -> bool)
    requires ParseScheme(scheme) == Some(t) && HostOk(h, ipv6) && PortOk(port) && TailOk(path, query)
    ensures Parse(scheme + "://" + (Authority(h, port) + Tail(path, query)), ipv6)
         == if Climbing(path) then Err(DotSegment) else Ok(Uri(t, Authority(h, port), h, PortOf(port, t), path, query))
  {
    hide Valid, ParseRest, ParseScheme, FindMark, CheckTail, Authority, HostOk, PortOf, PortOk, Climbing;
    var rest := Authority(h, port) + Tail(path, query);
    var input := scheme + "://" + rest;
    RestParses(t, h, port, path, query, ipv6);
    SchemeChars(scheme);
    MarkAfter(scheme, rest);
    AuthorityWithout(h, port, ipv6, '#');
    TailSplits(path, query);
    WithoutConcat(Authority(h, port), Tail(path, query), '#');
    WithoutConcat(scheme, "://", '#');
    WithoutConcat(scheme + "://", rest, '#');
    FindCharUnique(input, '#', |input|);
  }

  /** In particular one written from its parts, with the transport's own port when none is given. */
  lemma ParsesBack(t: Transport, h: Host, port: Option<nat>, path: string, query: Option<string>, ipv6: string -> bool)
    requires HostOk(h, ipv6) && (port.Some? ==> port.value <= 0xFFFF) && PathOk(path, query)
    ensures Parse(Text(t, h, port, path, query), ipv6)
         == Ok(Uri(t, Authority(h, Digits(port)), h, if port.None? then DefaultPort(t) else port.value, path, query))
  {
    hide Parse, Authority, HostOk, TailOk, Climbing, ParseScheme, Tail;
    SchemeParses(t);
    ParsesText(Scheme(t), t, h, Digits(port), path, query, ipv6);
  }

  lemma SchemeParses(t: Transport)
    ensures ParseScheme(Scheme(t)) == Some(t)
  {
    assert Scheme(Dtls) != Scheme(Udp);
  }

  // Soundness, in the same words.

  /** An address is spelled with hexadecimal digits, colons and dots. */
  ghost predicate Textual(ipv6: string -> bool) {
    forall a :: ipv6(a) ==> All(a, AddressChar)
  }

  lemma LiteralIs(inner: string, port: Option<string>, ipv6: string -> bool)
    requires ParseLiteral(inner, port, ipv6).Ok? && Textual(ipv6)
    ensures var (h, p) := ParseLiteral(inner, port, ipv6).value;
            p == port && HostOk(h, ipv6) && HostText(h) == "[" + inner + "]"
  {
    hide Valid;
    var mark := FindZone(inner);
    if mark < |inner| {
      assert inner == inner[..mark] + "%25" + inner[mark + 3..];
    }
  }

  lemma LiteralHostIs(authority: string, ipv6: string -> bool)
    requires authority != "" && authority[0] == '[' && ParseHost(authority, ipv6).Ok? && Textual(ipv6)
    ensures var (h, p) := ParseHost(authority, ipv6).value;
            HostOk(h, ipv6) && authority == Authority(h, p)
  {
    hide Valid, ParseLiteral, FindChar, HostOk, HostText, Textual;
    var literal := authority[1..];
    var close := FindChar(literal, ']');
    var suffix := literal[close + 1..];
    var port := if suffix == "" then None else Some(suffix[1..]);
    LiteralIs(literal[..close], port, ipv6);
    assert authority == "[" + literal[..close] + "]" + suffix;
    assert suffix == PortText(port);
  }

  lemma NameHostIs(authority: string, ipv6: string -> bool)
    requires authority != "" && authority[0] != '[' && ParseHost(authority, ipv6).Ok?
    ensures var (h, p) := ParseHost(authority, ipv6).value;
            HostOk(h, ipv6) && authority == Authority(h, p)
  {
    hide Valid, FindChar;
    var colon := FindChar(authority, ':');
    var port := if colon == |authority| then None else Some(authority[colon + 1..]);
    assert authority == authority[..colon] + PortText(port);
  }

  lemma HostIs(authority: string, ipv6: string -> bool)
    requires authority != "" && ParseHost(authority, ipv6).Ok? && Textual(ipv6)
    ensures var (h, p) := ParseHost(authority, ipv6).value;
            HostOk(h, ipv6) && authority == Authority(h, p)
  {
    hide ParseHost, HostOk, Authority, Textual;
    if authority[0] == '[' {
      LiteralHostIs(authority, ipv6);
    } else {
      NameHostIs(authority, ipv6);
    }
  }

  lemma PathIs(rest: string, end: nat)
    requires end == Find(rest, EndsAuthority)
    ensures var (path, _) := SplitTail(rest[end..]); path == "" || path[0] == '/'
  {
    var tail := rest[end..];
    var q := FindChar(tail, '?');
    if tail != "" {
      assert tail[0] == rest[end];
    }
  }

  /** What was read before the segments were looked at. */
  lemma RestIs(t: Transport, rest: string, ipv6: string -> bool) returns (u: Uri, port: Option<string>)
    requires (ParseRest(t, rest, ipv6).Ok? || ParseRest(t, rest, ipv6) == Err(DotSegment)) && Textual(ipv6)
    ensures ParseRest(t, rest, ipv6) == if Climbing(u.path) then Err(DotSegment) else Ok(u)
    ensures && u.transport == t && HostOk(u.host, ipv6) && PortOk(port) && u.port == PortOf(port, t)
            && u.authority == Authority(u.host, port) && TailOk(u.path, u.query)
            && rest == u.authority + Tail(u.path, u.query)
  {
    hide Valid, HasDots, PathSegments, ParseHost, ParsePort, SplitTail, HostOk, Authority, PortOk, PortOf, Tail, Textual, Find, FindChar,
      Climbs, CheckTail;
    var end := Find(rest, EndsAuthority);
    HostErrors(rest[..end], ipv6);
    var (host, text) := ParseHost(rest[..end], ipv6).value;
    port := text;
    HostIs(rest[..end], ipv6);
    PortParses(port, t);
    PortErrors(port, DefaultPort(t));
    var (path, query) := SplitTail(rest[end..]);
    u := Uri(t, rest[..end], host, PortOf(port, t), path, query);
    PathIs(rest, end);
    TailIs(rest[end..]);
    TailRefused(path, query);
    assert rest == rest[..end] + rest[end..];
  }

  lemma PortErrors(port: Option<string>, default: nat)
    ensures ParsePort(port, default).Err? ==> ParsePort(port, default).error == Error.Port
  {
  }

  lemma HostErrors(authority: string, ipv6: string -> bool)
    ensures authority != "" && ParseHost(authority, ipv6).Err? ==> ParseHost(authority, ipv6).error != DotSegment
  {
    hide Valid, FindChar, FindZone;
  }

  lemma TailIs(tail: string)
    ensures tail == Tail(SplitTail(tail).0, SplitTail(tail).1)
  {
  }

  /** The text is made of these parts: some spelling of the scheme, a namable host, a port or none, a valid
      path that is empty or starts with a slash, and a valid query. */
  ghost predicate Writes(input: string, u: Uri, scheme: string, port: Option<string>, ipv6: string -> bool) {
    && ParseScheme(scheme) == Some(u.transport) && HostOk(u.host, ipv6) && PortOk(port) && TailOk(u.path, u.query)
    && u.authority == Authority(u.host, port) && u.port == PortOf(port, u.transport)
    && input == scheme + "://" + (u.authority + Tail(u.path, u.query))
  }

  /** The text is this URI: made of its parts, and no segment reads "." or "..". */
  ghost predicate Spells(input: string, u: Uri, scheme: string, port: Option<string>, ipv6: string -> bool) {
    && Writes(input, u, scheme, port, ipv6)
    && forall i :: 0 <= i < |PathSegments(u.path)| && Decodable(PathSegments(u.path)[i]) ==>
         Utf8.Decode(Decoded(PathSegments(u.path)[i])) != "." && Utf8.Decode(Decoded(PathSegments(u.path)[i])) != ".."
  }

  lemma SpellsIs(input: string, u: Uri, scheme: string, port: Option<string>, ipv6: string -> bool)
    ensures Spells(input, u, scheme, port, ipv6) <==> Writes(input, u, scheme, port, ipv6) && !Climbing(u.path)
  {
    hide Writes, PathSegments, Decoded, Utf8.Decode, Utf8.WellFormed;
  }

  /** `Uri::parse` accepts a text with these parts if and only if the text spells them. */
  lemma ParsesIff(input: string, u: Uri, ipv6: string -> bool)
    requires Textual(ipv6)
    ensures Parse(input, ipv6) == Ok(u) <==> exists scheme, port :: Spells(input, u, scheme, port, ipv6)
  {
    hide Valid, ParseRest, ParseScheme, HostOk, PortOk, PortOf, TailOk, Climbing, Authority, Tail, Spells;
    if Parse(input, ipv6) == Ok(u) {
      var scheme, parts, port := Reads(input, ipv6);
      assert parts == u;
      SpellsIs(input, u, scheme, port, ipv6);
    }
    if exists scheme, port :: Spells(input, u, scheme, port, ipv6) {
      var scheme, port :| Spells(input, u, scheme, port, ipv6);
      SpellsIs(input, u, scheme, port, ipv6);
      ParsesText(scheme, u.transport, u.host, port, u.path, u.query, ipv6);
    }
  }

  /** Whatever gets as far as its segments is made of valid parts. */
  lemma Reads(input: string, ipv6: string -> bool) returns (scheme: string, u: Uri, port: Option<string>)
    requires Textual(ipv6) && (Parse(input, ipv6).Ok? || Parse(input, ipv6) == Err(DotSegment))
    ensures Writes(input, u, scheme, port, ipv6) && Parse(input, ipv6) == if Climbing(u.path) then Err(DotSegment) else Ok(u)
  {
    hide Valid, ParseRest, ParseScheme, HostOk, PortOk, PortOf, TailOk, Climbing, Authority, Tail, FindMark;
    var mark := FindMark(input);
    scheme := input[..mark];
    u, port := RestIs(ParseScheme(scheme).value, input[mark + 3..], ipv6);
    MarkSplits(input, mark);
  }

  /** And exactly when it refuses a text for its fragment, its scheme or its dot segments. */
  lemma RefusesIff(input: string, ipv6: string -> bool)
    requires Textual(ipv6)
    ensures Parse(input, ipv6) == Err(Fragment) <==> '#' in input
    ensures Parse(input, ipv6) == Err(Error.Scheme) <==>
              '#' !in input && forall scheme, rest :: ParseScheme(scheme).Some? ==> input != scheme + "://" + rest
    ensures Parse(input, ipv6) == Err(DotSegment) <==>
              exists scheme, u, port :: Writes(input, u, scheme, port, ipv6) && Climbing(u.path)
  {
    hide Valid, ParseRest, ParseScheme, HostOk, PortOk, PortOf, TailOk, Climbing, Authority, Tail, FindMark;
    FragmentRefusedIff(input, ipv6);
    if Parse(input, ipv6) == Err(DotSegment) {
      var scheme, u, port := Reads(input, ipv6);
      assert Writes(input, u, scheme, port, ipv6) && Climbing(u.path);
    }
    if exists scheme, u, port :: Writes(input, u, scheme, port, ipv6) && Climbing(u.path) {
      var scheme, u, port :| Writes(input, u, scheme, port, ipv6) && Climbing(u.path);
      ParsesText(scheme, u.transport, u.host, port, u.path, u.query, ipv6);
    }
    SchemeRefusedIff(input, ipv6);
  }

  lemma FragmentRefusedIff(input: string, ipv6: string -> bool)
    ensures Parse(input, ipv6) == Err(Fragment) <==> '#' in input
  {
    hide ParseRest, ParseScheme, FindMark;
    assert '#' in input <==> FindChar(input, '#') < |input|;
    var mark := FindMark(input);
    if mark < |input| && ParseScheme(input[..mark]).Some? {
      RestErrors(ParseScheme(input[..mark]).value, input[mark + 3..], ipv6);
    }
  }

  lemma SchemeRefusedIff(input: string, ipv6: string -> bool)
    ensures Parse(input, ipv6) == Err(Error.Scheme) <==>
              '#' !in input && forall scheme, rest :: ParseScheme(scheme).Some? ==> input != scheme + "://" + rest
  {
    hide Valid, ParseRest, ParseScheme, FindMark;
    var mark := FindMark(input);
    assert '#' in input <==> FindChar(input, '#') < |input|;
    forall scheme, rest | ParseScheme(scheme).Some? && input == scheme + "://" + rest
      ensures mark == |scheme| && mark < |input| && input[..mark] == scheme
    {
      SchemeChars(scheme);
      MarkAfter(scheme, rest);
    }
    if mark < |input| {
      MarkSplits(input, mark);
      if ParseScheme(input[..mark]).Some? {
        RestErrors(ParseScheme(input[..mark]).value, input[mark + 3..], ipv6);
      }
    }
  }

  lemma RestErrors(t: Transport, rest: string, ipv6: string -> bool)
    ensures ParseRest(t, rest, ipv6).Err? ==> ParseRest(t, rest, ipv6).error != Error.Scheme && ParseRest(t, rest, ipv6).error != Fragment
  {
    hide Valid, FindChar, FindZone, Find, HasDots, SplitTail;
  }
}
