/**
 Why a URI is refused. Every text without a fragment and with one of the two schemes is put together from
 an authority of one of three shapes, a path and a query; what the parser answers is read off the parts,
 the refusals in the order in which the parts are judged.
 */
module UriErrors {
  import opened Common
  import opened Strings
  import opened Uri
  import opened UriText
  import Seqs

  /** An authority as text: a name and a port, brackets with what stands in and after them, or an open bracket. */
  datatype Shape =
    | Plain(name: string, port: Option<string>)
    | Bracket(address: string, zone: Option<string>, after: string)
    | Open(text: string)

  function Written(a: Shape): string {
    match a
    case Plain(name, port) => name + PortText(port)
    case Bracket(address, zone, after) => "[" + Inner(address, zone) + "]" + after
    case Open(text) => "[" + text
  }

  /** Text in which the zone mark does not occur. */
  predicate Unmarked(s: string) {
    forall i :: 0 <= i < |s| && s[i] == '%' ==> i + 2 >= |s| || s[i + 1] != '2' || s[i + 2] != '5'
  }

  /** Each part stops where the next one starts. */
  predicate Shaped(a: Shape) {
    match a
    case Plain(name, _) => Without(name, ':') && !HasPrefix(name, '[')
    case Bracket(address, zone, _) => Without(Inner(address, zone), ']') && Unmarked(address)
    case Open(text) => Without(text, ']')
  }

  /** A name must not be empty and must be spelled validly; after a bracket only a port may stand, a zone must
      not be empty and must be spelled validly, and the address must be one. */
  function Judged(a: Shape, ipv6: string -> bool): Result<(Host, Option<string>), Error> {
    match a
    case Plain(name, port) =>
      if name == "" then Err(Error.Authority) else if !Valid(RegName, name) then Err(Encoding) else Ok((Name(name), port))
    case Bracket(address, zone, after) =>
      if after != "" && after[0] != ':' then Err(Error.Authority)
      else if zone == Some("") then Err(Error.Authority)
      else if zone.Some? && !Valid(Zone, zone.value) then Err(Encoding)
      else if !ipv6(address) then Err(Error.Authority)
      else Ok((Ipv6(address, zone), After(after)))
    case Open(_) => Err(Error.Authority)
  }

  // The authority.

  lemma PlainIs(name: string, port: Option<string>, ipv6: string -> bool)
    requires Without(name, ':') && !HasPrefix(name, '[') && name + PortText(port) != ""
    ensures ParseHost(name + PortText(port), ipv6) == Judged(Plain(name, port), ipv6)
  {
    hide Valid, FindZone, FindChar;
    var a := name + PortText(port);
    PortIsSuffix(port);
    FindCharUnique(a, ':', |name|);
    assert a[..|name|] == name;
    assert name != "" ==> a[0] == name[0];
    if port.Some? {
      assert a[|name| + 1..] == port.value;
    }
  }

  lemma {:induction false} UnmarkedZone(address: string, rest: string)
    requires Unmarked(address)
    ensures FindZone(address) == |address| && FindZone(address + "%25" + rest) == |address|
    decreases |address|
  {
    var s := address + "%25" + rest;
    if address == "" {
      assert s[..3] == "%25";
    } else {
      assert s[1..] == address[1..] + "%25" + rest;
      UnmarkedTail(address);
      NotHere(address, rest);
      UnmarkedZone(address[1..], rest);
    }
  }

  lemma UnmarkedTail(s: string)
    requires s != "" && Unmarked(s)
    ensures Unmarked(s[1..])
  {
    assert forall i :: 0 <= i < |s[1..]| ==> s[1..][i] == s[i + 1];
  }

  /** The mark starts with a percent sign and has no other, so it cannot begin before its place. */
  lemma NotHere(address: string, rest: string)
    requires address != "" && Unmarked(address)
    ensures |address| >= 3 ==> address[..3] != "%25"
    ensures (address + "%25" + rest)[..3] != "%25"
  {
    var s := address + "%25" + rest;
    if |address| >= 3 {
      assert address[..3][0] == address[0] && address[..3][1] == address[1] && address[..3][2] == address[2];
      assert s[..3] == address[..3];
    } else {
      assert s[..3][|address|] == s[|address|] == '%';
      assert "%25"[1] != '%' && "%25"[2] != '%';
    }
  }

  lemma LiteralIsJudged(address: string, zone: Option<string>, port: Option<string>, ipv6: string -> bool)
    requires Unmarked(address)
    ensures ParseLiteral(Inner(address, zone), port, ipv6)
         == if zone == Some("") then Err(Error.Authority)
            else if zone.Some? && !Valid(Zone, zone.value) then Err(Encoding)
            else if !ipv6(address) then Err(Error.Authority)
            else Ok((Ipv6(address, zone), port))
  {
    hide Valid, FindZone, Unmarked;
    UnmarkedZone(address, if zone.None? then "" else zone.value);
    if zone.Some? {
      var inner := Inner(address, zone);
      assert inner[..|address|] == address && inner[|address| + 3..] == zone.value;
    }
  }

  lemma BracketIs(inner: string, after: string, ipv6: string -> bool)
    requires Without(inner, ']')
    ensures ParseHost("[" + inner + "]" + after, ipv6)
         == if after != "" && after[0] != ':' then Err(Error.Authority) else ParseLiteral(inner, After(after), ipv6)
  {
    hide ParseLiteral, FindChar, Valid;
    var literal := ("[" + inner + "]" + after)[1..];
    assert literal == inner + "]" + after;
    FindCharUnique(literal, ']', |inner|);
    assert literal[..|inner|] == inner && literal[|inner| + 1..] == after;
  }

  lemma OpenIs(text: string, ipv6: string -> bool)
    requires Without(text, ']')
    ensures ParseHost("[" + text, ipv6) == Err(Error.Authority)
  {
    hide ParseLiteral, Valid;
    assert ("[" + text)[1..] == text;
    FindCharUnique(text, ']', |text|);
  }

  lemma HostIsJudged(a: Shape, ipv6: string -> bool)
    requires Shaped(a) && Written(a) != ""
    ensures ParseHost(Written(a), ipv6) == Judged(a, ipv6)
  {
    hide Valid, ParseHost, ParseLiteral, Inner, Unmarked, PortText, Without;
    match a {
      case Plain(name, port) => PlainIs(name, port, ipv6);
      case Bracket(address, zone, after) =>
        BracketIs(Inner(address, zone), after, ipv6);
        LiteralIsJudged(address, zone, After(after), ipv6);
      case Open(text) => OpenIs(text, ipv6);
    }
  }

  /** Every text is the authority of some shape. */
  lemma ShapeOf(text: string) returns (a: Shape)
    ensures Shaped(a) && Written(a) == text
  {
    if !HasPrefix(text, '[') {
      a := PlainOf(text);
    } else {
      a := BracketOf(text[1..]);
      assert text == "[" + text[1..];
    }
  }

  lemma PlainOf(text: string) returns (a: Shape)
    requires !HasPrefix(text, '[')
    ensures Shaped(a) && Written(a) == text
  {
    var colon := FindChar(text, ':');
    a := Plain(text[..colon], if colon == |text| then None else Some(text[colon + 1..]));
    assert text == text[..colon] + text[colon..];
    assert colon < |text| ==> text[colon..] == ":" + text[colon + 1..];
  }

  lemma BracketOf(body: string) returns (a: Shape)
    ensures Shaped(a) && Written(a) == "[" + body
  {
    hide Unmarked, Inner, FindZone;
    var close := FindChar(body, ']');
    if close == |body| {
      a := Open(body);
    } else {
      var address, zone := InnerOf(body[..close]);
      a := Bracket(address, zone, body[close + 1..]);
      assert body == body[..close] + "]" + body[close + 1..];
      assert "[" + body[..close] + "]" + body[close + 1..] == "[" + body;
    }
  }

  lemma InnerOf(inner: string) returns (address: string, zone: Option<string>)
    ensures Unmarked(address) && Inner(address, zone) == inner
  {
    var mark := FindZone(inner);
    address := inner[..mark];
    zone := if mark == |inner| then None else Some(inner[mark + 3..]);
    if mark < |inner| {
      assert inner == inner[..mark] + "%25" + inner[mark + 3..];
    }
    BeforeMark(inner);
  }

  lemma {:induction false} BeforeMark(s: string)
    ensures Unmarked(s[..FindZone(s)])
    decreases |s|
  {
    var n := FindZone(s);
    if n > 0 {
      BeforeMark(s[1..]);
      assert s[..n][1..] == s[1..][..n - 1];
      assert |s| >= 3 ==> s[..3] == [s[0], s[1], s[2]];
      UnmarkedCons(s[..n]);
    }
  }

  lemma UnmarkedCons(s: string)
    requires s != "" && Unmarked(s[1..])
    requires !(|s| >= 3 && s[0] == '%' && s[1] == '2' && s[2] == '5')
    ensures Unmarked(s)
  {
    assert forall i :: 1 <= i < |s| ==> s[i] == s[1..][i - 1];
  }

  // The rest.

  /** A path that is empty or starts with a slash, up to the first question mark. */
  predicate Tailed(path: string) {
    (path == "" || path[0] == '/') && Without(path, '?')
  }

  predicate SpelledTail(path: string, query: Option<string>) {
    Valid(PathText, path) && (query.Some? ==> Valid(QueryText, query.value))
  }

  /** The answer, part by part. */
  ghost function Answer(t: Transport, a: Shape, path: string, query: Option<string>, ipv6: string -> bool): Result<Uri, Error> {
    var text := Written(a);
    if text == "" || '@' in text then Err(Error.Authority)
    else match Judged(a, ipv6)
      case Err(e) => Err(e)
      case Ok((host, port)) =>
        if !PortOk(port) then Err(Error.Port)
        else if !SpelledTail(path, query) then Err(Encoding)
        else if Climbing(path) then Err(DotSegment)
        else Ok(Uri(t, text, host, PortOf(port, t), path, query))
  }

  lemma TailApart(path: string, query: Option<string>)
    requires Tailed(path)
    ensures SplitTail(Tail(path, query)) == (path, query)
    ensures Tail(path, query) == "" || EndsAuthority(Tail(path, query)[0])
  {
    var tail := Tail(path, query);
    FindCharUnique(tail, '?', |path|);
    assert tail[..|path|] == path;
    if query.Some? {
      assert tail[|path| + 1..] == query.value;
    }
  }

  lemma AuthorityApart(text: string, tail: string)
    requires Without(text, '/') && Without(text, '?') && (tail == "" || EndsAuthority(tail[0]))
    ensures Find(text + tail, EndsAuthority) == |text| && (text + tail)[..|text|] == text && (text + tail)[|text|..] == tail
    ensures FindChar(text, '@') < |text| <==> '@' in text
  {
    FindUnique(text + tail, EndsAuthority, |text|);
  }

  lemma RestAnswers(t: Transport, a: Shape, path: string, query: Option<string>, ipv6: string -> bool)
    requires Shaped(a) && Without(Written(a), '/') && Without(Written(a), '?') && Tailed(path)
    ensures ParseRest(t, Written(a) + Tail(path, query), ipv6) == Answer(t, a, path, query, ipv6)
  {
    hide Valid, Find, FindChar, SplitTail, CheckTail, Judged, Written, Shaped, Tail, ParseHost, ParsePort, PortOk, PortOf, Climbing,
      SpelledTail, Without;
    TailApart(path, query);
    AuthorityApart(Written(a), Tail(path, query));
    if Written(a) != "" {
      HostIsJudged(a, ipv6);
      if Judged(a, ipv6).Ok? {
        var port := Judged(a, ipv6).value.1;
        PortParses(port, t);
        PortErrors(port, DefaultPort(t));
      }
    }
    TailAnswers(path, query);
  }

  lemma TailAnswers(path: string, query: Option<string>)
    ensures CheckTail(path, query)
         == if !SpelledTail(path, query) then Some(Encoding) else if Climbing(path) then Some(DotSegment) else None
  {
    hide Valid, PathSegments, Climbs, CheckTail;
    TailRefused(path, query);
  }

  /** The parser's answer to every text without a fragment that starts with a known scheme. */
  lemma Answers(scheme: string, t: Transport, a: Shape, path: string, query: Option<string>, ipv6: string -> bool)
    requires ParseScheme(scheme) == Some(t) && Shaped(a) && Without(Written(a), '/') && Without(Written(a), '?') && Tailed(path)
    requires '#' !in Written(a) + Tail(path, query)
    ensures Parse(scheme + "://" + (Written(a) + Tail(path, query)), ipv6) == Answer(t, a, path, query, ipv6)
  {
    hide Valid, ParseRest, ParseScheme, FindMark, Written, Tail, Shaped, Answer, Tailed;
    var rest := Written(a) + Tail(path, query);
    RestAnswers(t, a, path, query, ipv6);
    SchemeChars(scheme);
    MarkAfter(scheme, rest);
    NoHash(scheme, rest);
  }

  lemma NoHash(scheme: string, rest: string)
    requires Without(scheme, '#') && '#' !in rest
    ensures FindChar(scheme + "://" + rest, '#') == |scheme + "://" + rest|
  {
    var input := scheme + "://" + rest;
    FindCharUnique(input, '#', |input|);
  }

  /** And every such text has such parts. */
  lemma Parts(rest: string) returns (a: Shape, path: string, query: Option<string>)
    ensures Shaped(a) && Without(Written(a), '/') && Without(Written(a), '?') && Tailed(path)
    ensures rest == Written(a) + Tail(path, query)
  {
    hide Shaped, Written;
    var end := Find(rest, EndsAuthority);
    a := ShapeOf(rest[..end]);
    var split := SplitTail(rest[end..]);
    path, query := split.0, split.1;
    PathIs(rest, end);
    assert rest == rest[..end] + rest[end..];
  }

  /** The two schemes, letter by letter in either case. */
  lemma SchemeSpelled(s: string)
    ensures ParseScheme(s) == Some(Udp) <==> |s| == 4 && s[0] in "cC" && s[1] in "oO" && s[2] in "aA" && s[3] in "pP"
    ensures ParseScheme(s) == Some(Dtls) <==>
              |s| == 5 && s[0] in "cC" && s[1] in "oO" && s[2] in "aA" && s[3] in "pP" && s[4] in "sS"
  {
    if |s| == 4 {
      assert SameIgnoringCase(s, "coap") <==>
             Lower(s[0]) == 'c' && Lower(s[1]) == 'o' && Lower(s[2]) == 'a' && Lower(s[3]) == 'p';
    }
    if |s| == 5 {
      assert SameIgnoringCase(s, "coaps") <==>
             Lower(s[0]) == 'c' && Lower(s[1]) == 'o' && Lower(s[2]) == 'a' && Lower(s[3]) == 'p' && Lower(s[4]) == 's';
    }
  }
}
