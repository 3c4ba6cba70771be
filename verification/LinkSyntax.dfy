/**
 The link-format parser (section 2 of RFC 6690): `ParseLink` and its helpers follow the borrowed,
 in-place parser, and `Links` the iterator over it.
 */
module LinkSyntax {
  import opened Common
  import opened Strings
  import Utf8

  datatype Error = Syntax | DuplicateAttribute | ReservedAttribute | OutputTooSmall

  /** A value without its quotes; backslash escapes remain in `raw` when `escaped`. */
  datatype Text = Text(raw: string, escaped: bool)

  datatype Attribute = Attribute(name: string, value: Option<Text>)

  /** One yielded link: the target and the unparsed attribute slice. */
  datatype Link = Link(target: string, attributes: string)

  // Character classes. Each accepts ASCII only, so a byte scan and a character scan agree.

  predicate NameChar(c: char) {
    || IsAlnum(c)
    || c == '!' || c == '#' || c == '$' || c == '&' || c == '+' || c == '-'
    || c == '.' || c == '^' || c == '_' || c == '`' || c == '|' || c == '~'
  }

  predicate NameOrStar(c: char) {
    NameChar(c) || c == '*'
  }

  predicate TokenChar(c: char) {
    || IsAlnum(c)
    || c == '!' || c == '#' || c == '$' || c == '%' || c == '&' || c == '\''
    || c == '(' || c == ')' || c == '*' || c == '+' || c == '-' || c == '.'
    || c == '/' || c == ':' || c == '<' || c == '=' || c == '>' || c == '?'
    || c == '@' || c == '[' || c == ']' || c == '^' || c == '_' || c == '`'
    || c == '{' || c == '|' || c == '}' || c == '~'
  }

  predicate Control(c: char) {
    c as int < 0x20 || c as int == 0x7F
  }

  predicate HexDigit(c: char) {
    IsDigit(c) || 'a' <= c <= 'f' || 'A' <= c <= 'F'
  }

  predicate UriChar(c: char) {
    || IsAlnum(c)
    || c == '-' || c == '.' || c == '_' || c == '~' || c == ':' || c == '/'
    || c == '?' || c == '#' || c == '[' || c == ']' || c == '@' || c == '!'
    || c == '$' || c == '&' || c == '\'' || c == '(' || c == ')' || c == '*'
    || c == '+' || c == ',' || c == ';' || c == '='
  }

  predicate UriChars(s: string)
    decreases |s|
  {
    if s == [] then true
    else if s[0] == '%' then |s| >= 3 && HexDigit(s[1]) && HexDigit(s[2]) && UriChars(s[3..])
    else UriChar(s[0]) && UriChars(s[1..])
  }

  // Attribute values.

  /** `words`: split at single spaces and drop the empty pieces. */
  function Words(value: string): (words: seq<string>)
    ensures forall i :: 0 <= i < |words| ==> words[i] != ""
  {
    DropEmpty(Split(value, ' '))
  }

  function DropEmpty(parts: seq<string>): (words: seq<string>)
    ensures forall i :: 0 <= i < |words| ==> words[i] != ""
  {
    if parts == [] then []
    else if parts[0] == "" then DropEmpty(parts[1..])
    else [parts[0]] + DropEmpty(parts[1..])
  }

  predicate List(value: string) {
    value != "" && value[0] != ' ' && value[|value| - 1] != ' '
  }

  predicate Cardinal(value: string) {
    value != "" && (value == "0" || value[0] != '0') && All(value, IsDigit)
  }

  predicate RegisteredChar(c: char) {
    IsLower(c) || IsDigit(c) || c == '.' || c == '-'
  }

  predicate SchemeChar(c: char) {
    IsAlnum(c) || c == '+' || c == '-' || c == '.'
  }

  /** The classes of section 2 of RFC 6690, character by character. */
  lemma NamesSpelled(c: char)
    ensures NameChar(c) <==> c in DIGITS || c in LOWER || c in UPPER || c in "!#$&+-.^_`|~"
  {
    hide IsAlnum;
    Strings.ClassesSpelled(c);
  }

  lemma ValuesSpelled(c: char)
    ensures RegisteredChar(c) <==> c in LOWER || c in DIGITS || c in ".-"
    ensures SchemeChar(c) <==> c in DIGITS || c in LOWER || c in UPPER || c in "+-."
  {
    hide IsAlnum, IsLower;
    Strings.ClassesSpelled(c);
  }

  lemma HexSpelled(c: char)
    ensures HexDigit(c) <==> c in DIGITS || c in "abcdefABCDEF"
  {
    hide IsDigit;
    Strings.ClassesSpelled(c);
    InRow("abcdef", 'a', c);
    InRow("ABCDEF", 'A', c);
    assert "abcdefABCDEF" == "abcdef" + "ABCDEF";
  }

  lemma TokensSpelled(c: char)
    ensures TokenChar(c) <==> c in DIGITS || c in LOWER || c in UPPER || c in "!#$%&'()*+-./:<=>?@[]^_`{|}~"
  {
    hide IsAlnum;
    Strings.ClassesSpelled(c);
  }

  lemma UrisSpelled(c: char)
    ensures UriChar(c) <==> c in DIGITS || c in LOWER || c in UPPER || c in "-._~:/?#[]@!$&'()*+,;="
  {
    hide IsAlnum;
    Strings.ClassesSpelled(c);
  }

  predicate RelationType(word: string)
    requires word != ""
  {
    var colon := FindChar(word, ':');
    || (IsLower(word[0]) && All(word, RegisteredChar))
    || (0 < colon < |word| && IsAlpha(word[0]) && All(word[..colon], SchemeChar) && UriChars(word))
  }

  predicate RelationTypes(value: string) {
    List(value) && forall i :: 0 <= i < |Words(value)| ==> RelationType(Words(value)[i])
  }

  predicate FormatCode(word: string) {
    Cardinal(word) && Value(word) <= 0xFFFF
  }

  predicate FormatCodes(value: string) {
    List(value) && forall i :: 0 <= i < |Words(value)| ==> FormatCode(Words(value)[i])
  }

  // Attribute names.

  predicate Named(a: Attribute, known: string) {
    SameIgnoringCase(a.name, known)
  }

  predicate CoreName(name: string) {
    || SameIgnoringCase(name, "rt") || SameIgnoringCase(name, "if") || SameIgnoringCase(name, "ct")
    || SameIgnoringCase(name, "sz") || SameIgnoringCase(name, "obs") || SameIgnoringCase(name, "href")
  }

  /** The value test of `validate_attribute`, after the name tests. */
  predicate ValueOk(a: Attribute) {
    && (Named(a, "rt") || Named(a, "if") ==> a.value.Some? && RelationTypes(a.value.value.raw))
    && (Named(a, "sz") ==> a.value.Some? && !a.value.value.escaped && Cardinal(a.value.value.raw))
    && (Named(a, "ct") ==> a.value.Some? && FormatCodes(a.value.value.raw))
  }

  /** The bit of a non-repeatable name; 0 for the others. */
  function Bit(a: Attribute): (bit: bv8)
    ensures bit == 1 || bit == 2 || bit == 4 || bit == 0
  {
    if Named(a, "rt") then 1 else if Named(a, "if") then 2 else if Named(a, "sz") then 4 else 0
  }

  function ValidateAttribute(a: Attribute, seen: bv8): Result<bv8, Error> {
    if Named(a, "href") then Err(ReservedAttribute)
    else if seen & Bit(a) != 0 then Err(DuplicateAttribute)
    else if ValueOk(a) then Ok(seen | Bit(a))
    else Err(Syntax)
  }

  // One attribute.

  /** Index of the closing quote, scanning from `i`. */
  function QuoteEnd(body: string, i: nat): (end: Option<nat>)
    requires i <= |body|
    ensures end.Some? ==> i <= end.value < |body| && body[end.value] == '"'
    decreases |body| - i
  {
    if i == |body| then None
    else if body[i] == '"' then Some(i)
    else if body[i] == '\\' then
      if i + 1 == |body| || !EscapableChar(body[i + 1]) then None
      else QuoteEnd(body, i + 2)
    else if Control(body[i]) && body[i] != '\t' then None
    else QuoteEnd(body, i + 1)
  }

  predicate EscapableChar(c: char) {
    Utf8.IsAscii(c) && c != '\r' && c != '\n'
  }

  predicate NameOk(name: string) {
    name != "" &&
    var base := if name[|name| - 1] == '*' then name[..|name| - 1] else name;
    base != "" && All(base, NameChar)
  }

  predicate Extended(name: string) {
    name != "" && name[|name| - 1] == '*'
  }

  function NameEnd(input: string): (n: nat)
    ensures n <= |input|
  {
    Find(input, c => !NameOrStar(c))
  }

  function TokenEnd(input: string): (n: nat)
    ensures n <= |input|
  {
    Find(input, c => !TokenChar(c))
  }

  /** The attribute at the head of `input` and the text after it. */
  function ParseAttribute(input: string): (r: Result<(Attribute, string), Error>)
    ensures r.Ok? ==> |r.value.1| < |input|
  {
    var end := NameEnd(input);
    var name := input[..end];
    if !NameOk(name) then Err(Syntax) else
      var rest := input[end..];
      if !HasPrefix(rest, '=') then
        if Extended(name) then Err(Syntax) else Ok((Attribute(name, None), rest))
      else
        ParseValue(name, rest[1..])
  }

  function ParseValue(name: string, rest: string): (r: Result<(Attribute, string), Error>)
    ensures r.Ok? ==> |r.value.1| < |rest|
  {
    if HasPrefix(rest, '"') then
      if Extended(name) then Err(Syntax) else ParseQuoted(name, rest[1..])
    else
      ParseToken(name, rest)
  }

  function ParseQuoted(name: string, body: string): (r: Result<(Attribute, string), Error>)
    ensures r.Ok? ==> |r.value.1| < |body|
  {
    var end := QuoteEnd(body, 0);
    if end.None? then Err(Syntax)
    else Ok((Attribute(name, Some(Text(body[..end.value], true))), body[end.value + 1..]))
  }

  function ParseToken(name: string, rest: string): (r: Result<(Attribute, string), Error>)
    ensures r.Ok? ==> |r.value.1| < |rest|
  {
    var end := TokenEnd(rest);
    if end == 0 then Err(Syntax)
    else Ok((Attribute(name, Some(Text(rest[..end], false))), rest[end..]))
  }

  // One link.

  /** A result with items already read put in front. */
  function After<T>(items: seq<T>, r: Result<(seq<T>, string), Error>): Result<(seq<T>, string), Error> {
    match r
    case Err(e) => Err(e)
    case Ok((tail, stop)) => Ok((items + tail, stop))
  }

  lemma AfterNothing<T>(r: Result<(seq<T>, string), Error>)
    ensures After([], r) == r
  {
    if r.Ok? {
      assert [] + r.value.0 == r.value.0;
    }
  }

  lemma AfterAfter<T>(a: seq<T>, b: seq<T>, r: Result<(seq<T>, string), Error>)
    ensures After(a, After(b, r)) == After(a + b, r)
  {
    if r.Ok? {
      assert a + (b + r.value.0) == a + b + r.value.0;
    }
  }

  /** The attribute loop of `parse_link`: the attributes read and the text it stops at. */
  function ParseAttributes(rest: string, seen: bv8): (r: Result<(seq<Attribute>, string), Error>)
    ensures r.Ok? ==> |r.value.1| <= |rest| && !HasPrefix(r.value.1, ';')
    decreases |rest|
  {
    if !HasPrefix(rest, ';') then Ok(([], rest)) else
      match ParseAttribute(rest[1..])
      case Err(e) => Err(e)
      case Ok((a, next)) =>
        match ValidateAttribute(a, seen)
        case Err(e) => Err(e)
        case Ok(now) =>
          After([a], ParseAttributes(next, now))
  }

  /** The text after a link: the end, or a comma and more. */
  function AfterLink(rest: string): Result<string, Error> {
    if rest == "" then Ok("")
    else if rest[0] != ',' || |rest| == 1 then Err(Syntax)
    else Ok(rest[1..])
  }

  function ParseLinkSpec(input: string): (r: Result<(Link, string), Error>)
    ensures r.Ok? ==> |r.value.1| < |input|
  {
    if !HasPrefix(input, '<') then Err(Syntax) else
      var body := input[1..];
      var end := FindChar(body, '>');
      if end == |body| || !UriChars(body[..end]) then Err(Syntax) else
        LinkAt(body[..end], body[end + 1..], StopOf(body[end + 1..]))
  }

  /** Where the attribute loop stops. */
  function StopOf(attrs: string): (stop: Result<string, Error>)
    ensures stop.Ok? ==> |stop.value| <= |attrs|
  {
    match ParseAttributes(attrs, 0)
    case Err(e) => Err(e)
    case Ok(v) => Ok(v.1)
  }

  function LinkAt(target: string, attrs: string, stop: Result<string, Error>): (r: Result<(Link, string), Error>)
    requires stop.Ok? ==> |stop.value| <= |attrs|
    ensures r.Ok? ==> |r.value.1| <= |attrs|
  {
    if stop.Err? then Err(stop.error) else
      match AfterLink(stop.value)
      case Err(e) => Err(e)
      case Ok(rest) => Ok((Link(target, attrs[..|attrs| - |stop.value|]), rest))
  }

  /** `Link::attributes`, which ends silently at anything it cannot read. */
  function Attributes(attributes: string): seq<Attribute>
    decreases |attributes|
  {
    if attributes == "" then [] else
      match ParseAttribute(attributes[1..])
      case Err(_) => []
      case Ok((a, next)) => [a] + Attributes(next)
  }

  /** Draining `parse(doc)`: all links, or the first error. */
  function ParseDocument(doc: string): Result<seq<Link>, Error>
    decreases |doc|
  {
    if doc == "" then Ok([]) else
      match ParseLinkSpec(doc)
      case Err(e) => Err(e)
      case Ok((link, rest)) => Cons([link], ParseDocument(rest))
  }

  function Cons<T>(items: seq<T>, r: Result<seq<T>, Error>): Result<seq<T>, Error> {
    match r
    case Err(e) => Err(e)
    case Ok(tail) => Ok(items + tail)
  }

  lemma ConsNothing<T>(r: Result<seq<T>, Error>)
    ensures Cons([], r) == r
  {
    if r.Ok? {
      assert [] + r.value == r.value;
    }
  }

  lemma ConsCons<T>(a: seq<T>, b: seq<T>, r: Result<seq<T>, Error>)
    ensures Cons(a, Cons(b, r)) == Cons(a + b, r)
  {
    if r.Ok? {
      assert a + (b + r.value) == a + b + r.value;
    }
  }

  // The loops of the source.

  method ScanQuoted(body: string) returns (end: Option<nat>)
    ensures end == QuoteEnd(body, 0)
  {
    var i := 0;
    while true
      invariant 0 <= i <= |body|
      invariant QuoteEnd(body, 0) == QuoteEnd(body, i)
      decreases |body| - i
    {
      if i == |body| { return None; }
      var ch := body[i];
      i := i + 1;
      if ch == '"' {
        return Some(i - 1);
      } else if ch == '\\' {
        if i == |body| || !EscapableChar(body[i]) { return None; }
        i := i + 1;
      } else if Control(ch) && ch != '\t' {
        return None;
      }
    }
  }

  /** The attribute loop: it keeps only the unread text and the mask of names seen. */
  method ReadAttributes(attrs: string) returns (r: Result<string, Error>)
    ensures r == StopOf(attrs)
  {
    var rest := attrs;
    var seen: bv8 := 0;
    ghost var read: seq<Attribute> := [];
    AfterNothing(ParseAttributes(attrs, 0));
    while HasPrefix(rest, ';')
      invariant |rest| <= |attrs|
      invariant ParseAttributes(attrs, 0) == After(read, ParseAttributes(rest, seen))
      decreases |rest|
    {
      var parsed := ParseAttribute(rest[1..]);
      if parsed.Err? { return Err(parsed.error); }
      var checked := ValidateAttribute(parsed.value.0, seen);
      if checked.Err? { return Err(checked.error); }
      AfterAfter(read, [parsed.value.0], ParseAttributes(parsed.value.1, checked.value));
      seen := checked.value;
      rest := parsed.value.1;
      read := read + [parsed.value.0];
    }
    return Ok(rest);
  }

  method ParseLink(input: string) returns (r: Result<(Link, string), Error>)
    ensures r == ParseLinkSpec(input)
    ensures r.Ok? ==> |r.value.1| < |input|
  {
    hide StopOf, LinkAt, UriChars;
    if !HasPrefix(input, '<') { return Err(Syntax); }
    var body := input[1..];
    var end := FindChar(body, '>');
    if end == |body| || !UriChars(body[..end]) { return Err(Syntax); }
    var stop := ReadAttributes(body[end + 1..]);
    r := LinkAt(body[..end], body[end + 1..], stop);
  }

  /** The streaming iterator: it keeps the unread text and ends for good after an error. */
  class Links {
    var rest: string

    constructor (input: string)
      ensures rest == input
    {
      rest := input;
    }

    method Next() returns (item: Option<Result<Link, Error>>)
      modifies this
      ensures item.None? <==> old(rest) == ""
      ensures old(rest) == "" ==> rest == ""
      ensures old(rest) != "" ==> |rest| < |old(rest)|
      ensures old(rest) != "" && ParseLinkSpec(old(rest)).Ok? ==>
                item == Some(Ok(ParseLinkSpec(old(rest)).value.0)) && rest == ParseLinkSpec(old(rest)).value.1
      ensures old(rest) != "" && ParseLinkSpec(old(rest)).Err? ==>
                item == Some(Err(ParseLinkSpec(old(rest)).error)) && rest == ""
    {
      if rest == "" { return None; }
      var input := rest;
      rest := "";
      var parsed := ParseLink(input);
      match parsed {
        case Ok((link, next)) =>
          rest := next;
          item := Some(Ok(link));
        case Err(e) =>
          item := Some(Err(e));
      }
    }

    /** Draining the iterator gives the document's links or its first error. */
    method Drain() returns (r: Result<seq<Link>, Error>)
      modifies this
      ensures r == ParseDocument(old(rest)) && rest == ""
    {
      var links: seq<Link> := [];
      ConsNothing(ParseDocument(rest));
      while true
        invariant ParseDocument(old(rest)) == Cons(links, ParseDocument(rest))
        decreases |rest|
      {
        var item := Next();
        match item {
          case None =>
            assert links + [] == links;
            return Ok(links);
          case Some(Err(e)) => return Err(e);
          case Some(Ok(link)) =>
            ConsCons(links, [link], ParseDocument(rest));
            links := links + [link];
        }
      }
    }
  }
}
