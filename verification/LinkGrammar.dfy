/**
 An independent grammar for link-format documents, and the proof that the parser accepts exactly
 what it writes.
 */
module LinkGrammar {
  import opened Common
  import opened Strings
  import opened LinkSyntax
  import Utf8

  /** A link with its attributes read. */
  datatype Parsed = Parsed(target: string, attributes: seq<Attribute>)

  function RenderValue(value: Option<Text>): string {
    match value
    case None => ""
    case Some(Text(raw, true)) => "=\"" + raw + "\""
    case Some(Text(raw, false)) => "=" + raw
  }

  function RenderAttribute(a: Attribute): string {
    a.name + RenderValue(a.value)
  }

  function RenderAttributes(attributes: seq<Attribute>): string {
    if attributes == [] then ""
    else ";" + RenderAttribute(attributes[0]) + RenderAttributes(attributes[1..])
  }

  function RenderLink(p: Parsed): string {
    "<" + p.target + ">" + RenderAttributes(p.attributes)
  }

  function Render(ps: seq<Parsed>): string {
    if ps == [] then ""
    else if |ps| == 1 then RenderLink(ps[0])
    else RenderLink(ps[0]) + "," + Render(ps[1..])
  }

  /** The inside of a quoted string: no bare quote, only legal escapes, no control but a tab. */
  predicate QuotedOk(raw: string)
    decreases |raw|
  {
    if raw == "" then true
    else if raw[0] == '\\' then |raw| >= 2 && EscapableChar(raw[1]) && QuotedOk(raw[2..])
    else raw[0] != '"' && (Control(raw[0]) ==> raw[0] == '\t') && QuotedOk(raw[1..])
  }

  predicate AttributeOk(a: Attribute) {
    && NameOk(a.name)
    && match a.value
       case None => !Extended(a.name)
       case Some(Text(raw, true)) => !Extended(a.name) && QuotedOk(raw)
       case Some(Text(raw, false)) => raw != "" && All(raw, TokenChar)
  }

  /** How often a name occurs, ignoring ASCII case. */
  function Count(attributes: seq<Attribute>, known: string): nat {
    if attributes == [] then 0
    else (if Named(attributes[0], known) then 1 else 0) + Count(attributes[1..], known)
  }

  predicate AllOk(attributes: seq<Attribute>) {
    forall i :: 0 <= i < |attributes| ==> AttributeOk(attributes[i])
  }

  predicate ValuesOk(attributes: seq<Attribute>) {
    forall i :: 0 <= i < |attributes| ==> !Named(attributes[i], "href") && ValueOk(attributes[i])
  }

  /** `rt`, `if` and `sz` at most once, `href` never, and every core value well formed. */
  predicate Admissible(attributes: seq<Attribute>) {
    && ValuesOk(attributes)
    && Count(attributes, "rt") <= 1 && Count(attributes, "if") <= 1 && Count(attributes, "sz") <= 1
  }

  predicate LinkOk(p: Parsed) {
    UriChars(p.target) && AllOk(p.attributes) && Admissible(p.attributes)
  }

  predicate LinksOk(ps: seq<Parsed>) {
    forall i :: 0 <= i < |ps| ==> LinkOk(ps[i])
  }

  // Quoted strings.

  lemma {:induction false} QuoteEndSound(body: string, i: nat)
    requires i <= |body| && QuoteEnd(body, i).Some?
    ensures QuotedOk(body[i..QuoteEnd(body, i).value])
    decreases |body| - i
  {
    var end := QuoteEnd(body, i).value;
    var raw := body[i..end];
    if body[i] == '"' {
    } else if body[i] == '\\' {
      QuoteEndSound(body, i + 2);
      assert raw[2..] == body[i + 2..end];
    } else {
      QuoteEndSound(body, i + 1);
      assert raw[1..] == body[i + 1..end];
    }
  }

  lemma {:induction false} QuoteEndComplete(body: string, i: nat, end: nat)
    requires i <= end < |body| && body[end] == '"' && QuotedOk(body[i..end])
    ensures QuoteEnd(body, i) == Some(end)
    decreases end - i
  {
    var raw := body[i..end];
    if i == end {
    } else if body[i] == '\\' {
      assert raw[1] == body[i + 1];
      assert raw[2..] == body[i + 2..end];
      QuoteEndComplete(body, i + 2, end);
    } else {
      assert raw[0] == body[i];
      assert raw[1..] == body[i + 1..end];
      QuoteEndComplete(body, i + 1, end);
    }
  }

  // One attribute.

  /** Text at which every attribute form ends. */
  predicate Stop(rest: string) {
    rest == "" || rest[0] == ';' || rest[0] == ','
  }

  lemma QuotedSound(name: string, body: string)
    requires ParseQuoted(name, body).Ok?
    ensures var (a, next) := ParseQuoted(name, body).value;
            && a.name == name && a.value.Some? && a.value.value.escaped
            && QuotedOk(a.value.value.raw) && body == a.value.value.raw + "\"" + next
  {
    var end := QuoteEnd(body, 0).value;
    QuoteEndSound(body, 0);
    assert body[0..end] == body[..end];
  }

  lemma TokenSound(name: string, rest: string)
    requires ParseToken(name, rest).Ok?
    ensures var (a, next) := ParseToken(name, rest).value;
            && a.name == name && a.value.Some? && !a.value.value.escaped
            && a.value.value.raw != "" && All(a.value.value.raw, TokenChar) && rest == a.value.value.raw + next
  {
  }

  lemma QuotedText(raw: string, next: string, rest: string)
    requires rest != "" && rest[0] == '"' && rest[1..] == raw + "\"" + next
    ensures "=" + rest == "=\"" + raw + "\"" + next
  {
    assert rest == "\"" + rest[1..];
  }

  lemma ValueSound(name: string, rest: string)
    requires NameOk(name) && ParseValue(name, rest).Ok?
    ensures var (a, next) := ParseValue(name, rest).value;
            AttributeOk(a) && a.name == name && a.value.Some? && "=" + rest == RenderValue(a.value) + next
  {
    var (a, next) := ParseValue(name, rest).value;
    if HasPrefix(rest, '"') {
      QuotedSound(name, rest[1..]);
      QuotedText(a.value.value.raw, next, rest);
    } else {
      TokenSound(name, rest);
      assert "=" + (a.value.value.raw + next) == "=" + a.value.value.raw + next;
    }
  }

  lemma NameTail(name: string, value: string, next: string, rest: string)
    requires rest != "" && "=" + rest[1..] == value + next && rest[0] == '='
    ensures name + rest == name + value + next
  {
    assert rest == "=" + rest[1..];
  }

  lemma AttributeSound(input: string)
    requires ParseAttribute(input).Ok?
    ensures var (a, rest) := ParseAttribute(input).value;
            AttributeOk(a) && input == RenderAttribute(a) + rest
  {
    hide ParseValue, RenderValue, NameOk, NameEnd;
    var end := NameEnd(input);
    var name := input[..end];
    var rest := input[end..];
    assert input == name + rest;
    var (a, next) := ParseAttribute(input).value;
    if HasPrefix(rest, '=') {
      ValueSound(name, rest[1..]);
      NameTail(name, RenderValue(a.value), next, rest);
    } else {
      NoValue();
      assert name + "" == name;
    }
  }

  lemma NoValue()
    ensures RenderValue(None) == ""
  {
  }

  lemma NameCharsOf(name: string)
    requires NameOk(name)
    ensures All(name, NameOrStar)
  {
    var base := if name[|name| - 1] == '*' then name[..|name| - 1] else name;
    assert forall i :: 0 <= i < |base| ==> name[i] == base[i];
  }

  lemma NameEndOf(name: string, rest: string)
    requires NameOk(name) && (rest == "" || !NameOrStar(rest[0]))
    ensures NameEnd(name + rest) == |name|
    ensures (name + rest)[..|name|] == name && (name + rest)[|name|..] == rest
  {
    NameCharsOf(name);
    FindUnique(name + rest, c => !NameOrStar(c), |name|);
  }

  lemma QuotedComplete(name: string, raw: string, rest: string)
    requires QuotedOk(raw)
    ensures ParseQuoted(name, raw + "\"" + rest) == Ok((Attribute(name, Some(Text(raw, true))), rest))
  {
    var body := raw + "\"" + rest;
    assert body[0..|raw|] == raw;
    QuoteEndComplete(body, 0, |raw|);
    assert body[..|raw|] == raw;
    assert body[|raw| + 1..] == rest;
  }

  lemma TokenComplete(name: string, raw: string, rest: string)
    requires raw != "" && All(raw, TokenChar) && Stop(rest)
    ensures ParseToken(name, raw + rest) == Ok((Attribute(name, Some(Text(raw, false))), rest))
    ensures (raw + rest)[0] != '"'
  {
    var input := raw + rest;
    assert forall i :: 0 <= i < |raw| ==> input[i] == raw[i];
    FindUnique(input, c => !TokenChar(c), |raw|);
    assert input[..|raw|] == raw;
    assert input[|raw|..] == rest;
  }

  /** Any value form after its equals sign reads back. */
  lemma ValueComplete(name: string, value: Text, rest: string)
    requires AttributeOk(Attribute(name, Some(value))) && Stop(rest)
    ensures RenderValue(Some(value)) != "" && RenderValue(Some(value))[0] == '='
    ensures ParseValue(name, RenderValue(Some(value))[1..] + rest) == Ok((Attribute(name, Some(value)), rest))
  {
    var input := RenderValue(Some(value))[1..] + rest;
    if value.escaped {
      QuotedComplete(name, value.raw, rest);
      assert input == "\"" + (value.raw + "\"" + rest);
      assert input[1..] == value.raw + "\"" + rest;
    } else {
      TokenComplete(name, value.raw, rest);
      assert input == value.raw + rest;
    }
  }

  lemma AttributeComplete(a: Attribute, rest: string)
    ensures AttributeOk(a) && Stop(rest) ==> ParseAttribute(RenderAttribute(a) + rest) == Ok((a, rest))
  {
    if AttributeOk(a) && Stop(rest) {
      var tail := RenderValue(a.value) + rest;
      assert RenderAttribute(a) + rest == a.name + tail;
      NameEndOf(a.name, tail);
      if a.value.Some? {
        assert tail[0] == '=';
        assert tail[1..] == RenderValue(a.value)[1..] + rest;
        ValueComplete(a.name, a.value.value, rest);
      } else {
        assert tail == rest;
      }
    }
  }

  // The mask of names seen.

  predicate Has(seen: bv8, bit: bv8) {
    seen & bit != 0
  }

  /** Counting with the names a mask already records. */
  predicate FitsMask(attributes: seq<Attribute>, seen: bv8) {
    && (if Has(seen, 1) then 1 else 0) + Count(attributes, "rt") <= 1
    && (if Has(seen, 2) then 1 else 0) + Count(attributes, "if") <= 1
    && (if Has(seen, 4) then 1 else 0) + Count(attributes, "sz") <= 1
  }

  lemma BitOf(a: Attribute)
    ensures Bit(a) == 1 <==> Named(a, "rt")
    ensures Bit(a) == 2 <==> Named(a, "if")
    ensures Bit(a) == 4 <==> Named(a, "sz")
  {
    if Named(a, "rt") {
      assert Lower(a.name[0]) == 'r';
    } else if Named(a, "if") {
      assert Lower(a.name[0]) == 'i';
    } else if Named(a, "sz") {
      assert Lower(a.name[0]) == 's';
    }
  }

  lemma MaskBits(seen: bv8, bit: bv8)
    requires bit == 1 || bit == 2 || bit == 4 || bit == 0
    ensures Has(seen | bit, 1) <==> Has(seen, 1) || bit == 1
    ensures Has(seen | bit, 2) <==> Has(seen, 2) || bit == 2
    ensures Has(seen | bit, 4) <==> Has(seen, 4) || bit == 4
    ensures Has(seen, bit) <==>
            (bit == 1 && Has(seen, 1)) || (bit == 2 && Has(seen, 2)) || (bit == 4 && Has(seen, 4))
  {
  }

  /** One step of the mask is one step of the counts. */
  lemma MaskStep(a: Attribute, tail: seq<Attribute>, seen: bv8)
    ensures FitsMask([a] + tail, seen) <==> !Has(seen, Bit(a)) && FitsMask(tail, seen | Bit(a))
  {
    BitOf(a);
    MaskBits(seen, Bit(a));
    assert ([a] + tail)[1..] == tail;
  }

  // The attribute list.

  lemma ConsOk(a: Attribute, tail: seq<Attribute>)
    ensures AllOk([a] + tail) <==> AttributeOk(a) && AllOk(tail)
    ensures ValuesOk([a] + tail) <==> !Named(a, "href") && ValueOk(a) && ValuesOk(tail)
    ensures RenderAttributes([a] + tail) == ";" + RenderAttribute(a) + RenderAttributes(tail)
  {
    var all := [a] + tail;
    assert all[0] == a && all[1..] == tail;
    assert forall i :: 0 <= i < |tail| ==> all[i + 1] == tail[i];
  }

  predicate ListOk(attributes: seq<Attribute>, seen: bv8) {
    AllOk(attributes) && ValuesOk(attributes) && FitsMask(attributes, seen)
  }

  lemma ListOkCons(a: Attribute, tail: seq<Attribute>, seen: bv8)
    ensures ListOk([a] + tail, seen) <==>
            AttributeOk(a) && ValidateAttribute(a, seen) == Ok(seen | Bit(a)) && ListOk(tail, seen | Bit(a))
  {
    ConsOk(a, tail);
    MaskStep(a, tail, seen);
  }

  lemma {:induction false} AttributesSound(rest: string, seen: bv8)
    requires ParseAttributes(rest, seen).Ok?
    ensures var (attributes, stop) := ParseAttributes(rest, seen).value;
            ListOk(attributes, seen) && rest == RenderAttributes(attributes) + stop
    decreases |rest|
  {
    var (attributes, stop) := ParseAttributes(rest, seen).value;
    if !HasPrefix(rest, ';') {
      assert RenderAttributes([]) + stop == stop;
    } else {
      AttributeSound(rest[1..]);
      var (a, next) := ParseAttribute(rest[1..]).value;
      var now := ValidateAttribute(a, seen).value;
      AttributesSound(next, now);
      var (tail, end) := ParseAttributes(next, now).value;
      ListOkCons(a, tail, seen);
      ConsOk(a, tail);
      Chain(rest, RenderAttribute(a), next, RenderAttributes(tail), stop);
    }
  }

  lemma Chain(rest: string, one: string, next: string, more: string, stop: string)
    requires rest != "" && rest[0] == ';' && rest[1..] == one + next && next == more + stop
    ensures rest == ";" + one + more + stop
  {
    assert rest == ";" + rest[1..];
  }

  lemma RenderStops(attributes: seq<Attribute>, stop: string)
    requires Stop(stop)
    ensures Stop(RenderAttributes(attributes) + stop)
  {
    if attributes != [] {
      assert (RenderAttributes(attributes) + stop)[0] == ';';
    } else {
      assert RenderAttributes(attributes) + stop == stop;
    }
  }

  lemma SemiTail(one: string, more: string, stop: string)
    ensures HasPrefix(";" + one + more + stop, ';')
    ensures (";" + one + more + stop)[1..] == one + (more + stop)
    ensures (";" + one + more)[1..] == one + more
  {
  }

  /** One turn of the attribute loop. */
  lemma LoopStep(a: Attribute, rest: string, next: string, seen: bv8)
    requires HasPrefix(rest, ';') && ParseAttribute(rest[1..]) == Ok((a, next))
    ensures ValidateAttribute(a, seen) == Ok(seen | Bit(a)) ==>
              ParseAttributes(rest, seen) == After([a], ParseAttributes(next, seen | Bit(a)))
  {
  }

  lemma {:induction false} AttributesComplete(attributes: seq<Attribute>, seen: bv8, stop: string)
    requires Stop(stop) && !HasPrefix(stop, ';')
    ensures ListOk(attributes, seen) ==>
              ParseAttributes(RenderAttributes(attributes) + stop, seen) == Ok((attributes, stop))
    decreases |attributes|
  {
    hide ListOk, AttributeOk, ParseAttribute, RenderAttribute, ValidateAttribute;
    if attributes == [] {
      assert RenderAttributes([]) + stop == stop;
    } else {
      hide ParseAttributes, RenderAttributes, Stop;
      var a, tail := attributes[0], attributes[1..];
      assert attributes == [a] + tail;
      ListOkCons(a, tail, seen);
      if ListOk(attributes, seen) {
        ConsOk(a, tail);
        RenderStops(tail, stop);
        AttributesComplete(tail, seen | Bit(a), stop);
        AttributeComplete(a, RenderAttributes(tail) + stop);
        SemiTail(RenderAttribute(a), RenderAttributes(tail), stop);
        LoopStep(a, RenderAttributes(attributes) + stop, RenderAttributes(tail) + stop, seen);
      }
    }
  }

  lemma AgainStep(a: Attribute, attributes: string, next: string)
    requires attributes != "" && ParseAttribute(attributes[1..]) == Ok((a, next))
    ensures Attributes(attributes) == [a] + Attributes(next)
  {
  }

  /** Re-reading the retained slice never stops early. */
  lemma {:induction false} AttributesAgain(attributes: seq<Attribute>)
    ensures AllOk(attributes) ==> Attributes(RenderAttributes(attributes)) == attributes
    decreases |attributes|
  {
    hide AllOk, AttributeOk, ParseAttribute, RenderAttribute;
    if attributes != [] {
      hide Attributes, RenderAttributes;
      var a, tail := attributes[0], attributes[1..];
      assert attributes == [a] + tail;
      ConsOk(a, tail);
      RenderStops(tail, "");
      assert RenderAttributes(tail) + "" == RenderAttributes(tail);
      AttributeComplete(a, RenderAttributes(tail));
      AttributesAgain(tail);
      SemiTail(RenderAttribute(a), RenderAttributes(tail), "");
      if AllOk(attributes) {
        AgainStep(a, RenderAttributes(attributes), RenderAttributes(tail));
      }
    }
  }

  // One link.

  lemma {:induction false} UriCharsNoAngle(target: string)
    requires UriChars(target)
    ensures forall i :: 0 <= i < |target| ==> target[i] != '>'
    decreases |target|
  {
    if target == "" {
    } else if target[0] == '%' {
      UriCharsNoAngle(target[3..]);
      assert forall i :: 3 <= i < |target| ==> target[i] == target[3..][i - 3];
    } else {
      UriCharsNoAngle(target[1..]);
      assert forall i :: 1 <= i < |target| ==> target[i] == target[1..][i - 1];
    }
  }

  /** The separator a link leaves before the rest of the document. */
  function Comma(rest: string): string {
    if rest == "" then "" else "," + rest
  }

  function Read(link: Link): Parsed {
    Parsed(link.target, Attributes(link.attributes))
  }

  function Retain(p: Parsed): Link {
    Link(p.target, RenderAttributes(p.attributes))
  }

  lemma BracketText(input: string, target: string, attrs: string, end: nat)
    requires HasPrefix(input, '<') && end < |input| - 1 && input[1..][end] == '>'
    requires target == input[1..][..end] && attrs == input[1..][end + 1..]
    ensures input == "<" + target + ">" + attrs
  {
    assert input == "<" + input[1..];
    assert input[1..] == target + ">" + attrs;
  }

  lemma AfterLinkText(stop: string)
    requires !HasPrefix(stop, ';')
    ensures AfterLink(stop).Ok? ==> stop == Comma(AfterLink(stop).value)
  {
    if stop != "" && stop[0] == ',' {
      assert stop == "," + stop[1..];
    }
  }

  lemma CommaAfter(rest: string)
    ensures AfterLink(Comma(rest)) == Ok(rest)
    ensures Stop(Comma(rest)) && !HasPrefix(Comma(rest), ';')
  {
    if rest != "" {
      assert Comma(rest)[1..] == rest;
    }
  }

  lemma Reassociate(target: string, more: string, stop: string)
    ensures "<" + target + ">" + (more + stop) == "<" + target + ">" + more + stop
    ensures (more + stop)[..|more + stop| - |stop|] == more
  {
  }

  lemma LinkSound(input: string)
    requires ParseLinkSpec(input).Ok?
    ensures var (link, rest) := ParseLinkSpec(input).value;
            LinkOk(Read(link)) && Retain(Read(link)) == link && input == RenderLink(Read(link)) + Comma(rest)
  {
    hide ParseAttributes, RenderAttributes, AfterLink, Admissible, AllOk, ListOk, Attributes, UriChars, Comma;
    var (link, rest) := ParseLinkSpec(input).value;
    var end := FindChar(input[1..], '>');
    var attrs := input[1..][end + 1..];
    BracketText(input, link.target, attrs, end);
    AttributesSound(attrs, 0);
    var (attributes, stop) := ParseAttributes(attrs, 0).value;
    AfterLinkText(stop);
    Reassociate(link.target, RenderAttributes(attributes), stop);
    ListOkStart(attributes);
    AttributesAgain(attributes);
  }

  lemma ListOkStart(attributes: seq<Attribute>)
    ensures ListOk(attributes, 0) <==> AllOk(attributes) && Admissible(attributes)
  {
  }

  lemma Bracketed(target: string, attrs: string)
    requires forall i :: 0 <= i < |target| ==> target[i] != '>'
    ensures var input := "<" + target + ">" + attrs;
            && HasPrefix(input, '<') && FindChar(input[1..], '>') == |target|
            && input[1..][..|target|] == target && input[1..][|target| + 1..] == attrs
  {
    var input := "<" + target + ">" + attrs;
    assert input[1..] == target + ">" + attrs;
    FindCharUnique(input[1..], '>', |target|);
  }

  lemma LinkComplete(p: Parsed, rest: string)
    ensures LinkOk(p) ==> ParseLinkSpec(RenderLink(p) + Comma(rest)) == Ok((Retain(p), rest))
  {
    hide ParseAttributes, RenderAttributes, AfterLink, Admissible, AllOk, ListOk, UriChars, Comma;
    if LinkOk(p) {
      UriCharsNoAngle(p.target);
      Reassociate(p.target, RenderAttributes(p.attributes), Comma(rest));
      Bracketed(p.target, RenderAttributes(p.attributes) + Comma(rest));
      ListOkStart(p.attributes);
      CommaAfter(rest);
      AttributesComplete(p.attributes, 0, Comma(rest));
    }
  }

  // The document.

  function ReadAll(links: seq<Link>): seq<Parsed> {
    seq(|links|, i requires 0 <= i < |links| => Read(links[i]))
  }

  function RetainAll(ps: seq<Parsed>): seq<Link> {
    seq(|ps|, i requires 0 <= i < |ps| => Retain(ps[i]))
  }

  lemma RenderCons(p: Parsed, tail: seq<Parsed>)
    ensures Render([p] + tail) == RenderLink(p) + Comma(Render(tail))
    ensures Render([p] + tail) != ""
  {
    var ps := [p] + tail;
    if tail == [] {
      assert ps == [p];
      assert RenderLink(p) + "" == RenderLink(p);
    } else {
      assert ps[1..] == tail;
      RenderNonEmpty(tail);
      assert RenderLink(p) + "," + Render(tail) == RenderLink(p) + ("," + Render(tail));
    }
  }

  lemma RenderNonEmpty(ps: seq<Parsed>)
    requires ps != []
    ensures Render(ps) != ""
  {
    assert RenderLink(ps[0])[0] == '<';
    assert Render(ps)[0] == '<';
  }

  lemma LinksOkCons(p: Parsed, tail: seq<Parsed>)
    ensures LinksOk([p] + tail) <==> LinkOk(p) && LinksOk(tail)
  {
    var ps := [p] + tail;
    assert ps[0] == p;
    assert forall i :: 0 <= i < |tail| ==> ps[i + 1] == tail[i];
  }

  lemma MapCons(link: Link, links: seq<Link>, p: Parsed, ps: seq<Parsed>)
    ensures ReadAll([link] + links) == [Read(link)] + ReadAll(links)
    ensures RetainAll([p] + ps) == [Retain(p)] + RetainAll(ps)
  {
    hide Read, Retain;
  }

  /** Soundness: an accepted document is the grammar's text of the links and attributes read from it. */
  lemma {:induction false} DocumentSound(doc: string)
    requires ParseDocument(doc).Ok?
    ensures var links := ParseDocument(doc).value;
            && LinksOk(ReadAll(links)) && RetainAll(ReadAll(links)) == links
            && Render(ReadAll(links)) == doc
    decreases |doc|
  {
    hide LinkOk, RenderLink, Comma, Read, Retain, ParseLinkSpec;
    if doc != "" {
      hide Render, LinksOk, ReadAll, RetainAll;
      LinkSound(doc);
      var (link, rest) := ParseLinkSpec(doc).value;
      DocumentSound(rest);
      var tail := ParseDocument(rest).value;
      MapCons(link, tail, Read(link), ReadAll(tail));
      RenderCons(Read(link), ReadAll(tail));
      LinksOkCons(Read(link), ReadAll(tail));
    }
  }

  lemma DocumentStep(doc: string, link: Link, rest: string, tail: seq<Link>)
    requires doc != "" && ParseLinkSpec(doc) == Ok((link, rest)) && ParseDocument(rest) == Ok(tail)
    ensures ParseDocument(doc) == Ok([link] + tail)
  {
  }

  /** Completeness: every document the grammar writes is accepted, with the links written. */
  lemma {:induction false} DocumentComplete(ps: seq<Parsed>)
    ensures LinksOk(ps) ==> ParseDocument(Render(ps)) == Ok(RetainAll(ps))
    ensures LinksOk(ps) ==> ReadAll(RetainAll(ps)) == ps
    decreases |ps|
  {
    hide LinkOk, RenderLink, Comma, Read, Retain, ParseLinkSpec;
    if ps == [] {
      assert Render(ps) == "" && RetainAll(ps) == [];
    } else {
      hide Render, LinksOk, ReadAll, RetainAll, ParseDocument;
      var p, tail := ps[0], ps[1..];
      assert ps == [p] + tail;
      LinksOkCons(p, tail);
      if LinksOk(ps) {
        DocumentComplete(tail);
        RenderCons(p, tail);
        LinkComplete(p, Render(tail));
        ReadRetain(p);
        MapCons(Retain(p), RetainAll(tail), p, tail);
        DocumentStep(Render(ps), Retain(p), Render(tail), RetainAll(tail));
      }
    }
  }

  lemma ReadRetain(p: Parsed)
    ensures LinkOk(p) ==> Read(Retain(p)) == p
  {
    hide Admissible, AllOk, UriChars;
    AttributesAgain(p.attributes);
  }

  /** The parser reads exactly these links from the document. */
  predicate ParsesTo(doc: string, ps: seq<Parsed>) {
    ParseDocument(doc).Ok? && ReadAll(ParseDocument(doc).value) == ps
  }

  /** Parser exactness, both directions. */
  lemma ParsesExactly(doc: string, ps: seq<Parsed>)
    ensures ParsesTo(doc, ps) <==> LinksOk(ps) && Render(ps) == doc
  {
    hide LinksOk, Render, ReadAll, RetainAll, ParseDocument;
    if ParsesTo(doc, ps) {
      DocumentSound(doc);
    }
    if LinksOk(ps) && Render(ps) == doc {
      DocumentComplete(ps);
    }
  }
}
