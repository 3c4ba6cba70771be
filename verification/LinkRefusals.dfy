/**
 Why a discovery document is refused. A reserved or repeated attribute is reported exactly when the
 document, read from the left, is grammatical and admissible up to that attribute; every other refusal
 is a syntax error.
 */
module LinkRefusals {
  import opened Common
  import opened Strings
  import opened LinkSyntax
  import opened LinkGrammar
  import opened LinkValues
  import Seqs

  // Where an attribute ends.

  /** The text after an attribute does not continue it. */
  predicate Ends(a: Attribute, rest: string) {
    match a.value
    case None => rest == "" || (!NameOrStar(rest[0]) && rest[0] != '=')
    case Some(Text(_, true)) => true
    case Some(Text(_, false)) => rest == "" || !TokenChar(rest[0])
  }

  lemma NameStops(input: string)
    ensures var rest := input[NameEnd(input)..]; rest == "" || !NameOrStar(rest[0])
  {
  }

  lemma TokenStops(name: string, rest: string)
    requires ParseToken(name, rest).Ok?
    ensures Ends(ParseToken(name, rest).value.0, ParseToken(name, rest).value.1)
  {
  }

  lemma ReadEnds(input: string)
    requires ParseAttribute(input).Ok?
    ensures Ends(ParseAttribute(input).value.0, ParseAttribute(input).value.1)
  {
    hide NameEnd, TokenEnd, NameOk, QuoteEnd, NameOrStar, TokenChar;
    NameStops(input);
    var rest := input[NameEnd(input)..];
    if HasPrefix(rest, '=') && !HasPrefix(rest[1..], '"') {
      TokenStops(input[..NameEnd(input)], rest[1..]);
    }
  }

  lemma TokenEnds(name: string, raw: string, rest: string)
    requires raw != "" && All(raw, TokenChar) && (rest == "" || !TokenChar(rest[0]))
    ensures ParseToken(name, raw + rest) == Ok((Attribute(name, Some(Text(raw, false))), rest))
    ensures (raw + rest)[0] != '"'
  {
    var input := raw + rest;
    assert forall i :: 0 <= i < |raw| ==> input[i] == raw[i];
    FindUnique(input, c => !TokenChar(c), |raw|);
    assert input[..|raw|] == raw;
    assert input[|raw|..] == rest;
  }

  lemma ValueEnds(name: string, value: Text, rest: string)
    requires AttributeOk(Attribute(name, Some(value))) && Ends(Attribute(name, Some(value)), rest)
    ensures RenderValue(Some(value)) != "" && RenderValue(Some(value))[0] == '='
    ensures ParseValue(name, RenderValue(Some(value))[1..] + rest) == Ok((Attribute(name, Some(value)), rest))
  {
    var input := RenderValue(Some(value))[1..] + rest;
    if value.escaped {
      QuotedComplete(name, value.raw, rest);
      assert input == "\"" + (value.raw + "\"" + rest);
      assert input[1..] == value.raw + "\"" + rest;
    } else {
      TokenEnds(name, value.raw, rest);
      assert input == value.raw + rest;
    }
  }

  lemma WrittenEnds(a: Attribute, rest: string)
    requires AttributeOk(a) && Ends(a, rest)
    ensures ParseAttribute(RenderAttribute(a) + rest) == Ok((a, rest))
  {
    hide NameOk, QuotedOk, TokenChar, ParseValue, NameEnd, NameOrStar;
    var tail := RenderValue(a.value) + rest;
    assert RenderAttribute(a) + rest == a.name + tail;
    if a.value.Some? {
      hide RenderValue, Extended;
      ValueEnds(a.name, a.value.value, rest);
      assert tail[0] == '=' && tail[1..] == RenderValue(a.value)[1..] + rest;
      EqualsStops();
      NameEndOf(a.name, tail);
    } else {
      assert tail == rest;
      NameEndOf(a.name, tail);
    }
  }

  lemma EqualsStops()
    ensures !NameOrStar('=')
  {
  }

  /** One attribute, exactly: what is read is grammatical, ends where it must, and is the text. */
  lemma AttributeIff(input: string, a: Attribute, rest: string)
    ensures ParseAttribute(input) == Ok((a, rest)) <==>
            AttributeOk(a) && Ends(a, rest) && input == RenderAttribute(a) + rest
  {
    hide ParseAttribute, RenderAttribute, AttributeOk, Ends;
    if ParseAttribute(input) == Ok((a, rest)) {
      AttributeSound(input);
      ReadEnds(input);
    }
    if AttributeOk(a) && Ends(a, rest) && input == RenderAttribute(a) + rest {
      WrittenEnds(a, rest);
    }
  }

  /** Reading one attribute can only fail as syntax. */
  lemma AttributeSyntax(input: string)
    ensures ParseAttribute(input).Err? ==> ParseAttribute(input).error == Syntax
  {
  }

  // The attribute at fault.

  /** The attribute repeats a name that may stand once. */
  predicate Repeats(before: seq<Attribute>, a: Attribute) {
    || (Named(a, "rt") && Count(before, "rt") >= 1) || (Named(a, "if") && Count(before, "if") >= 1)
    || (Named(a, "sz") && Count(before, "sz") >= 1)
  }

  /** The label of a refusal, by what is wrong with the attribute where it stands. */
  ghost function Blame(before: seq<Attribute>, a: Attribute): Option<Error> {
    if Named(a, "href") then Some(ReservedAttribute)
    else if Repeats(before, a) then Some(DuplicateAttribute)
    else if !Carries(a) then Some(Error.Syntax)
    else None
  }

  /** The same with the names a mask already records. */
  function MaskBlame(before: seq<Attribute>, a: Attribute, seen: bv8): Option<Error> {
    if Named(a, "href") then Some(ReservedAttribute)
    else if !FitsMask(before + [a], seen) then Some(DuplicateAttribute)
    else if !ValueOk(a) then Some(Error.Syntax)
    else None
  }

  lemma {:induction false} CountConcat(a: seq<Attribute>, b: seq<Attribute>, known: string)
    ensures Count(a + b, known) == Count(a, known) + Count(b, known)
    decreases |a|
  {
    hide Named;
    if a == [] {
      assert a + b == b;
    } else {
      CountConcat(a[1..], b, known);
      Seqs.DropCat(a, b, 1);
    }
  }

  lemma CountOne(a: Attribute, known: string)
    ensures Count([a], known) == if Named(a, known) then 1 else 0
  {
    assert [a][1..] == [];
  }

  lemma BlameIs(before: seq<Attribute>, a: Attribute)
    requires ListOk(before, 0)
    ensures MaskBlame(before, a, 0) == Blame(before, a)
  {
    hide Named, ValueOk, Carries, AllOk, ValuesOk, Count;
    CarriesIff(a);
    CountConcat(before, [a], "rt");
    CountConcat(before, [a], "if");
    CountConcat(before, [a], "sz");
    CountOne(a, "rt");
    CountOne(a, "if");
    CountOne(a, "sz");
  }

  lemma FitsAlone(a: Attribute, seen: bv8)
    ensures FitsMask([a], seen) <==> !Has(seen, Bit(a))
  {
    hide Named, Count;
    MaskStep(a, [], seen);
    assert [a] + [] == [a];
    FitsNone(seen | Bit(a));
  }

  lemma FitsNone(seen: bv8)
    ensures FitsMask([], seen)
  {
  }

  lemma BlameHere(a: Attribute, seen: bv8)
    ensures var blame := MaskBlame([], a, seen);
            ValidateAttribute(a, seen) == if blame.None? then Ok(seen | Bit(a)) else Err(blame.value)
  {
    hide Named, FitsMask;
    FitsAlone(a, seen);
    assert [] + [a] == [a];
  }

  lemma BlameLater(x: Attribute, tail: seq<Attribute>, a: Attribute, seen: bv8)
    requires ValidateAttribute(x, seen) == Ok(seen | Bit(x))
    ensures MaskBlame([x] + tail, a, seen) == MaskBlame(tail, a, seen | Bit(x))
  {
    hide Named, FitsMask, ValueOk;
    MaskStep(x, tail + [a], seen);
    assert [x] + tail + [a] == [x] + (tail + [a]);
  }

  function Fault(before: seq<Attribute>, a: Attribute, rest: string): string {
    RenderAttributes(before) + (";" + RenderAttribute(a) + rest)
  }

  lemma FaultCons(x: Attribute, tail: seq<Attribute>, a: Attribute, rest: string)
    ensures Fault([x] + tail, a, rest) == ";" + RenderAttribute(x) + Fault(tail, a, rest)
    ensures Stop(Fault(tail, a, rest)) && Fault([], a, rest) == ";" + RenderAttribute(a) + rest
  {
    hide RenderAttribute;
    ConsOk(x, tail);
    RenderStops(tail, ";" + RenderAttribute(a) + rest);
    assert ";" + RenderAttribute(x) + RenderAttributes(tail) + (";" + RenderAttribute(a) + rest)
        == ";" + RenderAttribute(x) + Fault(tail, a, rest);
  }

  /** After admissible attributes, the loop stops at the attribute at fault with its label. */
  lemma {:induction false} ListRefused(before: seq<Attribute>, a: Attribute, rest: string, seen: bv8)
    requires ListOk(before, seen) && AttributeOk(a) && Ends(a, rest) && MaskBlame(before, a, seen).Some?
    ensures ParseAttributes(Fault(before, a, rest), seen) == Err(MaskBlame(before, a, seen).value)
    decreases |before|
  {
    hide ListOk, AttributeOk, Ends, MaskBlame, ParseAttribute, RenderAttribute, ValidateAttribute, Fault, Stop;
    var text := Fault(before, a, rest);
    if before == [] {
      FaultCons(a, [], a, rest);
      assert text[1..] == RenderAttribute(a) + rest;
      AttributeIff(text[1..], a, rest);
      BlameHere(a, seen);
    } else {
      var x, tail := before[0], before[1..];
      assert before == [x] + tail;
      ListOkCons(x, tail, seen);
      FaultCons(x, tail, a, rest);
      assert text[1..] == RenderAttribute(x) + Fault(tail, a, rest);
      AttributeComplete(x, Fault(tail, a, rest));
      BlameLater(x, tail, a, seen);
      ListRefused(tail, a, rest, seen | Bit(x));
      hide ParseAttributes;
      LoopStep(x, text, Fault(tail, a, rest), seen);
    }
  }

  /** Conversely, a refusal that is not syntax points at such an attribute. */
  lemma {:induction false} ListFault(text: string, seen: bv8) returns (before: seq<Attribute>, a: Attribute, rest: string)
    requires ParseAttributes(text, seen).Err? && ParseAttributes(text, seen).error != Error.Syntax
    ensures ListOk(before, seen) && AttributeOk(a) && Ends(a, rest) && text == Fault(before, a, rest)
    ensures MaskBlame(before, a, seen) == Some(ParseAttributes(text, seen).error)
    decreases |text|
  {
    hide ListOk, AttributeOk, Ends, MaskBlame, ParseAttribute, RenderAttribute, ValidateAttribute, Fault;
    AttributeSyntax(text[1..]);
    var (x, next) := ParseAttribute(text[1..]).value;
    AttributeIff(text[1..], x, next);
    assert text == ";" + text[1..];
    BlameHere(x, seen);
    if ValidateAttribute(x, seen).Err? {
      before, a, rest := [], x, next;
      FaultCons(x, [], x, next);
      assert text == ";" + RenderAttribute(x) + next;
      ListOkNone(seen);
    } else {
      var tail;
      tail, a, rest := ListFault(next, seen | Bit(x));
      before := [x] + tail;
      FaultCons(x, tail, a, rest);
      assert text == ";" + RenderAttribute(x) + next;
      ListOkCons(x, tail, seen);
      BlameLater(x, tail, a, seen);
    }
  }

  lemma ListOkNone(seen: bv8)
    ensures ListOk([], seen)
  {
  }

  // The link and the document at fault.

  function FaultyLink(target: string, before: seq<Attribute>, a: Attribute, rest: string): string {
    "<" + target + ">" + Fault(before, a, rest)
  }

  lemma LinkRefused(target: string, before: seq<Attribute>, a: Attribute, rest: string)
    requires UriChars(target) && ListOk(before, 0) && AttributeOk(a) && Ends(a, rest) && Blame(before, a).Some?
    ensures ParseLinkSpec(FaultyLink(target, before, a, rest)) == Err(Blame(before, a).value)
  {
    hide ListOk, AttributeOk, Ends, Blame, MaskBlame, ParseAttributes, Fault, UriChars;
    UriCharsNoAngle(target);
    Bracketed(target, Fault(before, a, rest));
    BlameIs(before, a);
    ListRefused(before, a, rest, 0);
  }

  lemma LinkFault(input: string)
    returns (target: string, before: seq<Attribute>, a: Attribute, rest: string)
    requires ParseLinkSpec(input).Err? && ParseLinkSpec(input).error != Error.Syntax
    ensures UriChars(target) && ListOk(before, 0) && AttributeOk(a) && Ends(a, rest)
    ensures Blame(before, a) == Some(ParseLinkSpec(input).error) && input == FaultyLink(target, before, a, rest)
  {
    hide ListOk, AttributeOk, Ends, Blame, MaskBlame, ParseAttributes, Fault, UriChars;
    var end := FindChar(input[1..], '>');
    target := input[1..][..end];
    var attrs := input[1..][end + 1..];
    BracketText(input, target, attrs, end);
    before, a, rest := ListFault(attrs, 0);
    BlameIs(before, a);
  }

  /** Written links followed by more text. */
  function Preceded(ps: seq<Parsed>, text: string): string {
    if ps == [] then text else RenderLink(ps[0]) + Comma(Preceded(ps[1..], text))
  }

  /** The document is admissible up to this attribute, which is wrong in this way. */
  ghost predicate Faulty(doc: string, ps: seq<Parsed>, target: string, before: seq<Attribute>, a: Attribute, rest: string, e: Error) {
    && LinksOk(ps) && UriChars(target) && ListOk(before, 0) && AttributeOk(a) && Ends(a, rest)
    && Blame(before, a) == Some(e) && doc == Preceded(ps, FaultyLink(target, before, a, rest))
  }

  lemma {:induction false} DocumentRefused(ps: seq<Parsed>, text: string, e: Error)
    requires LinksOk(ps) && text != "" && ParseLinkSpec(text) == Err(e)
    ensures ParseDocument(Preceded(ps, text)) == Err(e) && Preceded(ps, text) != ""
    decreases |ps|
  {
    hide LinkOk, RenderLink, Comma, Retain, ParseLinkSpec;
    if ps != [] {
      var p, tail := ps[0], ps[1..];
      assert ps == [p] + tail;
      LinksOkCons(p, tail);
      hide LinksOk;
      DocumentRefused(tail, text, e);
      LinkComplete(p, Preceded(tail, text));
      LinkOpens(p);
    }
  }

  lemma LinkOpens(p: Parsed)
    ensures RenderLink(p) != ""
  {
    assert RenderLink(p)[0] == '<';
  }

  lemma {:induction false} DocumentFault(doc: string)
    returns (ps: seq<Parsed>, target: string, before: seq<Attribute>, a: Attribute, rest: string)
    requires ParseDocument(doc).Err? && ParseDocument(doc).error != Error.Syntax
    ensures Faulty(doc, ps, target, before, a, rest, ParseDocument(doc).error)
    decreases |doc|
  {
    hide LinkOk, RenderLink, Comma, Read, Retain, ParseLinkSpec, ListOk, AttributeOk, Ends, Blame, FaultyLink, UriChars;
    if ParseLinkSpec(doc).Err? {
      target, before, a, rest := LinkFault(doc);
      ps := [];
    } else {
      LinkSound(doc);
      var (link, next) := ParseLinkSpec(doc).value;
      var tail;
      tail, target, before, a, rest := DocumentFault(next);
      ps := [Read(link)] + tail;
      assert ps[1..] == tail;
      LinksOkCons(Read(link), tail);
    }
  }

  /** A document is refused as holding a reserved or a repeated attribute exactly when it does, before
      anything else is wrong with it. */
  lemma RefusedIff(doc: string, e: Error)
    requires e != Error.Syntax
    ensures ParseDocument(doc) == Err(e) <==>
            exists ps, target, before, a, rest :: Faulty(doc, ps, target, before, a, rest, e)
  {
    hide Faulty, ParseDocument;
    if ParseDocument(doc) == Err(e) {
      var ps, target, before, a, rest := DocumentFault(doc);
    }
    if ps, target, before, a, rest :| Faulty(doc, ps, target, before, a, rest, e) {
      FaultyRefused(doc, ps, target, before, a, rest, e);
    }
  }

  /** Whatever is wrong with an attribute after an admissible beginning is what the reader reports. */
  lemma FaultyRefused(doc: string, ps: seq<Parsed>, target: string, before: seq<Attribute>, a: Attribute, rest: string, e: Error)
    requires Faulty(doc, ps, target, before, a, rest, e)
    ensures ParseDocument(doc) == Err(e)
  {
    hide LinksOk, ListOk, AttributeOk, Ends, Blame, UriChars, Fault, ParseLinkSpec, ParseDocument, Preceded;
    LinkRefused(target, before, a, rest);
    assert FaultyLink(target, before, a, rest) != "";
    DocumentRefused(ps, FaultyLink(target, before, a, rest), e);
  }
}
