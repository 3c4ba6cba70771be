/**
 The bounded link-format writer. Every writer method is specified by the grammar's text of the
 attributes a descriptor stands for, so that what it writes is what the parser reads back.
 */
module LinkWriter {
  import opened Common
  import opened Strings
  import opened LinkSyntax
  import opened LinkGrammar
  import Seqs
  import Utf8

  type U16 = n: nat | n <= 0xFFFF

  type U64 = n: nat | n <= 0xFFFF_FFFF_FFFF_FFFF

  datatype Extension = Extension(name: string, value: Option<string>)

  datatype Metadata = Metadata(
    resourceTypes: Option<string>,
    interfaces: Option<string>,
    contentFormats: seq<U16>,
    sizeEstimate: Option<U64>,
    observable: bool,
    extensions: seq<Extension>)

  // Validation.

  predicate PlainText(c: char) {
    Control(c) ==> c == '\t'
  }

  predicate ExtensionOk(e: Extension) {
    && e.name != "" && All(e.name, NameChar)
    && (e.value.Some? ==> All(e.value.value, PlainText))
  }

  function CheckExtensions(extensions: seq<Extension>): (e: Option<Error>)
    ensures e.None? <==> forall i :: 0 <= i < |extensions| ==>
                           !CoreName(extensions[i].name) && ExtensionOk(extensions[i])
  {
    if extensions == [] then None
    else if CoreName(extensions[0].name) then Some(ReservedAttribute)
    else if !ExtensionOk(extensions[0]) then Some(Syntax)
    else
      var rest := extensions[1..];
      assert forall i :: 0 <= i < |rest| ==> rest[i] == extensions[i + 1];
      assert forall i :: 1 <= i < |extensions| ==> extensions[i] == rest[i - 1];
      CheckExtensions(rest)
  }

  /** The refusal is that of the first extension that may not be written: its name is reserved, or else it
      or its value cannot be spelled. */
  lemma {:induction false} FirstExtensionIs(extensions: seq<Extension>, i: nat)
    requires i < |extensions| && (CoreName(extensions[i].name) || !ExtensionOk(extensions[i]))
    requires forall k :: 0 <= k < i ==> !CoreName(extensions[k].name) && ExtensionOk(extensions[k])
    ensures CheckExtensions(extensions) == Some(if CoreName(extensions[i].name) then ReservedAttribute else Syntax)
    decreases i
  {
    hide CoreName, ExtensionOk;
    if i > 0 {
      var rest := extensions[1..];
      assert rest[i - 1] == extensions[i] && forall k :: 0 <= k < i - 1 ==> rest[k] == extensions[k + 1];
      FirstExtensionIs(rest, i - 1);
    }
  }

  /** `Metadata::validate`: the first refusal, if any. */
  function Check(m: Metadata): (e: Option<Error>)
    ensures e.None? <==> && (m.resourceTypes.Some? ==> RelationTypes(m.resourceTypes.value))
                         && (m.interfaces.Some? ==> RelationTypes(m.interfaces.value))
                         && (forall i :: 0 <= i < |m.extensions| ==>
                               !CoreName(m.extensions[i].name) && ExtensionOk(m.extensions[i]))
  {
    if m.resourceTypes.Some? && !RelationTypes(m.resourceTypes.value) then Some(Syntax)
    else if m.interfaces.Some? && !RelationTypes(m.interfaces.value) then Some(Syntax)
    else CheckExtensions(m.extensions)
  }

  // What a descriptor stands for.

  /** The inside of the quotes `quoted` writes. */
  function Escape(value: string): string {
    if value == "" then ""
    else if value[0] == '"' || value[0] == '\\' then "\\" + [value[0]] + Escape(value[1..])
    else [value[0]] + Escape(value[1..])
  }

  /** `Text::chars`: the logical characters of a value. */
  function Chars(text: Text): string
    decreases |text.raw|
  {
    if text.raw == "" then ""
    else if text.escaped && text.raw[0] == '\\' then
      if |text.raw| == 1 then "" else [text.raw[1]] + Chars(Text(text.raw[2..], true))
    else [text.raw[0]] + Chars(Text(text.raw[1..], text.escaped))
  }

  function Quoted(value: string): Option<Text> {
    Some(Text(Escape(value), true))
  }

  function Numbers(formats: seq<U16>): (words: seq<string>)
    ensures |words| == |formats|
  {
    seq(|formats|, i requires 0 <= i < |formats| => Decimal(formats[i]))
  }

  function FormatList(formats: seq<U16>): string
    requires formats != []
  {
    Join(Numbers(formats), ' ')
  }

  function Named1(name: string, value: Option<string>): seq<Attribute> {
    if value.None? then [] else [Attribute(name, Quoted(value.value))]
  }

  function FormatAttributes(formats: seq<U16>): seq<Attribute> {
    if formats == [] then [] else [Attribute("ct", Some(Text(FormatList(formats), true)))]
  }

  function SizeAttributes(size: Option<U64>): seq<Attribute> {
    if size.None? then [] else [Attribute("sz", Some(Text(Decimal(size.value), false)))]
  }

  function ObserveAttributes(observable: bool): seq<Attribute> {
    if observable then [Attribute("obs", None)] else []
  }

  function ExtensionAttribute(e: Extension): Attribute {
    Attribute(e.name, if e.value.None? then None else Quoted(e.value.value))
  }

  function ExtensionAttributes(extensions: seq<Extension>): (attributes: seq<Attribute>)
    ensures |attributes| == |extensions|
    ensures forall i :: 0 <= i < |extensions| ==> attributes[i] == ExtensionAttribute(extensions[i])
  {
    seq(|extensions|, i requires 0 <= i < |extensions| => ExtensionAttribute(extensions[i]))
  }

  /** The attributes of a descriptor, in wire order. */
  function Described(m: Metadata): seq<Attribute> {
    Named1("rt", m.resourceTypes) + Named1("if", m.interfaces) + FormatAttributes(m.contentFormats)
    + SizeAttributes(m.sizeEstimate) + ObserveAttributes(m.observable) + ExtensionAttributes(m.extensions)
  }

  // Values read back.

  lemma {:induction false} CharsOfEscape(value: string)
    ensures Chars(Text(Escape(value), true)) == value
    decreases |value|
  {
    if value != "" {
      CharsOfEscape(value[1..]);
      Seqs.HeadTail(value);
      var raw := Escape(value);
      if value[0] == '"' || value[0] == '\\' {
        assert raw[0] == '\\' && raw[1] == value[0] && raw[2..] == Escape(value[1..]);
      } else {
        assert raw[0] == value[0] && raw[1..] == Escape(value[1..]);
      }
    }
  }

  lemma {:induction false} EscapeIsQuotable(value: string)
    requires All(value, PlainText)
    ensures QuotedOk(Escape(value))
    decreases |value|
  {
    if value != "" {
      assert forall i :: 0 <= i < |value[1..]| ==> value[1..][i] == value[i + 1];
      EscapeIsQuotable(value[1..]);
      var raw := Escape(value);
      if value[0] == '"' || value[0] == '\\' {
        assert raw[0] == '\\' && raw[1] == value[0] && raw[2..] == Escape(value[1..]);
      } else {
        assert raw[0] == value[0] && raw[1..] == Escape(value[1..]);
      }
    }
  }

  predicate NoEscape(c: char) {
    c != '"' && c != '\\' && !Control(c)
  }

  lemma {:induction false} EscapeNothing(value: string)
    requires All(value, NoEscape)
    ensures Escape(value) == value && QuotedOk(value)
    decreases |value|
  {
    if value != "" {
      assert forall i :: 0 <= i < |value[1..]| ==> value[1..][i] == value[i + 1];
      EscapeNothing(value[1..]);
      Seqs.HeadTail(value);
    }
  }

  // Relation types need no escape.

  lemma {:induction false} UriCharsPlain(word: string)
    requires UriChars(word)
    ensures All(word, NoEscape)
    decreases |word|
  {
    if word == "" {
    } else if word[0] == '%' {
      UriCharsPlain(word[3..]);
      assert forall i :: 3 <= i < |word| ==> word[i] == word[3..][i - 3];
    } else {
      UriCharsPlain(word[1..]);
      assert forall i :: 1 <= i < |word| ==> word[i] == word[1..][i - 1];
    }
  }

  lemma RelationTypePlain(word: string)
    requires word != "" && RelationType(word)
    ensures All(word, NoEscape)
  {
    if All(word, RegisteredChar) {
      assert forall i :: 0 <= i < |word| ==> RegisteredChar(word[i]);
    } else {
      UriCharsPlain(word);
    }
  }

  predicate AllPlain(words: seq<string>) {
    forall i :: 0 <= i < |words| ==> All(words[i], NoEscape)
  }

  /** The words and the spaces make up the whole value. */
  lemma {:induction false} WordsCover(parts: seq<string>)
    requires parts != [] && AllPlain(DropEmpty(parts))
    ensures All(Join(parts, ' '), NoEscape)
    decreases |parts|
  {
    var words := DropEmpty(parts);
    var tail := parts[1..];
    if parts[0] != "" {
      assert words[0] == parts[0] && words[1..] == DropEmpty(tail);
      assert forall i :: 0 <= i < |words[1..]| ==> words[1..][i] == words[i + 1];
    }
    assert All(parts[0], NoEscape);
    if |parts| > 1 {
      WordsCover(tail);
    }
  }

  lemma RelationTypesPlain(value: string)
    requires RelationTypes(value)
    ensures All(value, NoEscape)
    ensures Escape(value) == value && QuotedOk(value)
  {
    var words := Words(value);
    forall i | 0 <= i < |words|
      ensures All(words[i], NoEscape)
    {
      RelationTypePlain(words[i]);
    }
    assert AllPlain(words);
    WordsCover(Split(value, ' '));
    JoinSplit(value, ' ');
    EscapeNothing(value);
  }

  // Content formats.

  lemma {:induction false} DropNothing(parts: seq<string>)
    requires forall i :: 0 <= i < |parts| ==> parts[i] != ""
    ensures DropEmpty(parts) == parts
    decreases |parts|
  {
    if parts != [] {
      assert forall i :: 0 <= i < |parts[1..]| ==> parts[1..][i] == parts[i + 1];
      DropNothing(parts[1..]);
      Seqs.HeadTail(parts);
    }
  }

  lemma {:induction false} JoinEnds(parts: seq<string>)
    requires parts != [] && forall i :: 0 <= i < |parts| ==> parts[i] != "" && All(parts[i], IsDigit)
    ensures var s := Join(parts, ' ');
            && s != "" && IsDigit(s[0]) && IsDigit(s[|s| - 1]) && All(s, c => IsDigit(c) || c == ' ')
    decreases |parts|
  {
    if |parts| > 1 {
      assert forall i :: 0 <= i < |parts[1..]| ==> parts[1..][i] == parts[i + 1];
      JoinEnds(parts[1..]);
    }
  }

  lemma FormatWord(n: U16)
    ensures Decimal(n) != "" && All(Decimal(n), IsDigit) && FormatCode(Decimal(n))
    ensures forall k :: 0 <= k < |Decimal(n)| ==> Decimal(n)[k] != ' '
  {
    hide Decimal, Value;
  }

  lemma ListPlain(s: string)
    requires All(s, c => IsDigit(c) || c == ' ')
    ensures All(s, NoEscape)
  {
    forall i | 0 <= i < |s|
      ensures NoEscape(s[i])
    {
      assert IsDigit(s[i]) || s[i] == ' ';
    }
  }

  /** A written format list has the right shape and reads back as the same words. */
  lemma FormatListOk(formats: seq<U16>)
    requires formats != []
    ensures Words(FormatList(formats)) == Numbers(formats)
    ensures FormatCodes(FormatList(formats)) && QuotedOk(FormatList(formats))
  {
    hide Split, Join, DropEmpty, QuotedOk, Escape, FormatCode, Decimal;
    var words := Numbers(formats);
    forall i | 0 <= i < |words|
      ensures words[i] != "" && All(words[i], IsDigit) && FormatCode(words[i])
      ensures forall k :: 0 <= k < |words[i]| ==> words[i][k] != ' '
    {
      FormatWord(formats[i]);
    }
    SplitJoin(words, ' ');
    DropNothing(words);
    JoinEnds(words);
    ListPlain(FormatList(formats));
    EscapeNothing(FormatList(formats));
  }

  // Every accepted descriptor is a well-formed attribute list.

  lemma {:induction false} CountConcat(a: seq<Attribute>, b: seq<Attribute>, name: string)
    ensures Count(a + b, name) == Count(a, name) + Count(b, name)
    decreases |a|
  {
    hide Named;
    if a == [] {
      assert a + b == b;
    } else {
      CountConcat(a[1..], b, name);
      Seqs.DropCat(a, b, 1);
    }
  }

  /** Attribute lists that are well formed and hold no `href`. */
  predicate ListGood(attributes: seq<Attribute>) {
    AllOk(attributes) && ValuesOk(attributes)
  }

  lemma GoodConcat(a: seq<Attribute>, b: seq<Attribute>)
    ensures ListGood(a) && ListGood(b) ==> ListGood(a + b)
  {
    hide AttributeOk, Named, ValueOk;
  }

  lemma SingleGood(a: Attribute)
    ensures AttributeOk(a) && !Named(a, "href") && ValueOk(a) ==> ListGood([a])
  {
    hide AttributeOk, Named, ValueOk;
  }

  lemma NoneGood()
    ensures ListGood([])
  {
  }

  lemma CoreNamesDiffer()
    ensures !SameIgnoringCase("rt", "if") && !SameIgnoringCase("rt", "ct") && !SameIgnoringCase("rt", "sz")
    ensures !SameIgnoringCase("if", "rt") && !SameIgnoringCase("if", "ct") && !SameIgnoringCase("if", "sz")
    ensures !SameIgnoringCase("ct", "rt") && !SameIgnoringCase("ct", "if") && !SameIgnoringCase("ct", "sz")
    ensures !SameIgnoringCase("sz", "rt") && !SameIgnoringCase("sz", "if") && !SameIgnoringCase("sz", "ct")
    ensures !SameIgnoringCase("obs", "rt") && !SameIgnoringCase("obs", "if")
    ensures !SameIgnoringCase("obs", "ct") && !SameIgnoringCase("obs", "sz")
    ensures !SameIgnoringCase("rt", "href") && !SameIgnoringCase("if", "href")
    ensures !SameIgnoringCase("ct", "href") && !SameIgnoringCase("sz", "href") && !SameIgnoringCase("obs", "href")
    ensures !SameIgnoringCase("rt", "obs") && !SameIgnoringCase("if", "obs")
    ensures !SameIgnoringCase("ct", "obs") && !SameIgnoringCase("sz", "obs")
  {
    assert Lower("rt"[0]) == 'r' && Lower("if"[0]) == 'i' && Lower("ct"[0]) == 'c' && Lower("sz"[0]) == 's';
  }

  lemma NameIsOk(name: string)
    requires name != "" && All(name, NameChar)
    ensures NameOk(name) && !Extended(name)
  {
  }

  lemma CoreNamesOk()
    ensures NameOk("rt") && NameOk("if") && NameOk("ct") && NameOk("sz") && NameOk("obs")
    ensures !Extended("rt") && !Extended("if") && !Extended("ct") && !Extended("sz") && !Extended("obs")
  {
  }

  lemma RelationGood(name: string, value: Option<string>)
    requires name == "rt" || name == "if"
    requires value.Some? ==> RelationTypes(value.value)
    ensures ListGood(Named1(name, value))
  {
    hide RelationTypes, FormatCodes, QuotedOk, Escape, SameIgnoringCase, NameOk, Extended, AllOk, ValuesOk;
    CoreNamesDiffer();
    CoreNamesOk();
    if value.Some? {
      RelationTypesPlain(value.value);
      SingleGood(Named1(name, value)[0]);
    } else {
      NoneGood();
    }
  }

  lemma FormatsGood(formats: seq<U16>)
    ensures ListGood(FormatAttributes(formats))
  {
    hide RelationTypes, FormatCodes, QuotedOk, FormatList, SameIgnoringCase, NameOk, Extended, AllOk, ValuesOk;
    CoreNamesDiffer();
    CoreNamesOk();
    if formats != [] {
      FormatListOk(formats);
      SingleGood(FormatAttributes(formats)[0]);
    } else {
      NoneGood();
    }
  }

  lemma DecimalTokens(n: nat)
    ensures Decimal(n) != "" && All(Decimal(n), TokenChar) && Cardinal(Decimal(n))
  {
    hide Decimal, Value;
  }

  lemma SizeGood(size: Option<U64>)
    ensures ListGood(SizeAttributes(size))
  {
    hide RelationTypes, FormatCodes, Decimal, Cardinal, All, SameIgnoringCase, NameOk, Extended, AllOk, ValuesOk;
    CoreNamesDiffer();
    CoreNamesOk();
    if size.Some? {
      DecimalTokens(size.value);
      SingleGood(SizeAttributes(size)[0]);
    } else {
      NoneGood();
    }
  }

  lemma ObserveGood(observable: bool)
    ensures ListGood(ObserveAttributes(observable))
  {
    hide RelationTypes, FormatCodes, SameIgnoringCase, NameOk, Extended, AllOk, ValuesOk;
    CoreNamesDiffer();
    CoreNamesOk();
    if observable {
      SingleGood(Attribute("obs", None));
    } else {
      NoneGood();
    }
  }

  lemma ExtensionGood(e: Extension)
    requires !CoreName(e.name) && ExtensionOk(e)
    ensures AttributeOk(ExtensionAttribute(e))
    ensures !Named(ExtensionAttribute(e), "href") && ValueOk(ExtensionAttribute(e))
  {
    hide RelationTypes, FormatCodes, SameIgnoringCase, NameOk, QuotedOk, Escape;
    NameIsOk(e.name);
    if e.value.Some? {
      EscapeIsQuotable(e.value.value);
    }
  }

  lemma ExtensionsGood(extensions: seq<Extension>)
    requires CheckExtensions(extensions).None?
    ensures ListGood(ExtensionAttributes(extensions))
  {
    hide AttributeOk, ValueOk, ExtensionAttribute, ExtensionOk, CoreName;
    forall i | 0 <= i < |extensions|
      ensures AttributeOk(ExtensionAttributes(extensions)[i])
      ensures !Named(ExtensionAttributes(extensions)[i], "href") && ValueOk(ExtensionAttributes(extensions)[i])
    {
      ExtensionGood(extensions[i]);
    }
  }

  lemma {:induction false} CountNone(attributes: seq<Attribute>, name: string)
    requires forall i :: 0 <= i < |attributes| ==> !Named(attributes[i], name)
    ensures Count(attributes, name) == 0
    decreases |attributes|
  {
    hide Named;
    if attributes != [] {
      assert forall i :: 0 <= i < |attributes[1..]| ==> attributes[1..][i] == attributes[i + 1];
      CountNone(attributes[1..], name);
    }
  }

  lemma ExtensionsUncounted(extensions: seq<Extension>)
    requires CheckExtensions(extensions).None?
    ensures Count(ExtensionAttributes(extensions), "rt") == 0
    ensures Count(ExtensionAttributes(extensions), "if") == 0
    ensures Count(ExtensionAttributes(extensions), "sz") == 0
  {
    hide SameIgnoringCase, Count, ExtensionOk;
    CountNone(ExtensionAttributes(extensions), "rt");
    CountNone(ExtensionAttributes(extensions), "if");
    CountNone(ExtensionAttributes(extensions), "sz");
  }

  lemma CountOne(name: string, value: Option<Text>, known: string)
    ensures Count([Attribute(name, value)], known) == if SameIgnoringCase(name, known) then 1 else 0
  {
    hide SameIgnoringCase;
    assert [Attribute(name, value)][1..] == [];
  }

  lemma CoreCounts(m: Metadata, name: string)
    requires name == "rt" || name == "if" || name == "sz"
    ensures var core := Named1("rt", m.resourceTypes) + Named1("if", m.interfaces)
                        + FormatAttributes(m.contentFormats)
                        + SizeAttributes(m.sizeEstimate) + ObserveAttributes(m.observable);
            Count(core, name) <= 1
  {
    hide Count, SameIgnoringCase;
    var a, b := Named1("rt", m.resourceTypes), Named1("if", m.interfaces);
    var c, d, e := FormatAttributes(m.contentFormats), SizeAttributes(m.sizeEstimate), ObserveAttributes(m.observable);
    CountConcat(a, b, name);
    CountConcat(a + b, c, name);
    CountConcat(a + b + c, d, name);
    CountConcat(a + b + c + d, e, name);
    CoreNamesDiffer();
    CountNone([], name);
    if a != [] { CountOne("rt", a[0].value, name); }
    if b != [] { CountOne("if", b[0].value, name); }
    if c != [] { CountOne("ct", c[0].value, name); }
    if d != [] { CountOne("sz", d[0].value, name); }
    if e != [] { CountOne("obs", e[0].value, name); }
  }

  /** The writer's refusals are exactly enough: what passes is a grammatical, admissible list. */
  lemma DescribedOk(m: Metadata)
    requires Check(m).None?
    ensures AllOk(Described(m)) && Admissible(Described(m))
  {
    hide AllOk, ValuesOk, Count, Named1, FormatAttributes, SizeAttributes, ObserveAttributes,
      ExtensionAttributes, RelationTypes;
    var a, b := Named1("rt", m.resourceTypes), Named1("if", m.interfaces);
    var c, d, e := FormatAttributes(m.contentFormats), SizeAttributes(m.sizeEstimate), ObserveAttributes(m.observable);
    var f := ExtensionAttributes(m.extensions);
    RelationGood("rt", m.resourceTypes);
    RelationGood("if", m.interfaces);
    FormatsGood(m.contentFormats);
    SizeGood(m.sizeEstimate);
    ObserveGood(m.observable);
    ExtensionsGood(m.extensions);
    GoodConcat(a, b);
    GoodConcat(a + b, c);
    GoodConcat(a + b + c, d);
    GoodConcat(a + b + c + d, e);
    GoodConcat(a + b + c + d + e, f);
    ExtensionsUncounted(m.extensions);
    CoreCounts(m, "rt");
    CoreCounts(m, "if");
    CoreCounts(m, "sz");
    CountConcat(a + b + c + d + e, f, "rt");
    CountConcat(a + b + c + d + e, f, "if");
    CountConcat(a + b + c + d + e, f, "sz");
  }

  /** The text `write_link` produces. */
  function LinkText(target: string, m: Metadata): string {
    RenderLink(Parsed(target, Described(m)))
  }

  /** Round trip: the parser reads back exactly the target and the attributes written. */
  lemma WrittenLinkParses(target: string, m: Metadata)
    requires UriChars(target) && Check(m).None?
    ensures ParsesTo(LinkText(target, m), [Parsed(target, Described(m))])
  {
    hide UriChars, Described, AllOk, Admissible, ParsesTo, RenderLink;
    DescribedOk(m);
    ParsesExactly(LinkText(target, m), [Parsed(target, Described(m))]);
  }
}
