/** The accessors of a parsed link, and what they give for a link the writer produced. */
module LinkReading {
  import opened Common
  import opened Strings
  import opened LinkSyntax
  import opened LinkGrammar
  import opened LinkWriter
  import Seqs

  datatype Size = Bytes(bytes: nat) | Larger

  /** First attribute of this name, ignoring ASCII case. */
  function First(attributes: seq<Attribute>, name: string): Option<Attribute> {
    if attributes == [] then None
    else if Named(attributes[0], name) then Some(attributes[0])
    else First(attributes[1..], name)
  }

  function ValueOf(attributes: seq<Attribute>, name: string): Option<Text> {
    var found := First(attributes, name);
    if found.None? then None else found.value.value
  }

  function WordsOf(attributes: seq<Attribute>, name: string): seq<string> {
    var value := ValueOf(attributes, name);
    if value.None? then [] else Words(value.value.raw)
  }

  function Codes(words: seq<string>): seq<nat> {
    if words == [] then []
    else if FormatCode(words[0]) then [Value(words[0])] + Codes(words[1..])
    else Codes(words[1..])
  }

  /** All advertised formats, over every `ct` attribute. */
  function ContentFormats(attributes: seq<Attribute>): seq<nat> {
    if attributes == [] then []
    else
      (if Named(attributes[0], "ct") && attributes[0].value.Some? then Codes(Words(attributes[0].value.value.raw))
       else [])
      + ContentFormats(attributes[1..])
  }

  function SizeEstimate(attributes: seq<Attribute>): Option<Size> {
    var value := ValueOf(attributes, "sz");
    if value.None? then None
    else if Cardinal(value.value.raw) && Value(value.value.raw) <= U64_MAX then Some(Bytes(Value(value.value.raw)))
    else Some(Larger)
  }

  predicate Observable(attributes: seq<Attribute>) {
    First(attributes, "obs").Some?
  }

  lemma {:induction false} FirstConcat(a: seq<Attribute>, b: seq<Attribute>, name: string)
    ensures First(a + b, name) == if First(a, name).Some? then First(a, name) else First(b, name)
    decreases |a|
  {
    hide Named;
    if a == [] {
      assert a + b == b;
    } else {
      FirstConcat(a[1..], b, name);
      Seqs.DropCat(a, b, 1);
    }
  }

  lemma {:induction false} FormatsConcat(a: seq<Attribute>, b: seq<Attribute>)
    ensures ContentFormats(a + b) == ContentFormats(a) + ContentFormats(b)
    decreases |a|
  {
    hide Named, Codes, Words;
    if a == [] {
      assert a + b == b;
    } else {
      FormatsConcat(a[1..], b);
      Seqs.DropCat(a, b, 1);
      var head := if Named(a[0], "ct") && a[0].value.Some? then Codes(Words(a[0].value.value.raw)) else [];
      Seqs.Assoc(head, ContentFormats(a[1..]), ContentFormats(b));
    }
  }

  lemma {:induction false} NoneNamed(attributes: seq<Attribute>, name: string)
    requires forall i :: 0 <= i < |attributes| ==> !Named(attributes[i], name)
    ensures First(attributes, name).None?
    ensures name == "ct" ==> ContentFormats(attributes) == []
    decreases |attributes|
  {
    hide Named, Codes, Words;
    if attributes != [] {
      assert forall i :: 0 <= i < |attributes[1..]| ==> attributes[1..][i] == attributes[i + 1];
      NoneNamed(attributes[1..], name);
    }
  }

  lemma {:induction false} CodesOfNumbers(formats: seq<U16>)
    ensures Codes(Numbers(formats)) == formats
    decreases |formats|
  {
    hide Decimal, FormatCode, Value;
    if formats == [] {
      assert Numbers(formats) == [];
    } else {
      CodesOfNumbers(formats[1..]);
      assert Numbers(formats)[0] == Decimal(formats[0]);
      assert Numbers(formats)[1..] == Numbers(formats[1..]);
      FormatWord(formats[0]);
      Seqs.HeadTail(formats);
    }
  }

  /** One of the five core pieces of a descriptor: at most one attribute, of a fixed name. */
  predicate Piece(attributes: seq<Attribute>, name: string) {
    attributes == [] || (|attributes| == 1 && attributes[0].name == name)
  }

  lemma PieceFirst(attributes: seq<Attribute>, name: string, known: string)
    requires Piece(attributes, name)
    ensures First(attributes, known) ==
            if attributes != [] && SameIgnoringCase(name, known) then Some(attributes[0]) else None
    ensures !SameIgnoringCase(name, "ct") ==> ContentFormats(attributes) == []
  {
    hide SameIgnoringCase, Codes, Words;
    if attributes != [] {
      assert attributes[1..] == [];
    }
  }

  lemma SelfNamed(name: string)
    ensures SameIgnoringCase(name, name)
  {
  }

  /** Extensions never shadow a core attribute. */
  lemma ExtensionsQuiet(extensions: seq<Extension>, known: string)
    requires CheckExtensions(extensions).None?
    requires known == "rt" || known == "if" || known == "ct" || known == "sz" || known == "obs"
    ensures First(ExtensionAttributes(extensions), known).None?
    ensures known == "ct" ==> ContentFormats(ExtensionAttributes(extensions)) == []
  {
    hide SameIgnoringCase, First, ContentFormats, ExtensionOk;
    NoneNamed(ExtensionAttributes(extensions), known);
  }

  /** The first attribute of a core name is the one piece of that name. */
  lemma DescribedFirst(m: Metadata, known: string)
    requires Check(m).None?
    requires known == "rt" || known == "if" || known == "ct" || known == "sz" || known == "obs"
    ensures var piece := match known[0]
                         case 'r' => Named1("rt", m.resourceTypes)
                         case 'i' => Named1("if", m.interfaces)
                         case 'c' => FormatAttributes(m.contentFormats)
                         case 's' => SizeAttributes(m.sizeEstimate)
                         case _ => ObserveAttributes(m.observable);
            First(Described(m), known) == if piece == [] then None else Some(piece[0])
  {
    hide First, SameIgnoringCase, RelationTypes, CheckExtensions, ExtensionAttributes, FormatList, Quoted, Decimal;
    var a, b := Named1("rt", m.resourceTypes), Named1("if", m.interfaces);
    var c, d, e := FormatAttributes(m.contentFormats), SizeAttributes(m.sizeEstimate), ObserveAttributes(m.observable);
    CoreNamesDiffer();
    SelfNamed(known);
    PieceFirst(a, "rt", known);
    PieceFirst(b, "if", known);
    PieceFirst(c, "ct", known);
    PieceFirst(d, "sz", known);
    PieceFirst(e, "obs", known);
    FirstConcat(a, b, known);
    FirstConcat(a + b, c, known);
    FirstConcat(a + b + c, d, known);
    FirstConcat(a + b + c + d, e, known);
    FirstConcat(a + b + c + d + e, ExtensionAttributes(m.extensions), known);
    ExtensionsQuiet(m.extensions, known);
  }

  lemma PieceFormats(formats: seq<U16>)
    ensures ContentFormats(FormatAttributes(formats)) == formats
  {
    hide Words, Codes, FormatList, SameIgnoringCase, QuotedOk, FormatCodes;
    SelfNamed("ct");
    if formats != [] {
      FormatListOk(formats);
      CodesOfNumbers(formats);
      assert FormatAttributes(formats)[1..] == [];
    }
  }

  lemma DescribedFormats(m: Metadata)
    requires Check(m).None?
    ensures ContentFormats(Described(m)) == m.contentFormats
  {
    hide ContentFormats, First, SameIgnoringCase, RelationTypes, CheckExtensions, ExtensionAttributes, FormatList,
      Quoted, Decimal;
    var a, b := Named1("rt", m.resourceTypes), Named1("if", m.interfaces);
    var c, d, e := FormatAttributes(m.contentFormats), SizeAttributes(m.sizeEstimate), ObserveAttributes(m.observable);
    CoreNamesDiffer();
    PieceFirst(a, "rt", "ct");
    PieceFirst(b, "if", "ct");
    PieceFormats(m.contentFormats);
    PieceFirst(d, "sz", "ct");
    PieceFirst(e, "obs", "ct");
    FormatsConcat(a, b);
    FormatsConcat(a + b, c);
    FormatsConcat(a + b + c, d);
    FormatsConcat(a + b + c + d, e);
    FormatsConcat(a + b + c + d + e, ExtensionAttributes(m.extensions));
    ExtensionsQuiet(m.extensions, "ct");
    assert [] + [] + m.contentFormats + [] + [] + [] == m.contentFormats;
  }

  function WordsIn(value: Option<string>): seq<string> {
    if value.None? then [] else Words(value.value)
  }

  /** Every accessor returns what the descriptor said. */
  lemma AccessorsReadBack(m: Metadata)
    requires Check(m).None?
    ensures var d := Described(m);
            && WordsOf(d, "rt") == WordsIn(m.resourceTypes)
            && WordsOf(d, "if") == WordsIn(m.interfaces)
            && ContentFormats(d) == m.contentFormats
            && SizeEstimate(d) == (if m.sizeEstimate.None? then None else Some(Bytes(m.sizeEstimate.value)))
            && (Observable(d) <==> m.observable)
  {
    hide Described, First, Words, ContentFormats, RelationTypes, CheckExtensions, Escape, Decimal;
    DescribedFirst(m, "rt");
    DescribedFirst(m, "if");
    DescribedFirst(m, "sz");
    DescribedFirst(m, "obs");
    DescribedFormats(m);
    if m.resourceTypes.Some? {
      RelationTypesPlain(m.resourceTypes.value);
    }
    if m.interfaces.Some? {
      RelationTypesPlain(m.interfaces.value);
    }
  }

  /** Extension values are recovered by undoing the escapes, in order after the core attributes. */
  lemma ExtensionsReadBack(m: Metadata, i: nat)
    requires i < |m.extensions|
    ensures var d := Described(m);
            var k := |d| - |m.extensions| + i;
            && 0 <= k < |d| && d[k].name == m.extensions[i].name
            && (m.extensions[i].value.None? ==> d[k].value.None?)
            && (m.extensions[i].value.Some? ==>
                  d[k].value.Some? && Chars(d[k].value.value) == m.extensions[i].value.value)
  {
    hide Named1, FormatAttributes, SizeAttributes, ObserveAttributes, Chars, Escape;
    var e := m.extensions[i];
    if e.value.Some? {
      CharsOfEscape(e.value.value);
    }
    var d := Described(m);
    assert d[|d| - |m.extensions| + i] == ExtensionAttributes(m.extensions)[i];
  }
}
