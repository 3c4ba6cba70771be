/**
 The leaves of the link grammar in the words of RFC 6690 (section 2) and RFC 3986: numbers, lists of
 words, relation types, URI text, and the label of every refusal. The parser's tests accept exactly these.
 */
module LinkValues {
  import opened Common
  import opened Strings
  import opened LinkSyntax
  import opened LinkGrammar
  import opened LinkReading
  import LinkWriter
  import Seqs
  import Utf8

  // Numbers.

  lemma DecimalNext(n: nat, d: char)
    requires IsDigit(d)
    ensures var k := d as int - '0' as int;
            Decimal(n * 10 + k) == if n == 0 then [d] else Decimal(n) + [d]
  {
    var k := d as int - '0' as int;
    assert (n * 10 + k) / 10 == n && (n * 10 + k) % 10 == k;
  }

  lemma {:induction false} SpelledBack(w: string)
    requires w != "" && All(w, IsDigit) && (w == "0" || w[0] != '0')
    ensures Decimal(Value(w)) == w
    ensures w != "0" ==> Value(w) > 0
    decreases |w|
  {
    hide Decimal;
    var hi, d := w[..|w| - 1], w[|w| - 1];
    assert w == hi + [d];
    DecimalNext(Value(hi), d);
    if hi != "" {
      SpelledBack(hi);
      assert hi != "0";
    }
  }

  /** A cardinal is the decimal spelling of a number, without leading zeros. */
  lemma CardinalIff(w: string)
    ensures Cardinal(w) <==> exists n: nat :: w == Decimal(n)
  {
    if Cardinal(w) {
      SpelledBack(w);
    }
  }

  /** A content-format code is a cardinal that fits in 16 bits. */
  lemma CodeIff(w: string)
    ensures FormatCode(w) <==> exists n: nat :: n <= 65535 && w == Decimal(n)
  {
    if FormatCode(w) {
      SpelledBack(w);
    }
  }

  // Lists of words.

  function Blank(n: nat): (s: string)
    ensures |s| == n && All(s, c => c == ' ')
  {
    if n == 0 then "" else " " + Blank(n - 1)
  }

  predicate Word(w: string) {
    w != "" && All(w, c => c != ' ')
  }

  /** One word, or a word, one or more spaces, and a list. */
  ghost predicate Listed(value: string, words: seq<string>)
    decreases |words|
  {
    && words != [] && Word(words[0])
    && if |words| == 1 then value == words[0] else
         exists gap: nat :: Separated(value, words[0], gap) && Listed(value[|words[0]| + gap..], words[1..])
  }

  predicate Separated(value: string, word: string, gap: nat) {
    gap >= 1 && |word| + gap <= |value| && value == word + Blank(gap) + value[|word| + gap..]
  }

  lemma {:induction false} WordsSkip(gap: nat, rest: string)
    ensures Words(Blank(gap) + rest) == Words(rest)
    decreases gap
  {
    if gap == 0 {
      assert Blank(0) + rest == rest;
    } else {
      var more := Blank(gap - 1) + rest;
      assert Blank(gap) + rest == "" + [' '] + more;
      SplitCons("", more, ' ');
      assert ([""] + Split(more, ' '))[1..] == Split(more, ' ');
      WordsSkip(gap - 1, rest);
    }
  }

  lemma WordsFirst(word: string, gap: nat, rest: string)
    requires Word(word) && gap >= 1
    ensures Words(word + Blank(gap) + rest) == [word] + Words(rest)
  {
    var more := Blank(gap - 1) + rest;
    assert word + Blank(gap) + rest == word + [' '] + more;
    SplitCons(word, more, ' ');
    assert ([word] + Split(more, ' '))[1..] == Split(more, ' ');
    WordsSkip(gap - 1, rest);
  }

  lemma WordsOne(word: string)
    requires Word(word)
    ensures Words(word) == [word]
  {
    SplitOne(word, ' ');
    assert DropEmpty([word]) == [word] by {
      assert [word][1..] == [];
    }
  }

  lemma {:induction false} ListedSound(value: string, words: seq<string>)
    requires Listed(value, words)
    ensures List(value) && Words(value) == words
    decreases |words|
  {
    hide Words, Word, List;
    if |words| == 1 {
      WordsOne(words[0]);
      WordEnds(words[0]);
      assert words == [words[0]];
    } else {
      var gap: nat :| Separated(value, words[0], gap) && Listed(value[|words[0]| + gap..], words[1..]);
      hide Listed;
      ListedSound(value[|words[0]| + gap..], words[1..]);
      OneMore(value, words[0], gap);
      Seqs.HeadTail(words);
    }
  }

  lemma WordEnds(word: string)
    requires Word(word)
    ensures List(word)
  {
  }

  /** A word and spaces before a list make a list of one word more. */
  lemma OneMore(value: string, word: string, gap: nat)
    requires Word(word) && Separated(value, word, gap) && List(value[|word| + gap..])
    ensures List(value) && Words(value) == [word] + Words(value[|word| + gap..])
  {
    hide Words;
    WordsFirst(word, gap, value[|word| + gap..]);
    WordEnds(word);
    assert value[0] == word[0];
  }

  /** Spaces at the head of a text that does not end in one. */
  lemma {:induction false} Leading(s: string) returns (gap: nat)
    requires s != "" && s[|s| - 1] != ' '
    ensures gap < |s| && s == Blank(gap) + s[gap..] && s[gap] != ' '
    decreases |s|
  {
    if s[0] != ' ' {
      gap := 0;
      assert s == Blank(0) + s[0..];
    } else {
      gap := Leading(s[1..]);
      gap := gap + 1;
      assert s[1..][gap - 1..] == s[gap..];
      assert s == " " + s[1..];
    }
  }

  lemma {:induction false} ListedComplete(value: string)
    requires List(value)
    ensures Listed(value, Words(value))
    decreases |value|
  {
    hide Words, Listed;
    var n := FindChar(value, ' ');
    if n == |value| {
      WordsOne(value);
      ListedOne(value);
    } else {
      var gap := FirstWord(value, n);
      ListedComplete(value[n + gap..]);
      OneMore(value, value[..n], gap);
      ListedMore(value, value[..n], gap, Words(value[n + gap..]));
    }
  }

  lemma ListedOne(word: string)
    requires Word(word)
    ensures Listed(word, [word])
  {
  }

  lemma ListedMore(value: string, word: string, gap: nat, words: seq<string>)
    requires Word(word) && Separated(value, word, gap) && Listed(value[|word| + gap..], words)
    ensures Listed(value, [word] + words)
  {
    var all := [word] + words;
    assert all[0] == word && all[1..] == words;
    assert Listed(value[|all[0]| + gap..], all[1..]);
  }

  lemma FirstWord(value: string, n: nat) returns (gap: nat)
    requires List(value) && n == FindChar(value, ' ') < |value|
    ensures Word(value[..n]) && Separated(value, value[..n], gap) && List(value[n + gap..])
  {
    gap := Leading(value[n..]);
    assert value[n..][gap..] == value[n + gap..];
    assert value == value[..n] + value[n..];
  }

  /** The list test and the word splitter together read the grammar `word *( 1*SP word )`. */
  lemma ListedIff(value: string, words: seq<string>)
    ensures Listed(value, words) <==> List(value) && Words(value) == words
  {
    hide Listed, List, Words;
    if Listed(value, words) {
      ListedSound(value, words);
    }
    if List(value) {
      ListedComplete(value);
    }
  }

  // URI text and relation types.

  /** A piece of URI text: one legal character, or an escape of two hexadecimal digits. */
  predicate UriPiece(p: string) {
    || (|p| == 1 && (p[0] in DIGITS || p[0] in LOWER || p[0] in UPPER || p[0] in "-._~:/?#[]@!$&'()*+,;="))
    || (|p| == 3 && p[0] == '%' && p[1] in "0123456789abcdefABCDEF" && p[2] in "0123456789abcdefABCDEF")
  }

  predicate UriPieces(pieces: seq<string>) {
    forall i :: 0 <= i < |pieces| ==> UriPiece(pieces[i])
  }

  function Glued(pieces: seq<string>): string {
    if pieces == [] then "" else pieces[0] + Glued(pieces[1..])
  }

  lemma PieceRead(p: string, rest: string)
    requires UriPiece(p)
    ensures UriChars(p + rest) <==> UriChars(rest)
  {
    assert (p + rest)[|p|..] == rest;
    if |p| == 1 {
      UrisSpelled(p[0]);
      assert '%' !in "-._~:/?#[]@!$&'()*+,;=";
      Strings.ClassesSpelled('%');
    } else {
      HexRow(p[1]);
      HexRow(p[2]);
      assert (p + rest)[1] == p[1] && (p + rest)[2] == p[2];
    }
  }

  lemma HexRow(c: char)
    ensures HexDigit(c) <==> c in "0123456789abcdefABCDEF"
  {
    LinkSyntax.HexSpelled(c);
    assert "0123456789abcdefABCDEF" == DIGITS + "abcdefABCDEF";
  }

  lemma {:induction false} GluedSound(pieces: seq<string>)
    requires UriPieces(pieces)
    ensures UriChars(Glued(pieces))
    decreases |pieces|
  {
    hide UriPiece;
    if pieces != [] {
      assert UriPieces(pieces[1..]);
      GluedSound(pieces[1..]);
      PieceRead(pieces[0], Glued(pieces[1..]));
    }
  }

  lemma {:induction false} Cut(s: string) returns (pieces: seq<string>)
    requires UriChars(s)
    ensures UriPieces(pieces) && Glued(pieces) == s
    decreases |s|
  {
    hide UriChars, UriPiece;
    if s == "" {
      pieces := [];
    } else {
      var n := FirstPiece(s);
      var rest := Cut(s[n..]);
      pieces := [s[..n]] + rest;
      assert pieces[1..] == rest;
      assert s == s[..n] + s[n..];
    }
  }

  lemma FirstPiece(s: string) returns (n: nat)
    requires UriChars(s) && s != ""
    ensures 0 < n <= |s| && UriPiece(s[..n]) && UriChars(s[n..])
  {
    if s[0] == '%' {
      n := 3;
      HexRow(s[1]);
      HexRow(s[2]);
    } else {
      n := 1;
      UrisSpelled(s[0]);
    }
  }

  /** URI text is what can be put together from legal characters and complete escapes. */
  lemma UriCharsIff(s: string)
    ensures UriChars(s) <==> exists pieces :: UriPieces(pieces) && Glued(pieces) == s
  {
    if UriChars(s) {
      var pieces := Cut(s);
    }
    if pieces :| UriPieces(pieces) && Glued(pieces) == s {
      GluedSound(pieces);
    }
  }

  predicate RegisteredName(w: string) {
    w != "" && w[0] in LOWER && All(w, c => c in LOWER || c in DIGITS || c in ".-")
  }

  predicate SchemeName(w: string) {
    && w != "" && (w[0] in LOWER || w[0] in UPPER)
    && All(w, c => c in DIGITS || c in LOWER || c in UPPER || c in "+-.")
  }

  ghost predicate AbsoluteUri(w: string) {
    UriChars(w) && exists scheme, rest :: SchemeName(scheme) && w == scheme + ":" + rest
  }

  lemma RegisteredIff(w: string)
    requires w != ""
    ensures RegisteredName(w) <==> IsLower(w[0]) && All(w, RegisteredChar)
  {
    forall i | 0 <= i < |w|
      ensures RegisteredChar(w[i]) <==> w[i] in LOWER || w[i] in DIGITS || w[i] in ".-"
      ensures IsLower(w[i]) <==> w[i] in LOWER
    {
      ValuesSpelled(w[i]);
      Strings.ClassesSpelled(w[i]);
    }
  }

  lemma SchemeIff(w: string)
    ensures SchemeName(w) <==> w != "" && IsAlpha(w[0]) && All(w, SchemeChar)
  {
    forall i | 0 <= i < |w|
      ensures SchemeChar(w[i]) <==> w[i] in DIGITS || w[i] in LOWER || w[i] in UPPER || w[i] in "+-."
      ensures IsAlpha(w[i]) <==> w[i] in LOWER || w[i] in UPPER
    {
      ValuesSpelled(w[i]);
      Strings.ClassesSpelled(w[i]);
    }
  }

  /** A relation type is a registered name or an absolute URI. */
  lemma RelationTypeIff(w: string)
    requires w != ""
    ensures RelationType(w) <==> RegisteredName(w) || AbsoluteUri(w)
  {
    hide RegisteredName, SchemeName, UriChars;
    RegisteredIff(w);
    var colon := FindChar(w, ':');
    if colon < |w| {
      SchemeIff(w[..colon]);
      assert w == w[..colon] + ":" + w[colon + 1..];
    }
    if scheme, rest :| SchemeName(scheme) && w == scheme + ":" + rest {
      SchemeIff(scheme);
      FindCharUnique(w, ':', |scheme|);
      assert w[..colon] == scheme;
    }
  }

  // Names and quoted text.

  /** A parameter name, or one with a final star. */
  lemma NameIff(name: string)
    ensures NameOk(name) <==> exists base :: base != "" && All(base, NameChar) && (name == base || name == base + "*")
  {
    if NameOk(name) {
      var base := if name[|name| - 1] == '*' then name[..|name| - 1] else name;
      assert name == base || name == base + "*";
    }
    if base :| base != "" && All(base, NameChar) && (name == base || name == base + "*") {
      assert base[|base| - 1] != '*';
      assert (base + "*")[..|base|] == base;
    }
  }

  predicate Printable(c: char) {
    c in " !\"#$%&'()*+,-./" || c in DIGITS || c in ":;<=>?@" || c in UPPER || c in "[\\]^_`" || c in LOWER || c in "{|}~"
  }

  lemma PrintableRows(c: char)
    ensures Printable(c) <==> ' ' <= c <= '~'
  {
    Alphabets();
    InRow(" !\"#$%&'()*+,-./", ' ', c);
    InRow(DIGITS, '0', c);
    InRow(":;<=>?@", ':', c);
    InRow(UPPER, 'A', c);
    InRow("[\\]^_`", '[', c);
    InRow(LOWER, 'a', c);
    InRow("{|}~", '{', c);
  }

  /** Of the ASCII characters the printable ones are written out; the others are control characters. */
  lemma ControlSpelled(c: char)
    ensures Utf8.IsAscii(c) ==> (Control(c) <==> !Printable(c))
    ensures !Utf8.IsAscii(c) ==> !Control(c)
    ensures EscapableChar(c) <==> (Control(c) || Printable(c)) && c !in "\r\n"
  {
    PrintableRows(c);
  }

  /** An extension that may be written: a name of name characters, and text without control characters but
      the tab. */
  lemma ExtensionIff(e: LinkWriter.Extension)
    ensures LinkWriter.ExtensionOk(e) <==>
            && e.name != "" && All(e.name, NameChar)
            && (e.value.Some? ==> All(e.value.value, c => !Utf8.IsAscii(c) || Printable(c) || c == '\t'))
  {
    if e.value.Some? {
      forall i | 0 <= i < |e.value.value|
        ensures LinkWriter.PlainText(e.value.value[i]) <==>
                !Utf8.IsAscii(e.value.value[i]) || Printable(e.value.value[i]) || e.value.value[i] == '\t'
      {
        ControlSpelled(e.value.value[i]);
      }
    }
  }

  // Attributes.

  function Decimals(numbers: seq<nat>): (words: seq<string>)
    ensures |words| == |numbers| && forall i :: 0 <= i < |words| ==> words[i] == Decimal(numbers[i])
  {
    seq(|numbers|, i requires 0 <= i < |numbers| => Decimal(numbers[i]))
  }

  predicate Codes16(numbers: seq<nat>) {
    numbers != [] && forall i :: 0 <= i < |numbers| ==> numbers[i] <= 65535
  }

  predicate Relations(words: seq<string>) {
    forall i :: 0 <= i < |words| ==> words[i] != "" && RelationType(words[i])
  }

  ghost predicate RelationList(value: string) {
    exists words :: Listed(value, words) && Relations(words)
  }

  ghost predicate CodeList(value: string) {
    exists numbers :: Codes16(numbers) && Listed(value, Decimals(numbers))
  }

  ghost predicate OneNumber(value: Option<Text>) {
    exists n: nat :: value == Some(Text(Decimal(n), false))
  }

  lemma RelationsIff(value: string)
    ensures RelationTypes(value) <==> RelationList(value)
  {
    hide List, Words, Listed, RelationType;
    ListedIff(value, Words(value));
    if words :| Listed(value, words) && Relations(words) {
      ListedIff(value, words);
    }
  }

  lemma CodesRead(value: string) returns (numbers: seq<nat>)
    requires FormatCodes(value)
    ensures Codes16(numbers) && Listed(value, Decimals(numbers))
  {
    hide List, Words, Listed, FormatCode, Decimal, Value;
    var words := Words(value);
    ListedIff(value, words);
    numbers := Numbered(words);
    assert Decimals(numbers) == words;
    ListedSome(value, words);
  }

  lemma ListedSome(value: string, words: seq<string>)
    requires Listed(value, words)
    ensures words != []
  {
  }

  lemma {:induction false} Numbered(words: seq<string>) returns (numbers: seq<nat>)
    requires forall i :: 0 <= i < |words| ==> FormatCode(words[i])
    ensures Decimals(numbers) == words && forall i :: 0 <= i < |numbers| ==> numbers[i] <= 65535
    decreases |words|
  {
    hide FormatCode, Decimal;
    if words == [] {
      numbers := [];
    } else {
      assert forall i :: 0 <= i < |words[1..]| ==> words[1..][i] == words[i + 1];
      var rest := Numbered(words[1..]);
      CodeIff(words[0]);
      var n: nat :| n <= 65535 && words[0] == Decimal(n);
      numbers := [n] + rest;
      assert Decimals(numbers)[1..] == Decimals(rest);
      Seqs.HeadTail(words);
    }
  }

  lemma CodesIff(value: string)
    ensures FormatCodes(value) <==> CodeList(value)
  {
    hide List, Words, Listed, FormatCode;
    if FormatCodes(value) {
      var numbers := CodesRead(value);
    }
    if numbers :| Codes16(numbers) && Listed(value, Decimals(numbers)) {
      ListedIff(value, Decimals(numbers));
      forall i | 0 <= i < |numbers|
        ensures FormatCode(Decimals(numbers)[i])
      {
        CodeOf(numbers[i]);
      }
    }
  }

  lemma CodeOf(n: nat)
    requires n <= 65535
    ensures FormatCode(Decimal(n))
  {
  }

  /** What each known attribute must carry: relation types, one unquoted number, or format codes. */
  ghost predicate Carries(a: Attribute) {
    && (Named(a, "rt") || Named(a, "if") ==> a.value.Some? && RelationList(a.value.value.raw))
    && (Named(a, "sz") ==> OneNumber(a.value))
    && (Named(a, "ct") ==> a.value.Some? && CodeList(a.value.value.raw))
  }

  lemma CarriesIff(a: Attribute)
    ensures ValueOk(a) <==> Carries(a)
  {
    hide Named, RelationTypes, FormatCodes, Cardinal, RelationList, CodeList, OneNumber;
    if a.value.Some? {
      var raw := a.value.value.raw;
      RelationsIff(raw);
      CodesIff(raw);
    }
    SizeIff(a.value);
  }

  lemma SizeIff(value: Option<Text>)
    ensures value.Some? && !value.value.escaped && Cardinal(value.value.raw) <==> OneNumber(value)
  {
    if value.Some? {
      CardinalIff(value.value.raw);
      if !value.value.escaped && Cardinal(value.value.raw) {
        var n: nat :| value.value.raw == Decimal(n);
        assert value == Some(Text(Decimal(n), false));
      }
    }
  }

  // Accessors of any accepted link.

  /** The first attribute of a name is at the lowest place that has it. */
  lemma {:induction false} FirstAt(attributes: seq<Attribute>, name: string)
    ensures First(attributes, name).None? <==> forall i :: 0 <= i < |attributes| ==> !Named(attributes[i], name)
    ensures forall i :: 0 <= i < |attributes| && Named(attributes[i], name)
                        && (forall j :: 0 <= j < i ==> !Named(attributes[j], name)) ==>
              First(attributes, name) == Some(attributes[i])
    decreases |attributes|
  {
    hide Named;
    if attributes != [] {
      var tail := attributes[1..];
      assert forall i :: 0 <= i < |tail| ==> tail[i] == attributes[i + 1];
      assert forall i :: 1 <= i < |attributes| ==> attributes[i] == tail[i - 1];
      FirstAt(tail, name);
    }
  }

  lemma {:induction false} CodesOf(numbers: seq<nat>)
    requires forall i :: 0 <= i < |numbers| ==> numbers[i] <= 65535
    ensures Codes(Decimals(numbers)) == numbers
    decreases |numbers|
  {
    hide Decimal, FormatCode, Value;
    if numbers != [] {
      CodesOf(numbers[1..]);
      CodeOf(numbers[0]);
      assert Decimals(numbers)[1..] == Decimals(numbers[1..]);
      Seqs.HeadTail(numbers);
    }
  }

  /** The formats of one attribute: its numbers in order, or none. */
  lemma FormatsOfOne(a: Attribute, numbers: seq<nat>)
    ensures !Named(a, "ct") ==> ContentFormats([a]) == []
    ensures Named(a, "ct") && a.value.Some? && Codes16(numbers) && Listed(a.value.value.raw, Decimals(numbers)) ==>
              ContentFormats([a]) == numbers
  {
    hide Named, Listed, Codes, Words;
    assert [a][1..] == [];
    if Named(a, "ct") && a.value.Some? && Codes16(numbers) && Listed(a.value.value.raw, Decimals(numbers)) {
      ListedIff(a.value.value.raw, Decimals(numbers));
      CodesOf(numbers);
    }
  }

  /** The size of an accepted link: the number it says, or that it is larger than 64 bits hold. */
  lemma SizeRead(attributes: seq<Attribute>, i: nat, n: nat)
    requires i < |attributes| && Named(attributes[i], "sz") && attributes[i].value == Some(Text(Decimal(n), false))
    requires forall j :: 0 <= j < i ==> !Named(attributes[j], "sz")
    ensures SizeEstimate(attributes) == Some(if n < 0x1_0000_0000_0000_0000 then Bytes(n) else Larger)
  {
    hide Named, Decimal, First;
    FirstAt(attributes, "sz");
    CardinalIff(Decimal(n));
  }

  /** An admissible link without a size says none. */
  lemma SizeAbsent(attributes: seq<Attribute>)
    requires ValuesOk(attributes)
    ensures SizeEstimate(attributes).None? <==> forall i :: 0 <= i < |attributes| ==> !Named(attributes[i], "sz")
  {
    hide Named, First, Cardinal;
    FirstAt(attributes, "sz");
    if i :| 0 <= i < |attributes| && Named(attributes[i], "sz") {
      var k := Earliest(attributes, "sz", i);
      assert First(attributes, "sz") == Some(attributes[k]);
    }
  }

  lemma {:induction false} Earliest(attributes: seq<Attribute>, name: string, i: nat) returns (k: nat)
    requires i < |attributes| && Named(attributes[i], name)
    ensures k <= i && Named(attributes[k], name) && forall j :: 0 <= j < k ==> !Named(attributes[j], name)
    decreases i
  {
    hide Named;
    k := i;
    if j :| 0 <= j < i && Named(attributes[j], name) {
      k := Earliest(attributes, name, j);
    }
  }

  lemma ObservableIff(attributes: seq<Attribute>)
    ensures Observable(attributes) <==> exists i :: 0 <= i < |attributes| && Named(attributes[i], "obs")
  {
    hide Named, First;
    FirstAt(attributes, "obs");
  }

  /** Resource types and interfaces: the words listed by the first attribute of the name, and none without it. */
  lemma WordsRead(attributes: seq<Attribute>, name: string, i: nat, words: seq<string>)
    ensures && i < |attributes| && Named(attributes[i], name) && (forall j :: 0 <= j < i ==> !Named(attributes[j], name))
            && attributes[i].value.Some? && Listed(attributes[i].value.value.raw, words) ==>
              WordsOf(attributes, name) == words
    ensures (forall j :: 0 <= j < |attributes| ==> !Named(attributes[j], name)) ==> WordsOf(attributes, name) == []
  {
    hide Named, Listed, First, Words;
    FirstAt(attributes, name);
    if i < |attributes| && attributes[i].value.Some? {
      ListedIff(attributes[i].value.value.raw, words);
    }
  }
}
