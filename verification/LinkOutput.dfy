/**
 The output cursor and the writer methods. A counting pass runs the same writer without bytes, so
 the length it finds is the length the second pass writes, and a refusal leaves every byte alone.
 */
module LinkOutput {
  import opened Common
  import opened Strings
  import opened LinkSyntax
  import opened LinkGrammar
  import opened LinkWriter
  import Seqs
  import Utf8

  /** UTF-8 length of a text. */
  function Size(text: string): nat {
    |Utf8.Encode(text)|
  }

  lemma SizeGrows(a: string, b: string)
    ensures Utf8.Encode(a + b) == Utf8.Encode(a) + Utf8.Encode(b)
    ensures Size(a) <= Size(a + b) == Size(a) + Size(b)
  {
    Utf8.EncodeConcat(a, b);
  }

  /** A slice `bytes[from..to]` being filled, or a counter when `bytes` is null. */
  class Output {
    const bytes: array?<Byte>
    const from: nat
    const to: nat
    var len: nat
    ghost var text: string

    ghost predicate Valid()
      reads this, bytes
    {
      && len == Size(text) <= Limit()
      && (bytes != null ==> from <= to <= bytes.Length && bytes[from..from + len] == Utf8.Encode(text))
    }

    /** The bytes this output can take. */
    ghost function Limit(): int {
      if bytes == null then USIZE_MAX else Min(USIZE_MAX, to - from)
    }

    constructor (bytes: array?<Byte>, from: nat, to: nat)
      requires bytes != null ==> from <= to <= bytes.Length
      ensures Valid() && text == "" && len == 0
      ensures this.bytes == bytes && this.from == from && this.to == to
    {
      this.bytes, this.from, this.to := bytes, from, to;
      len, text := 0, "";
    }

    /** Nothing outside the freshly written stretch has changed. */
    twostate predicate Framed()
      reads this, bytes
    {
      && old(len) <= len
      && (bytes != null ==> forall i :: 0 <= i < bytes.Length && !(from + old(len) <= i < from + len) ==>
                              bytes[i] == old(bytes[i]))
    }

    method WriteStr(s: string) returns (ok: bool)
      requires Valid()
      modifies this, bytes
      ensures Valid() && Framed()
      ensures ok <==> Size(old(text) + s) <= Limit()
      ensures text == if ok then old(text) + s else old(text)
    {
      hide Utf8.Encode;
      SizeGrows(text, s);
      var encoded := Utf8.Encode(s);
      var end := len + |encoded|;
      if end > USIZE_MAX { return false; }
      if bytes != null {
        if from + end > to { return false; }
        Copy(bytes, from + len, encoded);
        Glue(bytes[..], from, len, old(bytes[from..from + len]), encoded);
      }
      len, text := end, text + s;
      return true;
    }
  }

  /** Two adjacent stretches. */
  lemma Glue(buffer: seq<Byte>, from: nat, len: nat, first: seq<Byte>, second: seq<Byte>)
    requires from + len + |second| <= |buffer| && |first| == len
    requires buffer[from..from + len] == first && buffer[from + len..from + len + |second|] == second
    ensures buffer[from..from + len + |second|] == first + second
  {
  }

  /** `copy_from_slice`. */
  method Copy(buffer: array<Byte>, at: nat, data: seq<Byte>)
    requires at + |data| <= buffer.Length
    modifies buffer
    ensures buffer[at..at + |data|] == data
    ensures forall k :: 0 <= k < buffer.Length && !(at <= k < at + |data|) ==> buffer[k] == old(buffer[k])
  {
    var i := 0;
    while i < |data|
      invariant 0 <= i <= |data|
      invariant forall k :: 0 <= k < i ==> buffer[at + k] == data[k]
      invariant forall k :: 0 <= k < buffer.Length && !(at <= k < at + i) ==> buffer[k] == old(buffer[k])
    {
      buffer[at + i] := data[i];
      i := i + 1;
    }
  }

  /** The contract every writer step shares: it appends `s` exactly when `s` fits. */
  twostate predicate Appended(out: Output, s: string, ok: bool)
    reads out, out.bytes
  {
    && out.Valid() && out.Framed()
    && (ok <==> Size(old(out.text) + s) <= out.Limit())
    && (ok ==> out.text == old(out.text) + s)
  }

  lemma Room(out: Output)
    requires out.Valid()
    ensures Size(out.text) <= out.Limit()
  {
  }

  /** A step that overflows while writing a prefix of `all` proves that `all` does not fit. */
  lemma Overflow(start: string, done: string, step: string, all: string)
    requires done + step <= all
    ensures start + done + step == start + (done + step)
    ensures Size(start + done + step) <= Size(start + all)
  {
    hide Size, Utf8.Encode;
    Seqs.Assoc(start, done, step);
    var more := all[|done + step|..];
    assert all == done + step + more;
    Seqs.Assoc(start, done + step, more);
    SizeGrows(start + (done + step), more);
  }

  /** One character as `quoted` writes it. */
  function EscapeChar(c: char): string {
    if c == '"' || c == '\\' then "\\" + [c] else [c]
  }

  lemma {:induction false} EscapeConcat(a: string, b: string)
    ensures Escape(a + b) == Escape(a) + Escape(b)
    decreases |a|
  {
    if a == "" {
      assert a + b == b;
    } else {
      EscapeConcat(a[1..], b);
      Seqs.DropCat(a, b, 1);
      Seqs.Assoc(EscapeChar(a[0]), Escape(a[1..]), Escape(b));
      assert Escape(a) == EscapeChar(a[0]) + Escape(a[1..]);
      assert Escape(a + b) == EscapeChar(a[0]) + Escape(a[1..] + b);
    }
  }

  lemma EscapeOne(c: char)
    ensures Escape([c]) == EscapeChar(c)
  {
    assert [c][1..] == "";
    assert EscapeChar(c) + "" == EscapeChar(c);
  }

  /** One more character of the escaped text, in terms of what is already out. */
  lemma EscapeStep(start: string, value: string, i: nat)
    requires i < |value|
    ensures start + Escape(value[..i]) + EscapeChar(value[i]) == start + Escape(value[..i + 1])
    ensures Size(start + Escape(value[..i + 1])) <= Size(start + Escape(value))
  {
    hide Escape, EscapeChar, Size;
    Seqs.TakeNext(value, i);
    EscapeConcat(value[..i], [value[i]]);
    EscapeOne(value[i]);
    Seqs.Assoc(start, Escape(value[..i]), EscapeChar(value[i]));
    Seqs.SplitAt(value, i + 1);
    EscapeConcat(value[..i + 1], value[i + 1..]);
    Seqs.Assoc(start, Escape(value[..i + 1]), Escape(value[i + 1..]));
    SizeGrows(start + Escape(value[..i + 1]), Escape(value[i + 1..]));
  }

  lemma EscapeEnds(start: string, value: string)
    ensures start + Escape(value[..0]) == start
    ensures value[..|value|] == value
  {
    assert value[..0] == "";
    assert start + "" == start;
  }

  /** The character loop of `quoted`. */
  method WriteEscaped(out: Output, value: string) returns (ok: bool)
    requires out.Valid()
    modifies out, out.bytes
    ensures Appended(out, Escape(value), ok)
  {
    hide Utf8.Encode, Size, Escape, EscapeChar, Output.Valid, Output.Limit;
    ghost var start := out.text;
    EscapeEnds(start, value);
    Room(out);
    ok := true;
    var i := 0;
    while i < |value|
      invariant 0 <= i <= |value|
      invariant out.Valid() && out.Framed()
      invariant out.text == start + Escape(value[..i]) && Size(out.text) <= out.Limit()
      invariant ok
    {
      EscapeStep(start, value, i);
      ok := out.WriteStr(EscapeChar(value[i]));
      if !ok { return; }
      i := i + 1;
    }
  }

  lemma Two(start: string, a: string, b: string)
    ensures start + a + b == start + (a + b)
    ensures Size(start + a) <= Size(start + (a + b))
  {
    hide Size;
    Seqs.Assoc(start, a, b);
    SizeGrows(start + a, b);
  }

  /** Three writes in a row: each is a prefix of the whole. */
  lemma Three(start: string, a: string, b: string, c: string)
    ensures start + a + b + c == start + (a + b + c)
    ensures Size(start + a) <= Size(start + (a + b + c))
    ensures Size(start + a + b) <= Size(start + (a + b + c))
  {
    hide Size;
    Seqs.Assoc(start, a, b);
    Seqs.Assoc(start, a + b, c);
    SizeGrows(start + a, b);
    SizeGrows(start + a + b, c);
  }

  /** `quoted`. */
  method WriteQuoted(out: Output, value: string) returns (ok: bool)
    requires out.Valid()
    modifies out, out.bytes
    ensures Appended(out, "\"" + Escape(value) + "\"", ok)
  {
    hide Utf8.Encode, Size, Escape, Output.Valid, Output.Limit;
    Three(out.text, "\"", Escape(value), "\"");
    ok := out.WriteStr("\"");
    if !ok { return; }
    ok := WriteEscaped(out, value);
    if !ok { return; }
    ok := out.WriteStr("\"");
  }

  // The pieces of `write`.

  function Concat(parts: seq<string>): string {
    if parts == [] then "" else parts[0] + Concat(parts[1..])
  }

  lemma ConcatStep(start: string, parts: seq<string>)
    requires parts != []
    ensures start + parts[0] + Concat(parts[1..]) == start + Concat(parts)
    ensures Size(start + parts[0]) <= Size(start + Concat(parts))
  {
    hide Size;
    Seqs.Assoc(start, parts[0], Concat(parts[1..]));
    SizeGrows(start + parts[0], Concat(parts[1..]));
  }

  lemma ConcatNone(start: string)
    ensures start + Concat([]) == start
  {
    assert start + "" == start;
  }

  /** What `write!` does with a format string: its pieces one after the other. */
  method WriteParts(out: Output, parts: seq<string>) returns (ok: bool)
    requires out.Valid()
    modifies out, out.bytes
    ensures Appended(out, Concat(parts), ok)
    decreases |parts|
  {
    hide Utf8.Encode, Size, Concat, Output.Valid, Output.Limit;
    if parts == [] {
      Room(out);
      ConcatNone(out.text);
      return true;
    }
    ConcatStep(out.text, parts);
    ok := out.WriteStr(parts[0]);
    if ok {
      ok := WriteParts(out, parts[1..]);
    }
  }

  lemma RenderQuoted(name: string, raw: string)
    ensures RenderAttributes([Attribute(name, Some(Text(raw, true)))]) ==
            Concat([";", name, "="]) + ("\"" + raw + "\"")
  {
    var a := Attribute(name, Some(Text(raw, true)));
    assert [a][1..] == [];
    Concat3(";", name, "=");
    assert ";" + (name + ("=\"" + raw + "\"")) + "" == ";" + name + "=" + ("\"" + raw + "\"");
  }

  lemma Concat1(a: string)
    ensures Concat([a]) == a
  {
    assert [a][1..] == [];
    assert a + "" == a;
  }

  lemma Concat2(a: string, b: string)
    ensures Concat([a, b]) == a + b
  {
    assert [a, b][1..] == [b];
    Concat1(b);
  }

  lemma Concat3(a: string, b: string, c: string)
    ensures Concat([a, b, c]) == a + b + c
  {
    assert [a, b, c][1..] == [b, c];
    Concat2(b, c);
    Seqs.Assoc(a, b, c);
  }

  /** `;name="value"`, or nothing. */
  method WriteNamed(out: Output, name: string, value: Option<string>) returns (ok: bool)
    requires out.Valid()
    modifies out, out.bytes
    ensures Appended(out, RenderAttributes(Named1(name, value)), ok)
  {
    hide Utf8.Encode, Size, Output.Valid, Output.Limit, Escape, Concat, RenderAttributes;
    ghost var start := out.text;
    if value.None? {
      RenderNone();
      assert start + "" == start;
      Room(out);
      return true;
    }
    RenderQuoted(name, Escape(value.value));
    Two(start, Concat([";", name, "="]), "\"" + Escape(value.value) + "\"");
    ok := WriteParts(out, [";", name, "="]);
    if !ok { return; }
    ok := WriteQuoted(out, value.value);
  }

  lemma RenderNone()
    ensures RenderAttributes([]) == ""
  {
  }

  lemma {:induction false} JoinPrefix(words: seq<string>, i: nat)
    requires 0 < i < |words|
    ensures Join(words[..i + 1], ' ') == Join(words[..i], ' ') + " " + words[i]
    ensures Join(words[..i + 1], ' ') <= Join(words, ' ')
    decreases i
  {
    var tail := words[1..];
    assert words[..i + 1][1..] == tail[..i];
    if i == 1 {
      assert tail[..1] == [words[1]] && words[..1] == [words[0]];
      JoinFirst(tail);
    } else {
      JoinPrefix(tail, i - 1);
      assert words[..i][1..] == tail[..i - 1];
      var done := Join(tail[..i - 1], ' ');
      assert words[0] + " " + (done + " " + words[i]) == words[0] + " " + done + " " + words[i];
    }
  }

  lemma JoinFirst(words: seq<string>)
    requires words != []
    ensures Join(words[..1], ' ') == words[0] <= Join(words, ' ')
  {
    assert words[..1] == [words[0]];
  }

  lemma RenderFormats(formats: seq<U16>)
    requires formats != []
    ensures RenderAttributes(FormatAttributes(formats)) == ";ct=\"" + FormatList(formats) + "\""
  {
    hide FormatList;
    assert FormatAttributes(formats)[1..] == [];
    var raw := FormatList(formats);
    assert ";" + ("ct" + ("=\"" + raw + "\"")) + "" == ";ct=\"" + raw + "\"";
  }

  /** The next format of the list, with its separator. */
  lemma ListStep(words: seq<string>, i: nat)
    requires i < |words|
    ensures var done := if i == 0 then "" else Join(words[..i], ' ');
            var parts := if i == 0 then [words[i]] else [" ", words[i]];
            done + Concat(parts) == Join(words[..i + 1], ' ') <= Join(words, ' ')
  {
    hide Join, Concat;
    if i == 0 {
      JoinFirst(words);
      Concat1(words[0]);
      assert "" + words[0] == words[0];
    } else {
      JoinPrefix(words, i);
      Concat2(" ", words[i]);
      Seqs.Assoc(Join(words[..i], ' '), " ", words[i]);
    }
  }

  ghost function ListTo(words: seq<string>, i: nat): string
    requires i <= |words|
  {
    if i == 0 then "" else Join(words[..i], ' ')
  }

  lemma ListOut(start: string, words: seq<string>, i: nat)
    requires i < |words|
    ensures var parts := if i == 0 then [words[i]] else [" ", words[i]];
            start + ListTo(words, i) + Concat(parts) == start + ListTo(words, i + 1)
    ensures Size(start + ListTo(words, i + 1)) <= Size(start + Join(words, ' '))
  {
    hide Join, Concat, Size;
    ListStep(words, i);
    var done := ListTo(words, i);
    var step := Concat(if i == 0 then [words[i]] else [" ", words[i]]);
    Overflow(start, done, step, Join(words, ' '));
  }

  lemma ListEnds(start: string, words: seq<string>)
    requires words != []
    ensures start + ListTo(words, 0) == start
    ensures ListTo(words, |words|) == Join(words, ' ')
  {
    assert start + "" == start;
    assert words[..|words|] == words;
  }

  /** The loop over the formats. */
  method WriteList(out: Output, formats: seq<U16>) returns (ok: bool)
    requires out.Valid() && formats != []
    modifies out, out.bytes
    ensures Appended(out, FormatList(formats), ok)
  {
    hide Utf8.Encode, Size, Join, Decimal, Concat, ListTo, Output.Valid, Output.Limit;
    ghost var start := out.text;
    ghost var words := Numbers(formats);
    ListEnds(start, words);
    Room(out);
    ok := true;
    var i := 0;
    while i < |formats|
      invariant 0 <= i <= |formats|
      invariant out.Valid() && out.Framed()
      invariant out.text == start + ListTo(words, i) && Size(out.text) <= out.Limit()
      invariant ok
    {
      ListOut(start, words, i);
      ok := WriteParts(out, if i == 0 then [Decimal(formats[i])] else [" ", Decimal(formats[i])]);
      if !ok { return; }
      i := i + 1;
    }
  }

  method WriteFormats(out: Output, formats: seq<U16>) returns (ok: bool)
    requires out.Valid()
    modifies out, out.bytes
    ensures Appended(out, RenderAttributes(FormatAttributes(formats)), ok)
  {
    hide Utf8.Encode, Size, FormatList, RenderAttributes, Output.Valid, Output.Limit;
    if formats == [] {
      RenderNone();
      assert out.text + "" == out.text;
      Room(out);
      return true;
    }
    RenderFormats(formats);
    Three(out.text, ";ct=\"", FormatList(formats), "\"");
    ok := out.WriteStr(";ct=\"");
    if !ok { return; }
    ok := WriteList(out, formats);
    if !ok { return; }
    ok := out.WriteStr("\"");
  }

  lemma RenderSize(size: U64)
    ensures RenderAttributes(SizeAttributes(Some(size))) == Concat([";sz=", Decimal(size)])
  {
    hide Decimal;
    var raw := Decimal(size);
    assert SizeAttributes(Some(size))[1..] == [];
    Concat2(";sz=", raw);
    assert ";" + ("sz" + ("=" + raw)) + "" == ";sz=" + raw;
  }

  lemma RenderObserve()
    ensures RenderAttributes(ObserveAttributes(true)) == ";obs"
  {
    assert ObserveAttributes(true)[1..] == [];
    assert ";" + ("obs" + "") + "" == ";obs";
  }

  method WriteSize(out: Output, size: Option<U64>) returns (ok: bool)
    requires out.Valid()
    modifies out, out.bytes
    ensures Appended(out, RenderAttributes(SizeAttributes(size)), ok)
  {
    hide Utf8.Encode, Size, Output.Valid, Output.Limit, RenderAttributes, Decimal, Concat;
    if size.None? {
      RenderNone();
      assert out.text + "" == out.text;
      Room(out);
      return true;
    }
    RenderSize(size.value);
    ok := WriteParts(out, [";sz=", Decimal(size.value)]);
  }

  method WriteObserve(out: Output, observable: bool) returns (ok: bool)
    requires out.Valid()
    modifies out, out.bytes
    ensures Appended(out, RenderAttributes(ObserveAttributes(observable)), ok)
  {
    hide Utf8.Encode, Size, Output.Valid, Output.Limit, RenderAttributes;
    if !observable {
      RenderNone();
      assert out.text + "" == out.text;
      Room(out);
      return true;
    }
    RenderObserve();
    ok := out.WriteStr(";obs");
  }

  lemma RenderFlag(name: string)
    ensures RenderAttributes([Attribute(name, None)]) == Concat([";", name])
  {
    assert [Attribute(name, None)][1..] == [];
    Concat2(";", name);
    assert ";" + (name + "") + "" == ";" + name;
  }

  lemma RenderExtension(e: Extension)
    ensures e.value.Some? ==>
              RenderAttributes([ExtensionAttribute(e)]) ==
              Concat([";", e.name]) + "=" + ("\"" + Escape(e.value.value) + "\"")
    ensures e.value.None? ==> RenderAttributes([ExtensionAttribute(e)]) == Concat([";", e.name])
  {
    hide Escape, Concat, RenderAttributes;
    Concat2(";", e.name);
    Concat3(";", e.name, "=");
    if e.value.Some? {
      RenderQuoted(e.name, Escape(e.value.value));
    } else {
      RenderFlag(e.name);
    }
  }

  method WriteExtension(out: Output, e: Extension) returns (ok: bool)
    requires out.Valid()
    modifies out, out.bytes
    ensures Appended(out, RenderAttributes([ExtensionAttribute(e)]), ok)
  {
    hide Utf8.Encode, Size, RenderAttributes, Escape, Concat, Output.Valid, Output.Limit;
    RenderExtension(e);
    if e.value.Some? {
      Three(out.text, Concat([";", e.name]), "=", "\"" + Escape(e.value.value) + "\"");
    }
    ok := WriteParts(out, [";", e.name]);
    if !ok || e.value.None? { return; }
    ok := out.WriteStr("=");
    if !ok { return; }
    ok := WriteQuoted(out, e.value.value);
  }

  lemma {:induction false} RenderConcat(a: seq<Attribute>, b: seq<Attribute>)
    ensures RenderAttributes(a + b) == RenderAttributes(a) + RenderAttributes(b)
    decreases |a|
  {
    hide RenderAttribute;
    if a == [] {
      assert a + b == b;
      assert "" + RenderAttributes(b) == RenderAttributes(b);
    } else {
      RenderConcat(a[1..], b);
      Seqs.DropCat(a, b, 1);
      Seqs.Assoc(";" + RenderAttribute(a[0]), RenderAttributes(a[1..]), RenderAttributes(b));
    }
  }

  lemma RenderStep(start: string, attributes: seq<Attribute>, i: nat)
    requires i < |attributes|
    ensures start + RenderAttributes(attributes[..i]) + RenderAttributes([attributes[i]]) ==
            start + RenderAttributes(attributes[..i + 1])
    ensures Size(start + RenderAttributes(attributes[..i + 1])) <= Size(start + RenderAttributes(attributes))
  {
    hide RenderAttributes, Size;
    Seqs.TakeNext(attributes, i);
    RenderConcat(attributes[..i], [attributes[i]]);
    Seqs.Assoc(start, RenderAttributes(attributes[..i]), RenderAttributes([attributes[i]]));
    Seqs.SplitAt(attributes, i + 1);
    RenderConcat(attributes[..i + 1], attributes[i + 1..]);
    Seqs.Assoc(start, RenderAttributes(attributes[..i + 1]), RenderAttributes(attributes[i + 1..]));
    SizeGrows(start + RenderAttributes(attributes[..i + 1]), RenderAttributes(attributes[i + 1..]));
  }

  lemma RenderEnds(start: string, attributes: seq<Attribute>)
    ensures start + RenderAttributes(attributes[..0]) == start
    ensures attributes[..|attributes|] == attributes
  {
    assert attributes[..0] == [];
    assert start + "" == start;
  }

  method WriteExtensions(out: Output, extensions: seq<Extension>) returns (ok: bool)
    requires out.Valid()
    modifies out, out.bytes
    ensures Appended(out, RenderAttributes(ExtensionAttributes(extensions)), ok)
  {
    hide Utf8.Encode, Size, RenderAttributes, ExtensionAttribute, Output.Valid, Output.Limit;
    ghost var start := out.text;
    ghost var attributes := ExtensionAttributes(extensions);
    RenderEnds(start, attributes);
    Room(out);
    ok := true;
    var i := 0;
    while i < |extensions|
      invariant 0 <= i <= |extensions|
      invariant out.Valid() && out.Framed()
      invariant out.text == start + RenderAttributes(attributes[..i]) && Size(out.text) <= out.Limit()
      invariant ok
    {
      RenderStep(start, attributes, i);
      ok := WriteExtension(out, extensions[i]);
      if !ok { return; }
      i := i + 1;
    }
  }

  /** The attributes of the first `k` of the six pieces. */
  ghost function Pieces(m: Metadata, k: nat): seq<Attribute>
    requires k <= 6
  {
    if k == 0 then [] else Pieces(m, k - 1) + Piece(m, k)
  }

  ghost function Piece(m: Metadata, k: nat): seq<Attribute>
    requires 1 <= k <= 6
  {
    match k
    case 1 => Named1("rt", m.resourceTypes)
    case 2 => Named1("if", m.interfaces)
    case 3 => FormatAttributes(m.contentFormats)
    case 4 => SizeAttributes(m.sizeEstimate)
    case 5 => ObserveAttributes(m.observable)
    case _ => ExtensionAttributes(m.extensions)
  }

  lemma PiecesDescribe(m: Metadata)
    ensures Pieces(m, 6) == Described(m)
  {
    hide Named1, FormatAttributes, SizeAttributes, ObserveAttributes, ExtensionAttributes;
    assert Pieces(m, 1) == Named1("rt", m.resourceTypes);
    assert Pieces(m, 2) == Pieces(m, 1) + Named1("if", m.interfaces);
    assert Pieces(m, 3) == Pieces(m, 2) + FormatAttributes(m.contentFormats);
    assert Pieces(m, 4) == Pieces(m, 3) + SizeAttributes(m.sizeEstimate);
    assert Pieces(m, 5) == Pieces(m, 4) + ObserveAttributes(m.observable);
  }

  lemma {:induction false} PiecesPrefix(m: Metadata, k: nat)
    requires k <= 6
    ensures RenderAttributes(Pieces(m, k)) <= RenderAttributes(Pieces(m, 6))
    decreases 6 - k
  {
    hide RenderAttributes, Piece;
    if k < 6 {
      PiecesPrefix(m, k + 1);
      PiecesNext(m, k);
    }
  }

  lemma PiecesNext(m: Metadata, k: nat)
    requires k < 6
    ensures RenderAttributes(Pieces(m, k + 1)) ==
            RenderAttributes(Pieces(m, k)) + RenderAttributes(Piece(m, k + 1))
  {
    RenderConcat(Pieces(m, k), Piece(m, k + 1));
  }

  /** Piece `k + 1` of `write`, after the first `k`. */
  lemma PieceFits(m: Metadata, k: nat, start: string)
    requires k < 6
    ensures var done := RenderAttributes(Pieces(m, k));
            var step := RenderAttributes(Piece(m, k + 1));
            && start + done + step == start + RenderAttributes(Pieces(m, k + 1))
            && Size(start + done + step) <= Size(start + RenderAttributes(Described(m)))
  {
    hide RenderAttributes, Size, Pieces, Piece, Described;
    PiecesDescribe(m);
    PiecesNext(m, k);
    PiecesPrefix(m, k + 1);
    Overflow(start, RenderAttributes(Pieces(m, k)), RenderAttributes(Piece(m, k + 1)), RenderAttributes(Described(m)));
  }

  /** The first half of `write`: relation types, interfaces and formats. */
  method WriteFirst(m: Metadata, out: Output) returns (ok: bool)
    requires out.Valid()
    modifies out, out.bytes
    ensures out.Valid() && out.Framed()
    ensures ok ==> out.text == old(out.text) + RenderAttributes(Pieces(m, 3))
    ensures !ok ==> Size(old(out.text) + RenderAttributes(Described(m))) > out.Limit()
  {
    hide RenderAttributes, Utf8.Encode, Size, Named1, FormatAttributes, Described, Pieces, Output.Valid, Output.Limit;
    ghost var start := out.text;
    PiecesNone(m, start);
    PieceFits(m, 0, start);
    ok := WriteNamed(out, "rt", m.resourceTypes);
    if !ok { return; }
    PieceFits(m, 1, start);
    ok := WriteNamed(out, "if", m.interfaces);
    if !ok { return; }
    PieceFits(m, 2, start);
    ok := WriteFormats(out, m.contentFormats);
  }

  /** The second half: size, observation hint and extensions. */
  method WriteSecond(m: Metadata, out: Output, ghost start: string) returns (ok: bool)
    requires out.Valid() && out.text == start + RenderAttributes(Pieces(m, 3))
    modifies out, out.bytes
    ensures out.Valid() && out.Framed()
    ensures ok ==> out.text == start + RenderAttributes(Pieces(m, 6))
    ensures ok ==> Size(start + RenderAttributes(Described(m))) <= out.Limit()
    ensures !ok ==> Size(start + RenderAttributes(Described(m))) > out.Limit()
  {
    hide RenderAttributes, Utf8.Encode, Size, SizeAttributes, ObserveAttributes, ExtensionAttributes, Described, Pieces,
      Output.Valid, Output.Limit;
    PieceFits(m, 3, start);
    ok := WriteSize(out, m.sizeEstimate);
    if !ok { return; }
    PieceFits(m, 4, start);
    ok := WriteObserve(out, m.observable);
    if !ok { return; }
    PieceFits(m, 5, start);
    PiecesDescribe(m);
    ok := WriteExtensions(out, m.extensions);
  }

  /** `Metadata::write`: the grammar's text of the described attributes. */
  method Write(m: Metadata, out: Output) returns (ok: bool)
    requires out.Valid()
    modifies out, out.bytes
    ensures Appended(out, RenderAttributes(Described(m)), ok)
  {
    hide RenderAttributes, Utf8.Encode, Size, Described, Pieces, Output.Valid, Output.Limit;
    ghost var start := out.text;
    PiecesDescribe(m);
    ok := WriteFirst(m, out);
    if ok {
      ok := WriteSecond(m, out, start);
    }
  }

  lemma PiecesNone(m: Metadata, start: string)
    ensures start + RenderAttributes(Pieces(m, 0)) == start
  {
    assert start + "" == start;
  }

  /** The bytes a descriptor needs. */
  function EncodedSize(m: Metadata): nat {
    Size(RenderAttributes(Described(m)))
  }

  /** The counting pass. */
  method EncodedLen(m: Metadata) returns (r: Result<nat, Error>)
    ensures r == (if Check(m).Some? then Err(Check(m).value)
                  else if EncodedSize(m) > USIZE_MAX then Err(OutputTooSmall)
                  else Ok(EncodedSize(m)))
  {
    hide RenderAttributes, Utf8.Encode, Described, Check;
    if Check(m).Some? { return Err(Check(m).value); }
    var out := new Output(null, 0, 0);
    assert "" + RenderAttributes(Described(m)) == RenderAttributes(Described(m));
    var ok := Write(m, out);
    if !ok { return Err(OutputTooSmall); }
    return Ok(out.len);
  }

  /** `write_into` on the slice `output[from..to]`: exact on success, untouched on refusal. */
  method WriteInto(m: Metadata, output: array<Byte>, from: nat, to: nat) returns (r: Result<nat, Error>)
    requires from <= to <= output.Length && output.Length <= USIZE_MAX
    modifies output
    ensures Check(m).Some? ==> r == Err(Check(m).value)
    ensures Check(m).None? ==> r == (if EncodedSize(m) <= to - from then Ok(EncodedSize(m)) else Err(OutputTooSmall))
    ensures r.Err? ==> output[..] == old(output[..])
    ensures r.Ok? ==> output[from..from + r.value] == Utf8.Encode(RenderAttributes(Described(m)))
    ensures r.Ok? ==> forall i :: 0 <= i < output.Length && !(from <= i < from + r.value) ==>
                        output[i] == old(output[i])
  {
    hide RenderAttributes, Utf8.Encode, Described, Check;
    r := EncodedLen(m);
    if r.Err? { return; }
    if to - from < r.value { return Err(OutputTooSmall); }
    var out := new Output(output, from, to);
    assert "" + RenderAttributes(Described(m)) == RenderAttributes(Described(m));
    var ok := Write(m, out);
    assert ok;
  }

  lemma {:induction false} UriCharsAscii(target: string)
    requires UriChars(target)
    ensures forall i :: 0 <= i < |target| ==> Utf8.IsAscii(target[i])
    decreases |target|
  {
    if target == "" {
    } else if target[0] == '%' {
      UriCharsAscii(target[3..]);
      assert forall i :: 3 <= i < |target| ==> target[i] == target[3..][i - 3];
    } else {
      UriCharsAscii(target[1..]);
      assert forall i :: 1 <= i < |target| ==> target[i] == target[1..][i - 1];
    }
  }

  lemma LinkSize(target: string, m: Metadata)
    requires UriChars(target)
    ensures Size(LinkText(target, m)) == EncodedSize(m) + |target| + 2
    ensures Concat(["<", target, ">"]) + RenderAttributes(Described(m)) == LinkText(target, m)
  {
    hide RenderAttributes, Described, UriChars, Utf8.Encode, Concat;
    UriCharsAscii(target);
    Concat3("<", target, ">");
    var head := "<" + target + ">";
    assert forall i :: 0 <= i < |head| ==> Utf8.IsAscii(head[i]);
    Utf8.EncodeAscii(head);
    SizeGrows(head, RenderAttributes(Described(m)));
  }

  /** `link_format::write_link`. */
  method WriteLink(target: string, m: Metadata, output: array<Byte>) returns (r: Result<nat, Error>)
    requires output.Length <= USIZE_MAX
    modifies output
    ensures !UriChars(target) ==> r == Err(Syntax)
    ensures UriChars(target) && Check(m).Some? ==> r == Err(Check(m).value)
    ensures UriChars(target) && Check(m).None? ==>
              r == (if Size(LinkText(target, m)) <= output.Length then Ok(Size(LinkText(target, m)))
                    else Err(OutputTooSmall))
    ensures r.Err? ==> output[..] == old(output[..])
    ensures r.Ok? ==> output[..r.value] == Utf8.Encode(LinkText(target, m))
    ensures r.Ok? ==> forall i :: r.value <= i < output.Length ==> output[i] == old(output[i])
  {
    hide RenderAttributes, Utf8.Encode, Described, Check, UriChars, LinkText, Concat;
    if !UriChars(target) { return Err(Syntax); }
    LinkSize(target, m);
    r := EncodedLen(m);
    if r.Err? { return; }
    var len := r.value + |target| + 2;
    if len > USIZE_MAX || output.Length < len { return Err(OutputTooSmall); }
    var out := new Output(output, 0, output.Length);
    ghost var head := Concat(["<", target, ">"]);
    ghost var tail := RenderAttributes(Described(m));
    SizeGrows(head, tail);
    assert "" + head == head;
    var ok := WriteParts(out, ["<", target, ">"]);
    assert ok;
    ok := Write(m, out);
    assert ok;
    assert output[0..len] == output[..len];
    return Ok(len);
  }
}
