/** The reader of JSON texts reads every rendering as the value that was rendered. */
module JsonParser {
  import opened Common
  import opened Json
  import opened JsonGrammar

  // ----------------------------------------------------- what is to be read

  /** The value that a reader sees: the same one, with its texts in UTF-16 units if they
      were escaped. */
  function SeenValue(v: Value, ascii: bool): Value {
    match v
    case Str(text) => Str(Seen(text, ascii))
    case Arr(items) => Arr(SeenItems(items, ascii))
    case Obj(fields) => Obj(SeenFields(fields, ascii))
    case _ => v
  }

  function SeenItems(items: seq<Value>, ascii: bool): seq<Value> {
    if items == [] then [] else [SeenValue(items[0], ascii)] + SeenItems(items[1..], ascii)
  }

  function SeenFields(fields: seq<(Text, Value)>, ascii: bool): seq<(Text, Value)> {
    if fields == [] then []
    else [SeenField(fields[0], ascii)] + SeenFields(fields[1..], ascii)
  }

  function SeenField(f: (Text, Value), ascii: bool): (Text, Value) {
    (Seen(f.0, ascii), SeenValue(f.1, ascii))
  }

  predicate NumbersValid(v: Value) {
    match v
    case Num(literal) => IsNumber(literal)
    case Arr(items) => forall x :: x in items ==> NumbersValid(x)
    case Obj(fields) => forall f :: f in fields ==> NumbersValid(f.1)
    case _ => true
  }

  // ----------------------------------------------------------------- numbers

  predicate AllInNumber(t: Text) {
    forall i :: 0 <= i < |t| ==> InNumber(t[i])
  }

  lemma AllInNumberConcat(a: Text, b: Text)
    requires AllInNumber(a) && AllInNumber(b)
    ensures AllInNumber(a + b)
  {
  }

  lemma {:induction false} DigitsInNumber(t: Text)
    ensures AllInNumber(t[..DigitCount(t)])
  {
    if t != [] && IsDigit(t[0]) {
      DigitsInNumber(t[1..]);
      AllInNumberConcat([t[0]], t[1..][..DigitCount(t[1..])]);
      assert t[..DigitCount(t)] == [t[0]] + t[1..][..DigitCount(t[1..])];
    }
  }

  lemma ExponentInNumber(t: Text)
    requires IsExponent(t)
    ensures AllInNumber(t)
  {
    if t != [] {
      var k := if |t| > 1 && (t[1] == 43 || t[1] == 45) then 2 else 1;
      DigitsInNumber(t[k..]);
      assert t[k..][..DigitCount(t[k..])] == t[k..];
      PartsInNumber(t, k);
    }
  }

  lemma FractionInNumber(t: Text)
    requires IsFraction(t)
    ensures AllInNumber(t)
  {
    if t != [] && t[0] == 46 {
      var u := t[1..];
      var n := DigitCount(u);
      DigitsInNumber(u);
      assert t[1 + n..] == u[n..];
      ExponentInNumber(u[n..]);
      AllInNumberConcat(u[..n], u[n..]);
      AllInNumberConcat([t[0]], u[..n] + u[n..]);
      assert t == [t[0]] + (u[..n] + u[n..]);
    } else {
      ExponentInNumber(t);
    }
  }

  lemma UnsignedInNumber(u: Text)
    requires IsFraction(u[DigitCount(u)..])
    ensures AllInNumber(u)
  {
    var n := DigitCount(u);
    DigitsInNumber(u);
    FractionInNumber(u[n..]);
    PartsInNumber(u, n);
  }

  lemma PartsInNumber(u: Text, n: nat)
    requires n <= |u| && AllInNumber(u[..n]) && AllInNumber(u[n..])
    ensures AllInNumber(u)
  {
    forall i | 0 <= i < |u| ensures InNumber(u[i]) {
      if i < n {
        assert u[i] == u[..n][i];
      } else {
        assert u[i] == u[n..][i - n];
      }
    }
  }

  lemma NumberChars(t: Text)
    requires IsNumber(t)
    ensures t != [] && (IsDigit(t[0]) || t[0] == 45) && AllInNumber(t)
  {
    if t != [] && t[0] == 45 {
      UnsignedInNumber(t[1..]);
      PartsInNumber(t, 1);
    } else {
      UnsignedInNumber(t);
    }
  }

  /** No character of a number follows. */
  predicate Stops(rest: Text) {
    rest == [] || !InNumber(rest[0])
  }

  lemma {:induction false} NumberEnds(t: Text, rest: Text)
    requires Stops(rest) && AllInNumber(t)
    ensures NumberLength(t + rest) == |t|
  {
    if t == [] {
      assert t + rest == rest;
    } else {
      assert (t + rest)[1..] == t[1..] + rest;
      NumberEnds(t[1..], rest);
    }
  }

  // -------------------------------------------------------------- renderings

  /** What starts here is a value, not white space or the end of a container. */
  predicate Opens(t: Text) {
    t != [] && !IsSpace(t[0]) && t[0] != 93 && t[0] != 125
  }

  lemma RenderOpens(v: Value, ascii: bool)
    requires NumbersValid(v)
    ensures Opens(Render(v, ascii))
  {
    AsciiWords();
    match v
    case Num(literal) => NumberChars(literal);
    case _ =>
  }

  lemma ReadNumber(literal: Text, rest: Text)
    requires IsNumber(literal) && Stops(rest)
    ensures ParseValue(literal + rest) == Parsed(Num(literal), rest)
  {
    NumberChars(literal);
    NumberEnds(literal, rest);
    var t := literal + rest;
    assert t[..|literal|] == literal && t[|literal|..] == rest;
  }

  lemma ReadWord(v: Value, ascii: bool, rest: Text)
    requires v.Null? || v.Bool?
    ensures ParseValue(Render(v, ascii) + rest) == Parsed(v, rest)
  {
    AsciiWords();
    var w := Render(v, ascii);
    assert (w + rest)[..|w|] == w && (w + rest)[|w|..] == rest;
  }

  lemma ReadQuoted(s: Text, ascii: bool, rest: Text)
    ensures (Quote(s, ascii) + rest)[0] == 34
    ensures ScanString((Quote(s, ascii) + rest)[1..]) == Scanned(Seen(s, ascii), rest)
  {
    QuoteText(s, ascii, rest);
    ScanEscaped(s, ascii, rest);
  }

  lemma QuoteText(s: Text, ascii: bool, rest: Text)
    ensures (Quote(s, ascii) + rest)[1..] == Escape(s, ascii) + [QUOTE] + rest
  {
  }

  lemma ReadText(s: Text, ascii: bool, rest: Text)
    ensures ParseValue(Quote(s, ascii) + rest) == Parsed(Str(Seen(s, ascii)), rest)
  {
    ReadQuoted(s, ascii, rest);
  }

  // ------------------------------------------------------------ parser steps

  lemma EmptyContainers(rest: Text)
    ensures ParseValue([91] + ([93] + rest)) == Parsed(Arr([]), rest)
    ensures ParseValue([123] + ([125] + rest)) == Parsed(Obj([]), rest)
  {
    assert ([91] + ([93] + rest))[1..] == [93] + rest && ([93] + rest)[1..] == rest;
    assert ([123] + ([125] + rest))[1..] == [125] + rest && ([125] + rest)[1..] == rest;
  }

  lemma ArrayOf(body: Text, items: seq<Value>, rest: Text)
    requires Opens(body) && ParseItems(body) == ParsedItems(items, rest)
    ensures ParseValue([91] + body) == Parsed(Arr(items), rest)
  {
    assert ([91] + body)[1..] == body;
  }

  lemma ObjectOf(body: Text, fields: seq<(Text, Value)>, rest: Text)
    requires Opens(body) && ParseFields(body) == ParsedFields(fields, rest)
    ensures ParseValue([123] + body) == Parsed(Obj(fields), rest)
  {
    assert ([123] + body)[1..] == body;
  }

  lemma SpaceBefore(t: Text)
    requires Opens(t)
    ensures SkipSpace([32] + t) == t && SkipSpace(t) == t
  {
    assert ([32] + t)[1..] == t;
  }

  lemma LastItem(t: Text, v: Value, rest: Text)
    requires ParseValue(t) == Parsed(v, [93] + rest)
    ensures ParseItems(t) == ParsedItems([v], rest)
  {
    assert ([93] + rest)[1..] == rest;
  }

  lemma NextItem(t: Text, v: Value, more: Text, items: seq<Value>, rest: Text)
    requires ParseValue(t) == Parsed(v, [44, 32] + more) && Opens(more)
    requires ParseItems(more) == ParsedItems(items, rest)
    ensures ParseItems(t) == ParsedItems([v] + items, rest)
  {
    AfterComma(more);
    assert AfterItem(v, [44, 32] + more) == ParsedItems([v] + items, rest);
  }

  lemma AfterComma(more: Text)
    requires Opens(more)
    ensures SkipSpace(([44, 32] + more)[1..]) == more
  {
    assert ([44, 32] + more)[1..] == [32] + more;
    SpaceBefore(more);
  }

  lemma MemberValue(t: Text, name: Text, value: Text)
    requires t != [] && t[0] == 34 && ScanString(t[1..]) == Scanned(name, [58, 32] + value) && Opens(value)
    ensures ParseFields(t) == ParseMember(name, value)
  {
    assert ([58, 32] + value)[1..] == [32] + value;
    SpaceBefore(value);
  }

  lemma LastMember(name: Text, t: Text, v: Value, rest: Text)
    requires ParseValue(t) == Parsed(v, [125] + rest)
    ensures ParseMember(name, t) == ParsedFields([(name, v)], rest)
  {
    assert ([125] + rest)[1..] == rest;
  }

  lemma NextMember(name: Text, t: Text, v: Value, more: Text, fields: seq<(Text, Value)>, rest: Text)
    requires ParseValue(t) == Parsed(v, [44, 32] + more) && Opens(more)
    requires ParseFields(more) == ParsedFields(fields, rest)
    ensures ParseMember(name, t) == ParsedFields([(name, v)] + fields, rest)
  {
    AfterComma(more);
    assert AfterMember((name, v), [44, 32] + more) == ParsedFields([(name, v)] + fields, rest);
  }

  // ---------------------------------------------------------- rendered texts

  lemma ItemsText(items: seq<Value>, ascii: bool, rest: Text)
    requires items != []
    ensures RenderItems(items, ascii) + [93] + rest == Render(items[0], ascii)
      + (if |items| == 1 then [93] + rest else [44, 32] + (RenderItems(items[1..], ascii) + [93] + rest))
  {
    AsciiWords();
    ItemsUnfold(items, ascii);
  }

  lemma Regrouped(a: Text, b: Text, c: Text)
    ensures a + b + c == a + (b + c)
  {
  }

  lemma ItemsUnfold(items: seq<Value>, ascii: bool)
    requires items != []
    ensures RenderItems(items, ascii) == Render(items[0], ascii)
      + (if |items| == 1 then [] else Ascii(", ") + RenderItems(items[1..], ascii))
  {
    if |items| > 1 {
      Regrouped(Render(items[0], ascii), Ascii(", "), RenderItems(items[1..], ascii));
    }
  }

  lemma ItemsOpen(items: seq<Value>, ascii: bool, rest: Text)
    requires items != [] && NumbersValid(items[0])
    ensures Opens(RenderItems(items, ascii) + [93] + rest)
  {
    RenderOpens(items[0], ascii);
    ItemsText(items, ascii, rest);
  }

  lemma FieldsUnfold(fields: seq<(Text, Value)>, ascii: bool)
    requires fields != []
    ensures RenderFields(fields, ascii) == RenderField(fields[0], ascii)
      + (if |fields| == 1 then [] else Ascii(", ") + RenderFields(fields[1..], ascii))
  {
    if |fields| > 1 {
      Regrouped(RenderField(fields[0], ascii), Ascii(", "), RenderFields(fields[1..], ascii));
    }
  }

  lemma FieldsText(fields: seq<(Text, Value)>, ascii: bool, rest: Text)
    requires fields != []
    ensures RenderFields(fields, ascii) + [125] + rest == RenderField(fields[0], ascii)
      + (if |fields| == 1 then [125] + rest else [44, 32] + (RenderFields(fields[1..], ascii) + [125] + rest))
  {
    AsciiWords();
    FieldsUnfold(fields, ascii);
  }

  lemma FieldText(f: (Text, Value), ascii: bool, rest: Text)
    ensures RenderField(f, ascii) + rest == Quote(f.0, ascii) + ([58, 32] + (Render(f.1, ascii) + rest))
  {
    AsciiWords();
  }

  lemma FieldsOpen(fields: seq<(Text, Value)>, ascii: bool, rest: Text)
    requires fields != []
    ensures Opens(RenderFields(fields, ascii) + [125] + rest)
  {
    FieldsText(fields, ascii, rest);
    var after := if |fields| == 1 then [125] + rest else [44, 32] + (RenderFields(fields[1..], ascii) + [125] + rest);
    FieldText(fields[0], ascii, after);
  }

  lemma ContainerText(items: seq<Value>, fields: seq<(Text, Value)>, ascii: bool, rest: Text)
    ensures Render(Arr(items), ascii) + rest == [91] + (RenderItems(items, ascii) + [93] + rest)
    ensures Render(Obj(fields), ascii) + rest == [123] + (RenderFields(fields, ascii) + [125] + rest)
  {
  }

  // ------------------------------------------------------- reading renderings

  /** The reader undoes the renderer, with either setting of `ensure_ascii`. */
  lemma {:induction false} ReadRendered(v: Value, ascii: bool, rest: Text)
    requires NumbersValid(v) && Stops(rest)
    ensures ParseValue(Render(v, ascii) + rest) == Parsed(SeenValue(v, ascii), rest)
    decreases v, 1
  {
    match v
    case Num(literal) => ReadNumber(literal, rest);
    case Str(text) => ReadText(text, ascii, rest);
    case Arr(items) =>
      if items != [] {
        ReadItems(items, ascii, rest);
      }
      ReadArray(items, ascii, rest);
    case Obj(fields) =>
      if fields != [] {
        ReadFields(fields, ascii, rest);
      }
      ReadObject(fields, ascii, rest);
    case _ => ReadWord(v, ascii, rest);
  }

  lemma ReadArray(items: seq<Value>, ascii: bool, rest: Text)
    requires items != [] ==> NumbersValid(items[0])
    requires items != [] ==>
      ParseItems(RenderItems(items, ascii) + [93] + rest) == ParsedItems(SeenItems(items, ascii), rest)
    ensures ParseValue(Render(Arr(items), ascii) + rest) == Parsed(Arr(SeenItems(items, ascii)), rest)
  {
    ContainerText(items, [], ascii, rest);
    if items == [] {
      EmptyContainers(rest);
      assert RenderItems(items, ascii) + [93] + rest == [93] + rest;
    } else {
      ItemsOpen(items, ascii, rest);
      ArrayOf(RenderItems(items, ascii) + [93] + rest, SeenItems(items, ascii), rest);
    }
  }

  lemma {:induction false} ReadItems(items: seq<Value>, ascii: bool, rest: Text)
    requires items != [] && forall x :: x in items ==> NumbersValid(x)
    ensures ParseItems(RenderItems(items, ascii) + [93] + rest) == ParsedItems(SeenItems(items, ascii), rest)
    decreases items, 0
  {
    var t := RenderItems(items, ascii) + [93] + rest;
    ItemsText(items, ascii, rest);
    if |items| == 1 {
      ReadRendered(items[0], ascii, [93] + rest);
      LastItem(t, SeenValue(items[0], ascii), rest);
    } else {
      var more := RenderItems(items[1..], ascii) + [93] + rest;
      ReadRendered(items[0], ascii, [44, 32] + more);
      ReadItems(items[1..], ascii, rest);
      ItemsOpen(items[1..], ascii, rest);
      NextItem(t, SeenValue(items[0], ascii), more, SeenItems(items[1..], ascii), rest);
    }
  }

  lemma ReadObject(fields: seq<(Text, Value)>, ascii: bool, rest: Text)
    requires fields != [] ==>
      ParseFields(RenderFields(fields, ascii) + [125] + rest) == ParsedFields(SeenFields(fields, ascii), rest)
    ensures ParseValue(Render(Obj(fields), ascii) + rest) == Parsed(Obj(SeenFields(fields, ascii)), rest)
  {
    ContainerText([], fields, ascii, rest);
    if fields == [] {
      EmptyContainers(rest);
      assert RenderFields(fields, ascii) + [125] + rest == [125] + rest;
    } else {
      FieldsOpen(fields, ascii, rest);
      ObjectOf(RenderFields(fields, ascii) + [125] + rest, SeenFields(fields, ascii), rest);
    }
  }

  /** One rendered member is read up to its value, and the value is read. */
  lemma {:induction false} ReadField(f: (Text, Value), ascii: bool, rest: Text)
    requires NumbersValid(f.1) && Stops(rest)
    ensures ParseFields(RenderField(f, ascii) + rest) == ParseMember(Seen(f.0, ascii), Render(f.1, ascii) + rest)
    ensures ParseValue(Render(f.1, ascii) + rest) == Parsed(SeenValue(f.1, ascii), rest)
    decreases f, 2
  {
    ReadRendered(f.1, ascii, rest);
    var value := Render(f.1, ascii) + rest;
    FieldText(f, ascii, rest);
    ReadQuoted(f.0, ascii, [58, 32] + value);
    RenderOpens(f.1, ascii);
    MemberValue(RenderField(f, ascii) + rest, Seen(f.0, ascii), value);
  }

  lemma {:induction false} ReadFields(fields: seq<(Text, Value)>, ascii: bool, rest: Text)
    requires fields != [] && forall f :: f in fields ==> NumbersValid(f.1)
    ensures ParseFields(RenderFields(fields, ascii) + [125] + rest) == ParsedFields(SeenFields(fields, ascii), rest)
    decreases fields, 0
  {
    var f := fields[0];
    var name, v := Seen(f.0, ascii), SeenValue(f.1, ascii);
    FieldsText(fields, ascii, rest);
    if |fields| == 1 {
      ReadField(f, ascii, [125] + rest);
      LastMember(name, Render(f.1, ascii) + ([125] + rest), v, rest);
    } else {
      var more := RenderFields(fields[1..], ascii) + [125] + rest;
      ReadField(f, ascii, [44, 32] + more);
      ReadFields(fields[1..], ascii, rest);
      FieldsOpen(fields[1..], ascii, rest);
      NextMember(name, Render(f.1, ascii) + ([44, 32] + more), v, more, SeenFields(fields[1..], ascii), rest);
    }
  }

  /** Every rendering of a value with valid numbers is a JSON text, and it reads back as
      that value. */
  lemma RenderedReadsBack(v: Value, ascii: bool)
    requires NumbersValid(v)
    ensures ParseDocument(Render(v, ascii)) == Some(SeenValue(v, ascii))
  {
    var t := Render(v, ascii);
    RenderOpens(v, ascii);
    SpaceBefore(t);
    assert t + [] == t;
    ReadRendered(v, ascii, []);
  }

  /** Without escaping of everything beyond ASCII a value reads back as it is. */
  lemma {:induction false} SeenPlainly(v: Value)
    ensures SeenValue(v, false) == v
    decreases v, 1
  {
    match v
    case Arr(items) => SeenItemsPlainly(items);
    case Obj(fields) => SeenFieldsPlainly(fields);
    case _ =>
  }

  lemma {:induction false} SeenItemsPlainly(items: seq<Value>)
    ensures SeenItems(items, false) == items
    decreases items, 0
  {
    if items != [] {
      SeenPlainly(items[0]);
      SeenItemsPlainly(items[1..]);
      assert items == [items[0]] + items[1..];
    }
  }

  lemma {:induction false} SeenFieldPlainly(f: (Text, Value))
    ensures SeenField(f, false) == f
    decreases f, 2
  {
    SeenPlainly(f.1);
  }

  lemma {:induction false} SeenFieldsPlainly(fields: seq<(Text, Value)>)
    ensures SeenFields(fields, false) == fields
    decreases fields, 0
  {
    if fields != [] {
      SeenFieldPlainly(fields[0]);
      SeenFieldsPlainly(fields[1..]);
      assert fields == [fields[0]] + fields[1..];
    }
  }
}
