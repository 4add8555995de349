/** JSON text as `json.dumps` writes it, over code points, and a decoder of strings after
    section 7 of RFC 8259. */
module Json {
  import opened Common

  /** Text is a sequence of code points; a Python string may hold lone surrogates. */
  type CodePoint = n: int | 0 <= n < 0x110000
  type Text = seq<CodePoint>

  const QUOTE: CodePoint := 34
  const BACKSLASH: CodePoint := 92
  const NEWLINE: CodePoint := 10

  /** A JSON value; a number is kept as its literal. */
  datatype Value =
    | Null
    | Bool(b: bool)
    | Num(literal: Text)
    | Str(text: Text)
    | Arr(items: seq<Value>)
    | Obj(fields: seq<(Text, Value)>)

  /** A text written in ASCII. */
  function Ascii(s: string): (t: Text)
    ensures |t| == |s|
    ensures forall i :: 0 <= i < |s| && s[i] as int < 0x110000 ==> t[i] == s[i] as int
  {
    seq(|s|, i requires 0 <= i < |s| => if s[i] as int < 0x110000 then s[i] as int else 0)
  }

  // ---------------------------------------------------------------- escaping

  function HexDigit(d: nat): CodePoint
    requires d < 16
  {
    if d < 10 then 48 + d else 87 + d
  }

  /** `\uXXXX`. */
  function UnicodeEscape(n: nat): Text
    requires n < 0x10000
  {
    [BACKSLASH, 117, HexDigit(n / 16 / 16 / 16), HexDigit(n / 16 / 16 % 16), HexDigit(n / 16 % 16), HexDigit(n % 16)]
  }

  /** One character of a JSON string; `ascii` is `ensure_ascii`. */
  function EscapeChar(c: CodePoint, ascii: bool): (t: Text)
    ensures |t| >= 1
  {
    if c == QUOTE then [BACKSLASH, QUOTE]
    else if c == BACKSLASH then [BACKSLASH, BACKSLASH]
    else if c == 8 then [BACKSLASH, 98]
    else if c == 9 then [BACKSLASH, 116]
    else if c == 10 then [BACKSLASH, 110]
    else if c == 12 then [BACKSLASH, 102]
    else if c == 13 then [BACKSLASH, 114]
    else if c < 32 then UnicodeEscape(c)
    else if c <= 126 || !ascii then [c]
    else if c < 0x10000 then UnicodeEscape(c)
    else UnicodeEscape(0xD800 + (c - 0x10000) / 0x400) + UnicodeEscape(0xDC00 + (c - 0x10000) % 0x400)
  }

  function Escape(s: Text, ascii: bool): (t: Text)
    ensures |t| >= |s|
  {
    if s == [] then [] else EscapeChar(s[0], ascii) + Escape(s[1..], ascii)
  }

  lemma {:induction false} EscapeConcat(a: Text, b: Text, ascii: bool)
    ensures Escape(a + b, ascii) == Escape(a, ascii) + Escape(b, ascii)
  {
    if a == [] {
      assert a + b == b;
    } else {
      assert (a + b)[1..] == a[1..] + b;
      EscapeConcat(a[1..], b, ascii);
    }
  }

  /** Escaping never shortens, so a longer prefix has a longer escaped form. */
  lemma EscapedPrefixGrows(s: Text, i: nat, j: nat, ascii: bool)
    requires i <= j <= |s|
    ensures |Escape(s[..j], ascii)| >= |Escape(s[..i], ascii)| + (j - i)
  {
    assert s[..j] == s[..i] + s[i..j];
    EscapeConcat(s[..i], s[i..j], ascii);
  }

  // --------------------------------------------------------------- rendering

  function Quote(s: Text, ascii: bool): Text {
    [QUOTE] + Escape(s, ascii) + [QUOTE]
  }

  /** `json.dumps(v, ensure_ascii=ascii)` with the default separators. */
  function Render(v: Value, ascii: bool): Text {
    match v
    case Null => Ascii("null")
    case Bool(b) => if b then Ascii("true") else Ascii("false")
    case Num(literal) => literal
    case Str(text) => Quote(text, ascii)
    case Arr(items) => [91] + RenderItems(items, ascii) + [93]
    case Obj(fields) => [123] + RenderFields(fields, ascii) + [125]
  }

  function RenderItems(items: seq<Value>, ascii: bool): Text {
    if items == [] then []
    else if |items| == 1 then Render(items[0], ascii)
    else Render(items[0], ascii) + Ascii(", ") + RenderItems(items[1..], ascii)
  }

  function RenderFields(fields: seq<(Text, Value)>, ascii: bool): Text {
    if fields == [] then []
    else if |fields| == 1 then RenderField(fields[0], ascii)
    else RenderField(fields[0], ascii) + Ascii(", ") + RenderFields(fields[1..], ascii)
  }

  function RenderField(f: (Text, Value), ascii: bool): Text {
    Quote(f.0, ascii) + Ascii(": ") + Render(f.1, ascii)
  }

  // ------------------------------------------------------------ ASCII output

  predicate Printable(t: Text) {
    forall c :: c in t ==> 32 <= c <= 126
  }

  lemma PrintablePrefix(t: Text, k: nat)
    requires Printable(t) && k <= |t|
    ensures Printable(t[..k])
  {
    forall c | c in t[..k] ensures c in t {}
  }

  predicate NumbersPrintable(v: Value) {
    match v
    case Num(literal) => Printable(literal)
    case Arr(items) => forall x :: x in items ==> NumbersPrintable(x)
    case Obj(fields) => forall f :: f in fields ==> NumbersPrintable(f.1)
    case _ => true
  }

  lemma EscapeCharPrintable(c: CodePoint)
    ensures Printable(EscapeChar(c, true))
  {
  }

  lemma PrintableConcat(a: Text, b: Text)
    requires Printable(a) && Printable(b)
    ensures Printable(a + b)
  {
  }

  lemma {:induction false} EscapePrintable(s: Text)
    ensures Printable(Escape(s, true))
  {
    if s != [] {
      EscapeCharPrintable(s[0]);
      EscapePrintable(s[1..]);
      PrintableConcat(EscapeChar(s[0], true), Escape(s[1..], true));
    }
  }

  lemma AsciiWords()
    ensures Ascii("null") == [110, 117, 108, 108]
    ensures Ascii("true") == [116, 114, 117, 101]
    ensures Ascii("false") == [102, 97, 108, 115, 101]
    ensures Ascii(", ") == [44, 32] && Ascii(": ") == [58, 32]
  {
    AsciiWord("null");
    AsciiWord("true");
    AsciiWord("false");
    AsciiWord(", ");
    AsciiWord(": ");
  }

  /** An ASCII literal is its characters. */
  lemma AsciiWord(s: string)
    requires forall i :: 0 <= i < |s| ==> s[i] as int < 0x110000
    ensures Ascii(s) == seq(|s|, i requires 0 <= i < |s| => s[i] as int)
  {
  }

  /** With `ensure_ascii` every rendering is printable ASCII. */
  lemma {:induction false} RenderPrintable(v: Value)
    requires NumbersPrintable(v)
    ensures Printable(Render(v, true))
    decreases v, 1
  {
    match v
    case Str(text) => EscapePrintable(text);
    case Arr(items) => ItemsPrintable(items);
    case Obj(fields) => FieldsPrintable(fields);
    case _ => AsciiWords();
  }

  lemma {:induction false} ItemsPrintable(items: seq<Value>)
    requires forall x :: x in items ==> NumbersPrintable(x)
    ensures Printable(RenderItems(items, true))
    decreases items, 0
  {
    if items != [] {
      AsciiWords();
      RenderPrintable(items[0]);
      ItemsPrintable(items[1..]);
    }
  }

  lemma {:induction false} FieldPrintable(f: (Text, Value))
    requires NumbersPrintable(f.1)
    ensures Printable(RenderField(f, true))
    decreases f, 2
  {
    AsciiWords();
    EscapePrintable(f.0);
    RenderPrintable(f.1);
  }

  lemma {:induction false} FieldsPrintable(fields: seq<(Text, Value)>)
    requires forall f :: f in fields ==> NumbersPrintable(f.1)
    ensures Printable(RenderFields(fields, true))
    decreases fields, 0
  {
    if fields != [] {
      AsciiWords();
      FieldPrintable(fields[0]);
      FieldsPrintable(fields[1..]);
    }
  }

  // --------------------------------------------------------------- decoding

  function HexValue(c: CodePoint): Option<nat> {
    if 48 <= c <= 57 then Some(c - 48)
    else if 97 <= c <= 102 then Some(c - 87)
    else if 65 <= c <= 70 then Some(c - 55)
    else None
  }

  /** The character that follows a backslash, when it stands for one by itself. */
  function ShortEscape(c: CodePoint): Option<CodePoint> {
    if c == 34 || c == 92 || c == 47 then Some(c)
    else if c == 98 then Some(8)
    else if c == 102 then Some(12)
    else if c == 110 then Some(10)
    else if c == 114 then Some(13)
    else if c == 116 then Some(9)
    else None
  }

  datatype Scan = Malformed | Scanned(text: Text, rest: Text)

  function Prepend(c: CodePoint, s: Scan): Scan {
    match s
    case Malformed => Malformed
    case Scanned(text, rest) => Scanned([c] + text, rest)
  }

  /** Reads a JSON string after its opening quotation mark, up to the closing one. Every
      escape is read as one UTF-16 unit. */
  function ScanString(t: Text): (s: Scan)
    ensures s.Scanned? ==> |s.rest| < |t|
  {
    if t == [] then Malformed
    else if t[0] == QUOTE then Scanned([], t[1..])
    else if t[0] == BACKSLASH then
      if |t| >= 2 && ShortEscape(t[1]).Some? then
        Prepend(ShortEscape(t[1]).value, ScanString(t[2..]))
      else if |t| >= 6 && t[1] == 117 && HexValue(t[2]).Some? && HexValue(t[3]).Some?
              && HexValue(t[4]).Some? && HexValue(t[5]).Some? then
        Prepend(HexValue(t[2]).value * 4096 + HexValue(t[3]).value * 256
                + HexValue(t[4]).value * 16 + HexValue(t[5]).value, ScanString(t[6..]))
      else Malformed
    else if t[0] < 32 then Malformed
    else Prepend(t[0], ScanString(t[1..]))
  }

  lemma HexRoundTrip(d: nat)
    requires d < 16
    ensures HexValue(HexDigit(d)) == Some(d)
  {
  }

  lemma ScanHex(a: CodePoint, b: CodePoint, c: CodePoint, d: CodePoint, t: Text)
    requires HexValue(a).Some? && HexValue(b).Some? && HexValue(c).Some? && HexValue(d).Some?
    ensures ScanString([BACKSLASH, 117, a, b, c, d] + t)
            == Prepend(HexValue(a).value * 4096 + HexValue(b).value * 256 + HexValue(c).value * 16 + HexValue(d).value,
                       ScanString(t))
  {
    var s := [BACKSLASH, 117, a, b, c, d] + t;
    assert s[6..] == t;
  }

  lemma ScanUnicode(c: CodePoint, t: Text)
    requires c < 0x10000
    ensures ScanString(UnicodeEscape(c) + t) == Prepend(c, ScanString(t))
  {
    var h, m, l := c / 16 / 16 / 16, c / 16 / 16 % 16, c / 16 % 16;
    HexRoundTrip(h);
    HexRoundTrip(m);
    HexRoundTrip(l);
    HexRoundTrip(c % 16);
    ScanHex(HexDigit(h), HexDigit(m), HexDigit(l), HexDigit(c % 16), t);
    assert c == h * 4096 + m * 256 + l * 16 + c % 16;
  }

  lemma ScanShort(c: CodePoint, d: CodePoint, t: Text)
    requires ShortEscape(d) == Some(c)
    ensures ScanString([BACKSLASH, d] + t) == Prepend(c, ScanString(t))
  {
    assert ([BACKSLASH, d] + t)[2..] == t;
  }

  lemma ScanPlain(c: CodePoint, t: Text)
    requires c >= 32 && c != QUOTE && c != BACKSLASH
    ensures ScanString([c] + t) == Prepend(c, ScanString(t))
  {
    assert ([c] + t)[1..] == t;
  }

  /** The UTF-16 units of a character; a pair of surrogates stands for one beyond the basic
      plane. */
  function CharUnits(c: CodePoint): (u: Text)
    ensures |u| >= 1
  {
    if c < 0x10000 then [c] else [0xD800 + (c - 0x10000) / 0x400, 0xDC00 + (c - 0x10000) % 0x400]
  }

  function Units(s: Text): Text {
    if s == [] then [] else CharUnits(s[0]) + Units(s[1..])
  }

  /** What a reader of escaped text sees: UTF-16 units if everything is escaped, otherwise
      the characters. */
  function Seen(s: Text, ascii: bool): Text {
    if ascii then Units(s) else s
  }

  lemma {:induction false} UnitsOfBasic(s: Text)
    requires forall i :: 0 <= i < |s| ==> s[i] < 0x10000
    ensures Units(s) == s
  {
    if s != [] {
      UnitsOfBasic(s[1..]);
    }
  }

  function PrependAll(u: Text, s: Scan): Scan {
    match s
    case Malformed => Malformed
    case Scanned(text, rest) => Scanned(u + text, rest)
  }

  lemma PrependTwice(c: CodePoint, d: CodePoint, s: Scan)
    ensures Prepend(c, Prepend(d, s)) == PrependAll([c, d], s) && Prepend(c, s) == PrependAll([c], s)
  {
    if s.Scanned? {
      assert [c] + ([d] + s.text) == [c, d] + s.text;
    }
  }

  lemma ScanBasic(c: CodePoint, ascii: bool, t: Text)
    requires c < 0x10000 || !ascii
    ensures ScanString(EscapeChar(c, ascii) + t) == Prepend(c, ScanString(t))
  {
    var e := EscapeChar(c, ascii);
    if |e| == 1 {
      ScanPlain(c, t);
    } else if |e| == 2 {
      ScanShort(c, e[1], t);
    } else {
      ScanUnicode(c, t);
    }
  }

  lemma ScanChar(c: CodePoint, ascii: bool, t: Text)
    ensures ScanString(EscapeChar(c, ascii) + t)
            == PrependAll(if ascii then CharUnits(c) else [c], ScanString(t))
  {
    if c < 0x10000 || !ascii {
      ScanBasic(c, ascii, t);
      PrependTwice(c, c, ScanString(t));
    } else {
      var u := CharUnits(c);
      assert UnicodeEscape(u[0]) + UnicodeEscape(u[1]) + t == UnicodeEscape(u[0]) + (UnicodeEscape(u[1]) + t);
      ScanUnicode(u[1], t);
      ScanUnicode(u[0], UnicodeEscape(u[1]) + t);
      PrependTwice(u[0], u[1], ScanString(t));
    }
  }

  lemma Joined(a: Text, b: Text, c: Text, d: Text)
    ensures (a + b) + c + d == a + (b + c + d)
  {
  }

  lemma SeenOneMore(s: Text, ascii: bool)
    requires s != []
    ensures Seen(s, ascii) == (if ascii then CharUnits(s[0]) else [s[0]]) + Seen(s[1..], ascii)
  {
    assert [s[0]] + s[1..] == s;
  }

  /** Scanning undoes escaping, on every text. */
  lemma {:induction false} ScanEscaped(s: Text, ascii: bool, rest: Text)
    ensures ScanString(Escape(s, ascii) + [QUOTE] + rest) == Scanned(Seen(s, ascii), rest)
  {
    var tail := [QUOTE] + rest;
    if s == [] {
      assert Escape(s, ascii) + [QUOTE] + rest == tail && tail[1..] == rest;
    } else {
      var e, f := EscapeChar(s[0], ascii), Escape(s[1..], ascii);
      ScanEscaped(s[1..], ascii, rest);
      ScanChar(s[0], ascii, f + [QUOTE] + rest);
      Joined(e, f, [QUOTE], rest);
      SeenOneMore(s, ascii);
    }
  }
}
