/** A reader of JSON texts after the grammar of RFC 8259, independent of the renderer. */
module JsonGrammar {
  import opened Common
  import opened Json

  // ----------------------------------------------------------------- grammar

  /** Insignificant white space, section 2. */
  predicate IsSpace(c: CodePoint) {
    c == 32 || c == 9 || c == 10 || c == 13
  }

  function SkipSpace(t: Text): (r: Text)
    ensures |r| <= |t|
  {
    if t != [] && IsSpace(t[0]) then SkipSpace(t[1..]) else t
  }

  predicate IsDigit(c: CodePoint) {
    48 <= c <= 57
  }

  function DigitCount(t: Text): (n: nat)
    ensures n <= |t|
  {
    if t != [] && IsDigit(t[0]) then 1 + DigitCount(t[1..]) else 0
  }

  /** `[eE] [+-]? 1*DIGIT`, or nothing. */
  predicate IsExponent(t: Text) {
    if t == [] then true
    else
      && (t[0] == 69 || t[0] == 101)
      && var u := if |t| > 1 && (t[1] == 43 || t[1] == 45) then t[2..] else t[1..];
         u != [] && DigitCount(u) == |u|
  }

  /** An optional fraction, then an optional exponent. */
  predicate IsFraction(t: Text) {
    if t != [] && t[0] == 46 then
      var n := DigitCount(t[1..]);
      n > 0 && IsExponent(t[1 + n..])
    else IsExponent(t)
  }

  /** A number, section 6: no leading zeros, no plus sign, no bare words. */
  predicate IsNumber(t: Text) {
    var u := if t != [] && t[0] == 45 then t[1..] else t;
    var n := DigitCount(u);
    n > 0 && (n > 1 ==> u[0] != 48) && IsFraction(u[n..])
  }

  /** The characters that numbers are made of. */
  predicate InNumber(c: CodePoint) {
    IsDigit(c) || c == 43 || c == 45 || c == 46 || c == 69 || c == 101
  }

  function NumberLength(t: Text): (n: nat)
    ensures n <= |t|
  {
    if t != [] && InNumber(t[0]) then 1 + NumberLength(t[1..]) else 0
  }

  datatype Parsed = Failed | Parsed(value: Value, rest: Text)
  datatype ParsedItems = NoItems | ParsedItems(items: seq<Value>, rest: Text)
  datatype ParsedFields = NoFields | ParsedFields(fields: seq<(Text, Value)>, rest: Text)

  predicate Begins(t: Text, word: Text) {
    |word| <= |t| && t[..|word|] == word
  }

  /** A value, section 3. */
  function ParseValue(t: Text): (p: Parsed)
    ensures p.Parsed? ==> |p.rest| < |t|
    decreases |t|, 0
  {
    if t == [] then Failed
    else if t[0] == 34 then
      (match ScanString(t[1..])
       case Malformed => Failed
       case Scanned(text, rest) => Parsed(Str(text), rest))
    else if t[0] == 91 then ParseArray(SkipSpace(t[1..]))
    else if t[0] == 123 then ParseObject(SkipSpace(t[1..]))
    else if IsDigit(t[0]) || t[0] == 45 then ParseNumber(t)
    else ParseWord(t)
  }

  /** `null`, `true` or `false`. */
  function ParseWord(t: Text): (p: Parsed)
    ensures p.Parsed? ==> |p.rest| < |t|
  {
    if Begins(t, [110, 117, 108, 108]) then Parsed(Null, t[4..])
    else if Begins(t, [116, 114, 117, 101]) then Parsed(Bool(true), t[4..])
    else if Begins(t, [102, 97, 108, 115, 101]) then Parsed(Bool(false), t[5..])
    else Failed
  }

  function ParseNumber(t: Text): (p: Parsed)
    ensures p.Parsed? ==> |p.rest| < |t|
  {
    var n := NumberLength(t);
    if n > 0 && IsNumber(t[..n]) then Parsed(Num(t[..n]), t[n..]) else Failed
  }

  /** An array after its opening bracket, section 5. */
  function ParseArray(t: Text): (p: Parsed)
    ensures p.Parsed? ==> |p.rest| < |t|
    decreases |t|, 2
  {
    if t != [] && t[0] == 93 then Parsed(Arr([]), t[1..])
    else
      match ParseItems(t)
      case NoItems => Failed
      case ParsedItems(items, rest) => Parsed(Arr(items), rest)
  }

  function ParseItems(t: Text): (p: ParsedItems)
    ensures p.ParsedItems? ==> |p.rest| < |t|
    decreases |t|, 1
  {
    match ParseValue(t)
    case Failed => NoItems
    case Parsed(v, rest) => AfterItem(v, SkipSpace(rest))
  }

  /** What follows the item `v` in the array. */
  function AfterItem(v: Value, u: Text): (p: ParsedItems)
    ensures p.ParsedItems? ==> |p.rest| <= |u|
    decreases |u|, 3
  {
    if u == [] then NoItems
    else if u[0] == 93 then ParsedItems([v], u[1..])
    else if u[0] == 44 then
      (match ParseItems(SkipSpace(u[1..]))
       case NoItems => NoItems
       case ParsedItems(more, after) => ParsedItems([v] + more, after))
    else NoItems
  }

  /** An object after its opening brace, section 4; names are kept as they come. */
  function ParseObject(t: Text): (p: Parsed)
    ensures p.Parsed? ==> |p.rest| < |t|
    decreases |t|, 2
  {
    if t != [] && t[0] == 125 then Parsed(Obj([]), t[1..])
    else
      match ParseFields(t)
      case NoFields => Failed
      case ParsedFields(fields, rest) => Parsed(Obj(fields), rest)
  }

  function ParseFields(t: Text): (p: ParsedFields)
    ensures p.ParsedFields? ==> |p.rest| < |t|
    decreases |t|, 1
  {
    if t == [] || t[0] != 34 then NoFields
    else
      match ScanString(t[1..])
      case Malformed => NoFields
      case Scanned(name, rest) =>
        var u := SkipSpace(rest);
        if u == [] || u[0] != 58 then NoFields else ParseMember(name, SkipSpace(u[1..]))
  }

  /** The value of the member `name`, and what follows it in the object. */
  function ParseMember(name: Text, t: Text): (p: ParsedFields)
    ensures p.ParsedFields? ==> |p.rest| < |t|
    decreases |t|, 1
  {
    match ParseValue(t)
    case Failed => NoFields
    case Parsed(v, rest) => AfterMember((name, v), SkipSpace(rest))
  }

  /** What follows the member `f` in the object. */
  function AfterMember(f: (Text, Value), u: Text): (p: ParsedFields)
    ensures p.ParsedFields? ==> |p.rest| <= |u|
    decreases |u|, 3
  {
    if u == [] then NoFields
    else if u[0] == 125 then ParsedFields([f], u[1..])
    else if u[0] == 44 then
      (match ParseFields(SkipSpace(u[1..]))
       case NoFields => NoFields
       case ParsedFields(more, after) => ParsedFields([f] + more, after))
    else NoFields
  }

  /** A whole text. */
  function ParseDocument(t: Text): Option<Value> {
    match ParseValue(SkipSpace(t))
    case Failed => None
    case Parsed(v, rest) => if SkipSpace(rest) == [] then Some(v) else None
  }
}
