/** Python's `int` on a text, and the texts that it reads as zero. */
module PythonInt {
  import opened Common

  /** What depends on the interpreter: the first digits of the runs of ten decimal digits
      beyond ASCII that its Unicode tables know, and `sys.get_int_max_str_digits()`, where 0
      is no limit and no other limit below 640 can be set. */
  datatype IntReader = IntReader(zeros: seq<int>, maxDigits: nat)

  type Interpreter = r: IntReader | r.maxDigits == 0 || r.maxDigits >= 640
    witness IntReader([], 0)

  /** Unicode 14.0.0. */
  const ZEROS_OF_UNICODE_14: seq<int> := [
    0x660, 0x6f0, 0x7c0, 0x966, 0x9e6, 0xa66, 0xae6, 0xb66, 0xbe6, 0xc66,
    0xce6, 0xd66, 0xde6, 0xe50, 0xed0, 0xf20, 0x1040, 0x1090, 0x17e0, 0x1810,
    0x1946, 0x19d0, 0x1a80, 0x1a90, 0x1b50, 0x1bb0, 0x1c40, 0x1c50, 0xa620, 0xa8d0,
    0xa900, 0xa9d0, 0xa9f0, 0xaa50, 0xabf0, 0xff10, 0x104a0, 0x10d30, 0x11066, 0x110f0,
    0x11136, 0x111d0, 0x112f0, 0x11450, 0x114d0, 0x11650, 0x116c0, 0x11730, 0x118e0, 0x11950,
    0x11c50, 0x11d50, 0x11da0, 0x16a60, 0x16ac0, 0x16b50, 0x1d7ce, 0x1d7d8, 0x1d7e2, 0x1d7ec,
    0x1d7f6, 0x1e140, 0x1e2f0, 0x1e950, 0x1fbf0
  ]

  /** Python 3.11, the oldest supported version, with its default limit. */
  const PYTHON_3_11: Interpreter := IntReader(ZEROS_OF_UNICODE_14, 4300)

  // ----------------------------------------------------------------- reading

  /** In ASCII the blanks of C, beyond it those of Unicode; so 28 to 31 are no blanks. */
  predicate IsBlank(c: char) {
    || 9 <= c as int <= 13 || c == ' '
    || c as int in {0x85, 0xa0, 0x1680, 0x2028, 0x2029, 0x202f, 0x205f, 0x3000}
    || 0x2000 <= c as int <= 0x200a
  }

  function WideDigit(zeros: seq<int>, c: char): (d: Option<nat>)
    ensures d.Some? ==> d.value < 10
  {
    if zeros == [] then None
    else if zeros[0] <= c as int < zeros[0] + 10 then Some(c as int - zeros[0])
    else WideDigit(zeros[1..], c)
  }

  function DigitOf(r: Interpreter, c: char): (d: Option<nat>)
    ensures d.Some? ==> d.value < 10
  {
    if '0' <= c <= '9' then Some(c as int - '0' as int)
    else if c as int < 128 || IsBlank(c) then None
    else WideDigit(r.zeros, c)
  }

  function Strip(s: string): string {
    if s != "" && IsBlank(s[0]) then Strip(s[1..])
    else if s != "" && IsBlank(s[|s| - 1]) then Strip(s[..|s| - 1])
    else s
  }

  /** Decimal digits with single underscores between them, most significant first. */
  function Digits(r: Interpreter, s: string, value: nat, afterDigit: bool): Option<nat> {
    if s == "" then
      if afterDigit then Some(value) else None
    else if DigitOf(r, s[0]).Some? then
      Digits(r, s[1..], 10 * value + DigitOf(r, s[0]).value, true)
    else if s[0] == '_' && afterDigit then
      Digits(r, s[1..], value, false)
    else
      None
  }

  /** Underscores do not count towards the limit, leading zeros do. */
  function DigitCount(s: string): nat {
    if s == "" then 0 else (if s[0] == '_' then 0 else 1) + DigitCount(s[1..])
  }

  predicate TooLong(r: Interpreter, s: string) {
    r.maxDigits > 0 && DigitCount(s) > r.maxDigits
  }

  function Unsigned(s: string): string {
    if s != "" && (s[0] == '+' || s[0] == '-') then s[1..] else s
  }

  /** `int(text)`; None is the ValueError. */
  function PyInt(r: Interpreter, text: string): Option<int> {
    var s := Strip(text);
    match Digits(r, Unsigned(s), 0, false)
    case None => None
    case Some(n) =>
      var magnitude: int := n;
      if TooLong(r, Unsigned(s)) then None else Some(if s[0] == '-' then -magnitude else magnitude)
  }

  // ------------------------------------------------------- spellings of zero

  predicate IsZero(r: Interpreter, c: char) {
    DigitOf(r, c) == Some(0)
  }

  predicate Blank(s: string) {
    forall i :: 0 <= i < |s| ==> IsBlank(s[i])
  }

  /** Zeros, with no underscore at either end and no two underscores together. */
  predicate Zeros(r: Interpreter, s: string) {
    && s != "" && IsZero(r, s[0]) && IsZero(r, s[|s| - 1])
    && (forall i :: 0 <= i < |s| ==> IsZero(r, s[i]) || s[i] == '_')
    && (forall i :: 0 < i < |s| ==> IsZero(r, s[i - 1]) || IsZero(r, s[i]))
  }

  /** An optional sign, then no more zeros than the interpreter takes. */
  predicate SignedZeros(r: Interpreter, s: string) {
    Zeros(r, Unsigned(s)) && !TooLong(r, Unsigned(s))
  }

  /** Blanks, an optional sign, zeros, blanks. */
  predicate SpellsZero(r: Interpreter, text: string) {
    exists i, j :: 0 <= i <= j <= |text| && Blank(text[..i]) && Blank(text[j..]) && SignedZeros(r, text[i..j])
  }

  lemma ZerosUnfold(r: Interpreter, s: string)
    requires s != ""
    ensures Zeros(r, s) <==>
      IsZero(r, s[0]) && (s[1..] == "" || Zeros(r, s[1..]) || (s[1] == '_' && Zeros(r, s[2..])))
  {
    var t := s[1..];
    if IsZero(r, s[0]) && t != "" && Zeros(r, t) {
      forall i | 0 < i < |s| ensures s[i] == t[i - 1] {}
    }
    if IsZero(r, s[0]) && t != "" && s[1] == '_' && Zeros(r, s[2..]) {
      var u := s[2..];
      forall i | 1 < i < |s| ensures s[i] == u[i - 2] {}
    }
  }

  lemma {:induction false} DigitsGrow(r: Interpreter, s: string, value: nat, afterDigit: bool)
    ensures Digits(r, s, value, afterDigit).Some? ==> Digits(r, s, value, afterDigit).value >= value
  {
    if s != "" {
      if DigitOf(r, s[0]).Some? {
        DigitsGrow(r, s[1..], 10 * value + DigitOf(r, s[0]).value, true);
      } else if s[0] == '_' && afterDigit {
        DigitsGrow(r, s[1..], value, false);
      }
    }
  }

  /** The digits add up to zero exactly for zeros with single underscores. */
  lemma {:induction false} DigitsOfZero(r: Interpreter, s: string)
    ensures Digits(r, s, 0, false) == Some(0) <==> Zeros(r, s)
    ensures Digits(r, s, 0, true) == Some(0) <==> s == "" || Zeros(r, s) || (s[0] == '_' && Zeros(r, s[1..]))
  {
    if s != "" {
      DigitsOfZero(r, s[1..]);
      ZerosUnfold(r, s);
      if DigitOf(r, s[0]).Some? && !IsZero(r, s[0]) {
        DigitsGrow(r, s[1..], DigitOf(r, s[0]).value, true);
      }
    }
  }

  lemma BlankConcat(a: string, b: string)
    requires Blank(a) && Blank(b)
    ensures Blank(a + b)
  {
  }

  lemma {:induction false} StripSplits(text: string) returns (i: nat, j: nat)
    ensures i <= j <= |text| && Blank(text[..i]) && Blank(text[j..]) && Strip(text) == text[i..j]
    decreases |text|
  {
    if text != "" && IsBlank(text[0]) {
      var rest := text[1..];
      i, j := StripSplits(rest);
      BlankConcat([text[0]], rest[..i]);
      assert text[..i + 1] == [text[0]] + rest[..i] && text[j + 1..] == rest[j..];
      assert text[i + 1..j + 1] == rest[i..j];
      i, j := i + 1, j + 1;
    } else if text != "" && IsBlank(text[|text| - 1]) {
      var rest := text[..|text| - 1];
      i, j := StripSplits(rest);
      BlankConcat(rest[j..], [text[|text| - 1]]);
      assert text[..i] == rest[..i] && text[j..] == rest[j..] + [text[|text| - 1]];
      assert text[i..j] == rest[i..j];
    } else {
      i, j := 0, |text|;
    }
  }

  lemma {:induction false} StripFinds(a: string, core: string, b: string)
    requires Blank(a) && Blank(b)
    requires core != "" && !IsBlank(core[0]) && !IsBlank(core[|core| - 1])
    ensures Strip(a + core + b) == core
    decreases |a| + |b|
  {
    var text := a + core + b;
    if a != "" {
      assert text[1..] == a[1..] + core + b;
      StripFinds(a[1..], core, b);
    } else if b != "" {
      assert text[0] == core[0] && text[|text| - 1] == b[|b| - 1];
      assert text[..|text| - 1] == a + core + b[..|b| - 1];
      StripFinds(a, core, b[..|b| - 1]);
    } else {
      assert text == core;
    }
  }

  /** The texts that `int` reads as zero. */
  lemma ReadsAsZero(r: Interpreter, text: string)
    ensures PyInt(r, text) == Some(0) <==> SpellsZero(r, text)
  {
    DigitsOfZero(r, Unsigned(Strip(text)));
    if SignedZeros(r, Strip(text)) {
      var i, j := StripSplits(text);
      assert SignedZeros(r, text[i..j]);
    }
    if SpellsZero(r, text) {
      BodyOfSpelling(r, text);
    }
  }

  lemma BodyOfSpelling(r: Interpreter, text: string)
    requires SpellsZero(r, text)
    ensures SignedZeros(r, Strip(text))
  {
    var i, j :| 0 <= i <= j <= |text| && Blank(text[..i]) && Blank(text[j..]) && SignedZeros(r, text[i..j]);
    CoreEnds(r, text[i..j]);
    StripFinds(text[..i], text[i..j], text[j..]);
    SplitInThree(text, i, j);
  }

  lemma SplitInThree(text: string, i: nat, j: nat)
    requires i <= j <= |text|
    ensures text[..i] + text[i..j] + text[j..] == text
  {
  }

  lemma CoreEnds(r: Interpreter, core: string)
    requires SignedZeros(r, core)
    ensures core != "" && !IsBlank(core[0]) && !IsBlank(core[|core| - 1])
  {
    var u := Unsigned(core);
    assert core[|core| - 1] == u[|u| - 1];
  }

  // ---------------------------------------------------------------- examples

  lemma OneDigit(r: Interpreter, s: string)
    requires |s| == 1 && '0' <= s[0] <= '9'
    ensures PyInt(r, s) == Some(s[0] as int - '0' as int)
  {
    assert s[1..] == "" && Strip(s) == s;
    assert Digits(r, s, 0, false) == Digits(r, "", s[0] as int - '0' as int, true);
    assert DigitCount(s) == 1;
  }

  lemma ReadsZeroAndOne(r: Interpreter)
    ensures PyInt(r, "0") == Some(0) && PyInt(r, "1") == Some(1)
  {
    OneDigit(r, "0");
    OneDigit(r, "1");
  }

  function Repeated(c: char, n: nat): (s: string)
    ensures |s| == n && forall i :: 0 <= i < n ==> s[i] == c
  {
    seq(n, _ => c)
  }

  lemma {:induction false} CountRepeated(n: nat)
    ensures DigitCount(Repeated('0', n)) == n
  {
    if n > 0 {
      assert Repeated('0', n)[1..] == Repeated('0', n - 1);
      CountRepeated(n - 1);
    }
  }

  /** Zeros are read as zero up to the limit, and refused beyond it. */
  lemma ManyZeros(r: Interpreter, n: nat)
    requires n > 0
    ensures PyInt(r, Repeated('0', n)) == if r.maxDigits > 0 && n > r.maxDigits then None else Some(0)
  {
    var s := Repeated('0', n);
    assert Strip(s) == s && Unsigned(s) == s;
    DigitsOfZero(r, s);
    CountRepeated(n);
  }
}
