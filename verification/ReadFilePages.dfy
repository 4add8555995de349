/** `_structured_read_file_result`: a numbered listing that is too large for one response is
    cut after a line, and the response says at which line to go on. */
module ReadFilePages {
  import opened Common
  import opened Json

  /** A JSON object as Python's dict keeps it: distinct keys in insertion order. */
  type Fields = seq<(Text, Value)>

  const CONTENT := Ascii("content")
  const FILE_TEXT := Ascii("file_text")
  const TRUNCATED := Ascii("truncated")
  const NEXT_OFFSET := Ascii("next_offset")
  const HINT := Ascii("hint")
  const HINT_TEXT := Ascii("Gateway output limit reached; continue with offset=")
  const BAR: CodePoint := 124

  // ------------------------------------------------------------------ fields

  /** `{**fields, key: value}`. */
  function Put(fields: Fields, key: Text, value: Value): Fields {
    if fields == [] then [(key, value)]
    else if fields[0].0 == key then [(key, value)] + fields[1..]
    else [fields[0]] + Put(fields[1..], key, value)
  }

  function Lookup(fields: Fields, key: Text): Option<Value> {
    if fields == [] then None
    else if fields[0].0 == key then Some(fields[0].1)
    else Lookup(fields[1..], key)
  }

  function Without(fields: Fields, keys: set<Text>): Fields {
    if fields == [] then []
    else if fields[0].0 in keys then Without(fields[1..], keys)
    else [fields[0]] + Without(fields[1..], keys)
  }

  /** `structured_value`. */
  function Structured(fields: Fields): Fields {
    Without(fields, {CONTENT, FILE_TEXT})
      + [(FILE_TEXT, match Lookup(fields, CONTENT) case Some(v) => v case None => Null)]
  }

  // ----------------------------------------------------------------- numbers

  predicate Decimal(t: Text) {
    t != [] && forall i :: 0 <= i < |t| ==> 48 <= t[i] <= 57
  }

  function Dec(n: nat): Text {
    if n < 10 then [48 + n] else Dec(n / 10) + [48 + n % 10]
  }

  function Number(t: Text): nat
    requires forall i :: 0 <= i < |t| ==> 48 <= t[i] <= 57
  {
    if t == [] then 0 else 10 * Number(t[..|t| - 1]) + (t[|t| - 1] - 48)
  }

  lemma {:induction false} DecRoundTrip(n: nat)
    ensures Decimal(Dec(n)) && Number(Dec(n)) == n
  {
    if n >= 10 {
      DecRoundTrip(n / 10);
      assert Dec(n)[..|Dec(n)| - 1] == Dec(n / 10);
    }
  }

  // ------------------------------------------------------------------- lines

  /** The line boundaries of `str.splitlines`. */
  predicate IsBreak(c: CodePoint) {
    c in {10, 11, 12, 13, 28, 29, 30, 0x85, 0x2028, 0x2029}
  }

  /** The length of the first line together with its boundary. */
  function LineLength(s: Text): (n: nat)
    ensures n <= |s| && (s != [] ==> n > 0)
  {
    if s == [] then 0
    else if IsBreak(s[0]) then (if s[0] == 13 && |s| > 1 && s[1] == 10 then 2 else 1)
    else 1 + LineLength(s[1..])
  }

  /** `splitlines(keepends=True)`. */
  function Lines(s: Text): seq<Text> {
    if s == [] then [] else [s[..LineLength(s)]] + Lines(s[LineLength(s)..])
  }

  function Concat(lines: seq<Text>): Text {
    if lines == [] then [] else lines[0] + Concat(lines[1..])
  }

  /** `rstrip("\n")`. */
  function StripNewlines(s: Text): Text {
    if s != [] && s[|s| - 1] == NEWLINE then StripNewlines(s[..|s| - 1]) else s
  }

  /** `split("|", 1)[0]`. */
  function BeforeBar(s: Text): Text {
    if s == [] || s[0] == BAR then [] else [s[0]] + BeforeBar(s[1..])
  }

  // ------------------------------------------------------------------- pages

  function PageFields(fields: Fields, content: Text, next: nat): Fields {
    Put(Put(Put(Put(fields, CONTENT, Str(content)), TRUNCATED, Bool(true)),
            NEXT_OFFSET, Num(Dec(next))),
        HINT, Str(HINT_TEXT + Dec(next) + [46]))
  }

  datatype PageResult =
    | PassThrough
    | Whole(structured: Fields)
    | Page(page: Fields, structured: Fields, next: nat)
    | NotNumbered
    | LineTooLong

  predicate FitsBoth(page: Fields, limit: int) {
    |Render(Obj(page), false)| <= limit && |Render(Obj(Structured(page)), false)| <= limit
  }

  function KeptContent(lines: seq<Text>): Text {
    StripNewlines(Concat(lines))
  }

  /** The page that ends after `lines`, whose last line carries a number. */
  function PageOf(fields: Fields, lines: seq<Text>): Fields
    requires lines != [] && Decimal(BeforeBar(lines[|lines| - 1]))
  {
    PageFields(fields, KeptContent(lines), Number(BeforeBar(lines[|lines| - 1])) + 1)
  }

  /** The loop that drops lines from the end until a page fits. */
  function Shrink(fields: Fields, lines: seq<Text>, limit: int): PageResult {
    if lines == [] then LineTooLong
    else if !Decimal(BeforeBar(lines[|lines| - 1])) then NotNumbered
    else if FitsBoth(PageOf(fields, lines), limit) then
      Page(PageOf(fields, lines), Structured(PageOf(fields, lines)),
           Number(BeforeBar(lines[|lines| - 1])) + 1)
    else Shrink(fields, lines[..|lines| - 1], limit)
  }

  /** How many leading lines the raw text budget admits. */
  function Greedy(lines: seq<Text>, size: nat, limit: int): (n: nat)
    ensures n <= |lines|
  {
    if lines == [] || size + |lines[0]| > limit then 0
    else 1 + Greedy(lines[1..], size + |lines[0]|, limit)
  }

  function CutFields(fields: Fields, content: Text, limit: int): PageResult {
    if |Render(Obj(Structured(fields)), false)| <= limit then Whole(Structured(fields))
    else Shrink(fields, Lines(content)[..Greedy(Lines(content), 0, limit)], limit)
  }

  /** The whole function on a decoded payload. */
  function Cut(payload: Value, limit: int): PageResult {
    if payload.Obj? && Lookup(payload.fields, CONTENT).Some? && Lookup(payload.fields, CONTENT).value.Str? then
      CutFields(payload.fields, Lookup(payload.fields, CONTENT).value.text, limit)
    else PassThrough
  }

  lemma {:induction false} GreedyOneMore(lines: seq<Text>, k: nat, size: nat, limit: int)
    requires k < |lines| && Greedy(lines, size, limit) >= k
    ensures Greedy(lines, size, limit) > k <==> size + |Concat(lines[..k])| + |lines[k]| <= limit
  {
    if k > 0 {
      assert lines[1..][..k - 1] == lines[..k][1..] && lines[1..][k - 1] == lines[k];
      GreedyOneMore(lines[1..], k - 1, size + |lines[0]|, limit);
    } else {
      assert lines[..0] == [];
    }
  }

  lemma {:induction false} ConcatOneMore(lines: seq<Text>, k: nat)
    requires k < |lines|
    ensures Concat(lines[..k + 1]) == Concat(lines[..k]) + lines[k]
  {
    if k == 0 {
      assert lines[..1][1..] == [] && lines[..0] == [];
    } else {
      assert lines[..k + 1][1..] == lines[1..][..k] && lines[..k][1..] == lines[1..][..k - 1];
      ConcatOneMore(lines[1..], k - 1);
    }
  }

  method KeepLines(lines: seq<Text>, limit: int) returns (kept: seq<Text>)
    ensures kept == lines[..Greedy(lines, 0, limit)]
  {
    kept := [];
    var size, k := 0, 0;
    while k < |lines|
      invariant k <= |lines| && kept == lines[..k] && size == |Concat(lines[..k])|
      invariant k <= Greedy(lines, 0, limit)
    {
      GreedyOneMore(lines, k, 0, limit);
      if size + |lines[k]| > limit {
        return;
      }
      ConcatOneMore(lines, k);
      kept := kept + [lines[k]];
      size := size + |lines[k]|;
      k := k + 1;
    }
  }

  method CutPage(payload: Value, limit: int) returns (r: PageResult)
    ensures r == Cut(payload, limit)
  {
    if !payload.Obj? {
      return PassThrough;
    }
    var fields := payload.fields;
    var found := Lookup(fields, CONTENT);
    if found.None? || !found.value.Str? {
      return PassThrough;
    }
    var structured := Structured(fields);
    if |Render(Obj(structured), false)| <= limit {
      return Whole(structured);
    }
    var kept := KeepLines(Lines(found.value.text), limit);
    r := PopUntilFits(fields, kept, limit);
  }

  lemma ShrinkStep(fields: Fields, lines: seq<Text>, limit: int)
    requires lines != [] && Decimal(BeforeBar(lines[|lines| - 1]))
    requires !FitsBoth(PageOf(fields, lines), limit)
    ensures Shrink(fields, lines, limit) == Shrink(fields, lines[..|lines| - 1], limit)
  {
  }

  lemma ShrinkDone(fields: Fields, lines: seq<Text>, limit: int)
    requires lines != [] && Decimal(BeforeBar(lines[|lines| - 1]))
    requires FitsBoth(PageOf(fields, lines), limit)
    ensures Shrink(fields, lines, limit)
            == Page(PageOf(fields, lines), Structured(PageOf(fields, lines)),
                    Number(BeforeBar(lines[|lines| - 1])) + 1)
  {
  }

  method PopUntilFits(fields: Fields, lines: seq<Text>, limit: int) returns (r: PageResult)
    ensures r == Shrink(fields, lines, limit)
  {
    var kept := lines;
    while kept != []
      invariant Shrink(fields, lines, limit) == Shrink(fields, kept, limit)
      decreases |kept|
    {
      if !Decimal(BeforeBar(kept[|kept| - 1])) {
        return NotNumbered;
      }
      var page := PageOf(fields, kept);
      if FitsBoth(page, limit) {
        ShrinkDone(fields, kept, limit);
        return Page(page, Structured(page), Number(BeforeBar(kept[|kept| - 1])) + 1);
      }
      ShrinkStep(fields, kept, limit);
      kept := kept[..|kept| - 1];
    }
    return LineTooLong;
  }
}
