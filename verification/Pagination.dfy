/** What a reader gets who follows `next_offset` through a file of numbered lines. */
module Pagination {
  import opened Common
  import opened Json
  import JsonGrammar
  import JsonParser
  import opened ReadFilePages

  // ------------------------------------------------------- numbered listings

  /** A line that no boundary of `str.splitlines` breaks. */
  predicate OneLine(t: Text) {
    forall i :: 0 <= i < |t| ==> !IsBreak(t[i])
  }

  predicate AllOneLine(texts: seq<Text>) {
    forall i :: 0 <= i < |texts| ==> OneLine(texts[i])
  }

  function NumberedLine(n: nat, t: Text): Text {
    Dec(n) + [BAR] + t
  }

  /** The lines numbered from `from`, joined by newlines. */
  function Numbered(texts: seq<Text>, from: nat): Text {
    if texts == [] then []
    else if |texts| == 1 then NumberedLine(from, texts[0])
    else NumberedLine(from, texts[0]) + [NEWLINE] + Numbered(texts[1..], from + 1)
  }

  /** The same listing as `splitlines(keepends=True)` gives it. */
  function Pieces(texts: seq<Text>, from: nat): (p: seq<Text>)
    ensures |p| == |texts|
  {
    if texts == [] then []
    else if |texts| == 1 then [NumberedLine(from, texts[0])]
    else [NumberedLine(from, texts[0]) + [NEWLINE]] + Pieces(texts[1..], from + 1)
  }

  lemma {:induction false} LineLengthOfLine(a: Text, rest: Text)
    requires OneLine(a)
    ensures LineLength(a + [NEWLINE] + rest) == |a| + 1
    ensures LineLength(a) == |a|
  {
    var s := a + [NEWLINE] + rest;
    if a != [] {
      assert s[1..] == a[1..] + [NEWLINE] + rest;
      LineLengthOfLine(a[1..], rest);
    }
  }

  lemma NumberedLineShape(n: nat, t: Text)
    requires OneLine(t)
    ensures OneLine(NumberedLine(n, t))
    ensures NumberedLine(n, t)[|NumberedLine(n, t)| - 1] != NEWLINE
  {
    DecRoundTrip(n);
  }

  lemma {:induction false} LinesOfNumbered(texts: seq<Text>, from: nat)
    requires AllOneLine(texts)
    ensures Lines(Numbered(texts, from)) == Pieces(texts, from)
  {
    if texts != [] {
      var a := NumberedLine(from, texts[0]);
      NumberedLineShape(from, texts[0]);
      var s := Numbered(texts, from);
      if |texts| == 1 {
        LineLengthOfLine(a, []);
        assert s[..|a|] == a && s[|a|..] == [];
      } else {
        var rest := Numbered(texts[1..], from + 1);
        LineLengthOfLine(a, rest);
        assert s[..|a| + 1] == a + [NEWLINE] && s[|a| + 1..] == rest;
        LinesOfNumbered(texts[1..], from + 1);
      }
    }
  }

  lemma {:induction false} BeforeBarOf(a: Text, rest: Text)
    requires BAR !in a
    ensures BeforeBar(a + [BAR] + rest) == a
  {
    var s := a + [BAR] + rest;
    if a != [] {
      assert s[1..] == a[1..] + [BAR] + rest;
      BeforeBarOf(a[1..], rest);
    }
  }

  /** Every piece shows its own line number. */
  lemma {:induction false} PieceNumber(texts: seq<Text>, from: nat, i: nat)
    requires i < |texts|
    ensures Decimal(BeforeBar(Pieces(texts, from)[i]))
    ensures Number(BeforeBar(Pieces(texts, from)[i])) == from + i
  {
    if i > 0 {
      PieceNumber(texts[1..], from + 1, i - 1);
    } else {
      var p := Pieces(texts, from)[0];
      DecRoundTrip(from);
      if |texts| > 1 {
        assert p == Dec(from) + [BAR] + (texts[0] + [NEWLINE]);
        BeforeBarOf(Dec(from), texts[0] + [NEWLINE]);
      } else {
        BeforeBarOf(Dec(from), texts[0]);
      }
    }
  }

  lemma {:induction false} StripAfter(a: Text, b: Text)
    requires StripNewlines(b) != []
    ensures StripNewlines(a + b) == a + StripNewlines(b)
  {
    if b[|b| - 1] == NEWLINE {
      assert (a + b)[..|a + b| - 1] == a + b[..|b| - 1];
      StripAfter(a, b[..|b| - 1]);
    }
  }

  lemma StripLine(a: Text)
    requires a != [] && a[|a| - 1] != NEWLINE
    ensures StripNewlines(a) == a && StripNewlines(a + [NEWLINE]) == a
  {
    assert (a + [NEWLINE])[..|a|] == a;
  }

  /** Cutting after `k` lines and stripping the last newline leaves the first `k` lines. */
  lemma {:induction false} KeptLines(texts: seq<Text>, from: nat, k: nat)
    requires AllOneLine(texts) && 0 < k <= |texts|
    ensures KeptContent(Pieces(texts, from)[..k]) == Numbered(texts[..k], from) != []
    ensures |Concat(Pieces(texts, from)[..k])| <= |Numbered(texts[..k], from)| + 1
  {
    var a := NumberedLine(from, texts[0]);
    var p := Pieces(texts, from);
    NumberedLineShape(from, texts[0]);
    StripLine(a);
    assert p[..k][0] == p[0] && p[..k][1..] == p[1..][..k - 1];
    if k == 1 {
      assert Concat(p[..1]) == p[0];
      assert texts[..1] == [texts[0]];
    } else {
      assert p[1..] == Pieces(texts[1..], from + 1);
      assert texts[..k][1..] == texts[1..][..k - 1];
      KeptLines(texts[1..], from + 1, k - 1);
      StripAfter(a + [NEWLINE], Concat(p[1..][..k - 1]));
    }
  }

  // ------------------------------------------------------------------ fields

  lemma {:induction false} LookupPut(fields: Fields, key: Text, value: Value, k: Text)
    ensures Lookup(Put(fields, key, value), k) == if k == key then Some(value) else Lookup(fields, k)
  {
    if fields != [] && fields[0].0 != key {
      LookupPut(fields[1..], key, value, k);
    }
  }

  lemma {:induction false} LookupWithout(fields: Fields, keys: set<Text>, k: Text)
    ensures Lookup(Without(fields, keys), k) == if k in keys then None else Lookup(fields, k)
  {
    if fields != [] {
      LookupWithout(fields[1..], keys, k);
    }
  }

  lemma {:induction false} LookupAppend(a: Fields, b: Fields, k: Text)
    ensures Lookup(a + b, k) == if Lookup(a, k).Some? then Lookup(a, k) else Lookup(b, k)
  {
    if a == [] {
      assert a + b == b;
    } else {
      assert (a + b)[1..] == a[1..] + b;
      LookupAppend(a[1..], b, k);
    }
  }

  /** The structured value shows the content as `file_text` and keeps every other field. */
  lemma StructuredLookup(fields: Fields, content: Value, k: Text)
    requires Lookup(fields, CONTENT) == Some(content)
    ensures Lookup(Structured(fields), k)
            == if k == FILE_TEXT then Some(content)
               else if k == CONTENT then None
               else Lookup(fields, k)
  {
    LookupWithout(fields, {CONTENT, FILE_TEXT}, k);
    LookupAppend(Without(fields, {CONTENT, FILE_TEXT}), [(FILE_TEXT, content)], k);
  }

  lemma KeysDiffer()
    ensures |CONTENT| == 7 && |FILE_TEXT| == 9 && |NEXT_OFFSET| == 11 && |HINT| == 4 && |TRUNCATED| == 9
    ensures TRUNCATED != FILE_TEXT
  {
    assert TRUNCATED[0] == 116 && FILE_TEXT[0] == 102;
  }

  /** A page says that it is cut and where to go on, and keeps every other field. */
  lemma PageLookup(fields: Fields, content: Text, next: nat)
    ensures Lookup(PageFields(fields, content, next), CONTENT) == Some(Str(content))
    ensures Lookup(PageFields(fields, content, next), TRUNCATED) == Some(Bool(true))
    ensures Lookup(PageFields(fields, content, next), NEXT_OFFSET) == Some(Num(Dec(next)))
    ensures Lookup(PageFields(fields, content, next), HINT) == Some(Str(HINT_TEXT + Dec(next) + [46]))
    ensures forall k :: k !in {CONTENT, TRUNCATED, NEXT_OFFSET, HINT} ==>
              Lookup(PageFields(fields, content, next), k) == Lookup(fields, k)
  {
    KeysDiffer();
    forall k
      ensures Lookup(PageFields(fields, content, next), k)
              == if k == HINT then Some(Str(HINT_TEXT + Dec(next) + [46]))
                 else if k == NEXT_OFFSET then Some(Num(Dec(next)))
                 else if k == TRUNCATED then Some(Bool(true))
                 else if k == CONTENT then Some(Str(content))
                 else Lookup(fields, k)
    {
      PageLookupAt(fields, content, next, k);
    }
  }

  lemma PageLookupAt(fields: Fields, content: Text, next: nat, k: Text)
    ensures Lookup(PageFields(fields, content, next), k)
            == if k == HINT then Some(Str(HINT_TEXT + Dec(next) + [46]))
               else if k == NEXT_OFFSET then Some(Num(Dec(next)))
               else if k == TRUNCATED then Some(Bool(true))
               else if k == CONTENT then Some(Str(content))
               else Lookup(fields, k)
  {
    var one := Put(fields, CONTENT, Str(content));
    var two := Put(one, TRUNCATED, Bool(true));
    var three := Put(two, NEXT_OFFSET, Num(Dec(next)));
    LookupPut(fields, CONTENT, Str(content), k);
    LookupPut(one, TRUNCATED, Bool(true), k);
    LookupPut(two, NEXT_OFFSET, Num(Dec(next)), k);
    LookupPut(three, HINT, Str(HINT_TEXT + Dec(next) + [46]), k);
  }

  /** An object is longer than any text it holds. */
  lemma {:induction false} RenderedFieldFits(fields: Fields, key: Text, c: Text)
    requires Lookup(fields, key) == Some(Str(c))
    ensures |RenderFields(fields, false)| >= |c| + 2
  {
    if fields[0].0 == key {
      assert |Render(Str(c), false)| >= |c| + 2;
      assert |RenderFields(fields, false)| >= |RenderField(fields[0], false)|;
    } else {
      RenderedFieldFits(fields[1..], key, c);
    }
  }

  // ------------------------------------------------------- pages read back

  lemma {:induction false} PutMembers(fields: Fields, key: Text, value: Value)
    ensures forall f :: f in Put(fields, key, value) ==> f in fields || f == (key, value)
  {
    if fields != [] && fields[0].0 != key {
      PutMembers(fields[1..], key, value);
    }
  }

  lemma {:induction false} WithoutMembers(fields: Fields, keys: set<Text>)
    ensures forall f :: f in Without(fields, keys) ==> f in fields
  {
    if fields != [] {
      WithoutMembers(fields[1..], keys);
    }
  }

  predicate FieldNumbersValid(fields: Fields) {
    forall f :: f in fields ==> JsonParser.NumbersValid(f.1)
  }

  lemma PutNumbers(fields: Fields, key: Text, value: Value)
    requires FieldNumbersValid(fields) && JsonParser.NumbersValid(value)
    ensures FieldNumbersValid(Put(fields, key, value))
  {
    PutMembers(fields, key, value);
  }

  lemma {:induction false} DecDigits(n: nat)
    ensures JsonGrammar.DigitCount(Dec(n)) == |Dec(n)| && (|Dec(n)| > 1 ==> Dec(n)[0] != 48)
    ensures n > 0 ==> Dec(n)[0] != 48
  {
    if n >= 10 {
      DecDigits(n / 10);
      DigitsThenDigit(Dec(n / 10), 48 + n % 10);
    }
  }

  lemma {:induction false} DigitsThenDigit(a: Text, d: CodePoint)
    requires JsonGrammar.DigitCount(a) == |a| && 48 <= d <= 57
    ensures JsonGrammar.DigitCount(a + [d]) == |a| + 1
  {
    if a == [] {
      assert a + [d] == [d] && [d][1..] == a;
    } else {
      assert (a + [d])[1..] == a[1..] + [d];
      DigitsThenDigit(a[1..], d);
    }
  }

  lemma DecIsNumber(n: nat)
    ensures JsonGrammar.IsNumber(Dec(n))
  {
    DecDigits(n);
    DecRoundTrip(n);
  }

  lemma PageNumbers(fields: Fields, content: Text, next: nat)
    requires FieldNumbersValid(fields)
    ensures FieldNumbersValid(PageFields(fields, content, next))
  {
    var one := Put(fields, CONTENT, Str(content));
    var two := Put(one, TRUNCATED, Bool(true));
    var three := Put(two, NEXT_OFFSET, Num(Dec(next)));
    DecIsNumber(next);
    PutNumbers(fields, CONTENT, Str(content));
    PutNumbers(one, TRUNCATED, Bool(true));
    PutNumbers(two, NEXT_OFFSET, Num(Dec(next)));
    PutNumbers(three, HINT, Str(HINT_TEXT + Dec(next) + [46]));
  }

  lemma FieldsReadBack(fields: Fields)
    requires FieldNumbersValid(fields)
    ensures JsonGrammar.ParseDocument(Render(Obj(fields), false)) == Some(Obj(fields))
  {
    JsonParser.RenderedReadsBack(Obj(fields), false);
    JsonParser.SeenPlainly(Obj(fields));
  }

  /** The text of a cut page is a JSON text, and a client that reads it gets the page. */
  lemma PageReadsBack(fields: Fields, content: Text, next: nat)
    requires FieldNumbersValid(fields)
    ensures JsonGrammar.ParseDocument(Render(Obj(PageFields(fields, content, next)), false))
            == Some(Obj(PageFields(fields, content, next)))
  {
    PageNumbers(fields, content, next);
    FieldsReadBack(PageFields(fields, content, next));
  }

  // -------------------------------------------------------------- the search

  /** The page with the first `k` lines of a numbered listing. */
  function NumberedPage(fields: Fields, texts: seq<Text>, from: nat, k: nat): Fields
    requires k <= |texts|
  {
    PageFields(fields, Numbered(texts[..k], from), from + k)
  }

  predicate FitsAt(fields: Fields, texts: seq<Text>, from: nat, limit: int, k: nat)
    requires k <= |texts|
  {
    FitsBoth(NumberedPage(fields, texts, from, k), limit)
  }

  lemma PageIsNumbered(fields: Fields, texts: seq<Text>, from: nat, k: nat)
    requires AllOneLine(texts) && 0 < k <= |texts|
    ensures var lines := Pieces(texts, from)[..k];
      lines != [] && Decimal(BeforeBar(lines[k - 1])) && Number(BeforeBar(lines[k - 1])) == from + k - 1
      && PageOf(fields, lines) == NumberedPage(fields, texts, from, k)
  {
    PieceNumber(texts, from, k - 1);
    KeptLines(texts, from, k);
  }

  /** `r` is the longest of the first `bound` pages that fits, or the single-line error. */
  ghost predicate LongestPage(fields: Fields, texts: seq<Text>, from: nat, limit: int, bound: nat, r: PageResult)
    requires bound <= |texts|
  {
    if r.Page? then
      exists k :: 0 < k <= bound && IsLongest(fields, texts, from, limit, bound, r, k)
    else
      r == LineTooLong && forall m :: 0 < m <= bound ==> !FitsAt(fields, texts, from, limit, m)
  }

  ghost predicate IsLongest(fields: Fields, texts: seq<Text>, from: nat, limit: int, bound: nat,
                            r: PageResult, k: nat)
    requires r.Page? && k <= bound <= |texts|
  {
    && r.page == NumberedPage(fields, texts, from, k) && r.structured == Structured(r.page)
    && r.next == from + k
    && FitsAt(fields, texts, from, limit, k)
    && forall m :: k < m <= bound ==> !FitsAt(fields, texts, from, limit, m)
  }

  lemma {:induction false} ShrinkFindsLongest(fields: Fields, texts: seq<Text>, from: nat, limit: int, g: nat)
    requires AllOneLine(texts) && g <= |texts|
    ensures LongestPage(fields, texts, from, limit, g, Shrink(fields, Pieces(texts, from)[..g], limit))
  {
    if g > 0 {
      var lines := Pieces(texts, from)[..g];
      PageIsNumbered(fields, texts, from, g);
      if FitsAt(fields, texts, from, limit, g) {
        ShrinkDone(fields, lines, limit);
        assert IsLongest(fields, texts, from, limit, g, Shrink(fields, lines, limit), g);
      } else {
        ShrinkStep(fields, lines, limit);
        assert lines[..g - 1] == Pieces(texts, from)[..g - 1];
        ShrinkFindsLongest(fields, texts, from, limit, g - 1);
        LongestOneMore(fields, texts, from, limit, g, Shrink(fields, lines, limit));
      }
    }
  }

  lemma LongestOneMore(fields: Fields, texts: seq<Text>, from: nat, limit: int, g: nat, r: PageResult)
    requires 0 < g <= |texts| && LongestPage(fields, texts, from, limit, g - 1, r)
    requires !FitsAt(fields, texts, from, limit, g)
    ensures LongestPage(fields, texts, from, limit, g, r)
  {
    if r.Page? {
      var k :| 0 < k <= g - 1 && IsLongest(fields, texts, from, limit, g - 1, r, k);
      assert IsLongest(fields, texts, from, limit, g, r, k);
    }
  }

  lemma {:induction false} GreedyStops(lines: seq<Text>, size: nat, limit: int, k: nat)
    requires Greedy(lines, size, limit) < k <= |lines|
    ensures size + |Concat(lines[..k])| > limit
  {
    assert lines[..k][0] == lines[0] && lines[..k][1..] == lines[1..][..k - 1];
    if size + |lines[0]| <= limit {
      GreedyStops(lines[1..], size + |lines[0]|, limit, k - 1);
    }
  }

  /** Lines beyond the raw budget cannot fit: quoting and braces cost more than the one
      newline that stripping saves. */
  lemma BeyondBudget(fields: Fields, texts: seq<Text>, from: nat, limit: int, k: nat)
    requires AllOneLine(texts) && 0 < k <= |texts|
    requires |Concat(Pieces(texts, from)[..k])| > limit
    ensures !FitsAt(fields, texts, from, limit, k)
  {
    var c := Numbered(texts[..k], from);
    KeptLines(texts, from, k);
    PageLookup(fields, c, from + k);
    RenderedFieldFits(NumberedPage(fields, texts, from, k), CONTENT, c);
  }

  lemma {:induction false} LongestWiden(fields: Fields, texts: seq<Text>, from: nat, limit: int, g: nat,
                                        bound: nat, r: PageResult)
    requires g <= bound <= |texts| && LongestPage(fields, texts, from, limit, g, r)
    requires forall k :: g < k <= bound ==> !FitsAt(fields, texts, from, limit, k)
    ensures LongestPage(fields, texts, from, limit, bound, r)
    decreases bound
  {
    if g < bound {
      LongestWiden(fields, texts, from, limit, g, bound - 1, r);
      LongestOneMore(fields, texts, from, limit, bound, r);
    }
  }

  /** The fields of a read that starts at line `from`. */
  predicate ReadOf(fields: Fields, texts: seq<Text>, from: nat) {
    AllOneLine(texts) && Lookup(fields, CONTENT) == Some(Str(Numbered(texts, from)))
  }

  /** A numbered listing is passed on whole when its structured value fits; otherwise the
      answer is the longest run of leading lines whose page fits both ways, and the
      single-line error exactly when no such run fits. */
  ghost predicate BestResponse(fields: Fields, texts: seq<Text>, from: nat, limit: int, r: PageResult) {
    if WholeFits(fields, limit) then r == Whole(Structured(fields))
    else LongestPage(fields, texts, from, limit, |texts|, r)
  }

  predicate WholeFits(fields: Fields, limit: int) {
    |Render(Obj(Structured(fields)), false)| <= limit
  }

  lemma CutIsBest(fields: Fields, texts: seq<Text>, from: nat, limit: int)
    requires ReadOf(fields, texts, from)
    ensures BestResponse(fields, texts, from, limit, Cut(Obj(fields), limit))
  {
    if !WholeFits(fields, limit) {
      var p := Pieces(texts, from);
      var g := Greedy(p, 0, limit);
      LinesOfNumbered(texts, from);
      ShrinkFindsLongest(fields, texts, from, limit, g);
      forall k | g < k <= |texts| ensures !FitsAt(fields, texts, from, limit, k) {
        GreedyStops(p, 0, limit, k);
        BeyondBudget(fields, texts, from, limit, k);
      }
      LongestWiden(fields, texts, from, limit, g, |texts|, Shrink(fields, p[..g], limit));
    }
  }

  // -------------------------------------------------------------- the reader

  /** `splitlines()` as a reader applies it to one response. */
  function WithoutEnds(lines: seq<Text>): (r: seq<Text>)
    ensures |r| == |lines|
  {
    if lines == [] then [] else [StripNewlines(lines[0])] + WithoutEnds(lines[1..])
  }

  function NumberedLines(texts: seq<Text>, from: nat): (r: seq<Text>)
    ensures |r| == |texts|
  {
    if texts == [] then [] else [NumberedLine(from, texts[0])] + NumberedLines(texts[1..], from + 1)
  }

  /** What a response shows of the file. */
  function Shown(structured: Fields): seq<Text> {
    match Lookup(structured, FILE_TEXT)
    case Some(Str(t)) => WithoutEnds(Lines(t))
    case _ => []
  }

  /** The `next_offset` of a response. */
  function NextOffset(structured: Fields): nat {
    match Lookup(structured, NEXT_OFFSET)
    case Some(Num(t)) => if Decimal(t) then Number(t) else 0
    case _ => 0
  }

  datatype Reading =
    | Finished(lines: seq<Text>)
    | Stopped(lines: seq<Text>, at: nat)
    | Astray

  function Before(lines: seq<Text>, r: Reading): Reading {
    match r
    case Finished(more) => Finished(lines + more)
    case Stopped(more, at) => Stopped(lines + more, at)
    case Astray => Astray
  }

  /** Reads from index `at` on; `responses[i]` answers the offset `from + i`. A
      `next_offset` that does not advance, or leaves the file, counts as astray. */
  function Follow(responses: seq<PageResult>, from: nat, at: nat): Reading
    decreases |responses| - at
  {
    if at >= |responses| then Astray
    else
      match responses[at]
      case Whole(s) => Finished(Shown(s))
      case Page(_, s, _) =>
        if from + at < NextOffset(s) < from + |responses| then
          Before(Shown(s), Follow(responses, from, NextOffset(s) - from))
        else Astray
      case LineTooLong => Stopped([], at)
      case _ => Astray
  }

  /** The native tool answers every offset with the rest of the file. */
  predicate ReadsOf(answers: seq<Fields>, texts: seq<Text>, from: nat) {
    && |answers| == |texts| + 1
    && forall i :: 0 <= i < |answers| ==> ReadOf(answers[i], texts[i..], from + i)
  }

  lemma {:induction false} ShownNumbered(texts: seq<Text>, from: nat)
    requires AllOneLine(texts)
    ensures WithoutEnds(Pieces(texts, from)) == NumberedLines(texts, from)
  {
    if texts != [] {
      NumberedLineShape(from, texts[0]);
      StripLine(NumberedLine(from, texts[0]));
      if |texts| > 1 {
        ShownNumbered(texts[1..], from + 1);
      }
    }
  }

  lemma ShownContent(fields: Fields, texts: seq<Text>, from: nat)
    requires ReadOf(fields, texts, from)
    ensures Shown(Structured(fields)) == NumberedLines(texts, from)
  {
    StructuredLookup(fields, Str(Numbered(texts, from)), FILE_TEXT);
    LinesOfNumbered(texts, from);
    ShownNumbered(texts, from);
  }

  /** A cut page shows exactly its lines and points at the line after them. */
  lemma PageShows(fields: Fields, texts: seq<Text>, from: nat, k: nat)
    requires AllOneLine(texts) && k <= |texts|
    ensures var s := Structured(NumberedPage(fields, texts, from, k));
      Shown(s) == NumberedLines(texts[..k], from) && NextOffset(s) == from + k
  {
    var c := Numbered(texts[..k], from);
    var page := NumberedPage(fields, texts, from, k);
    PageLookup(fields, c, from + k);
    ShownContent(page, texts[..k], from);
    KeysDiffer();
    StructuredLookup(page, Str(c), NEXT_OFFSET);
    DecRoundTrip(from + k);
  }

  lemma {:induction false} NumberedLinesSplit(texts: seq<Text>, from: nat, k: nat)
    requires k <= |texts|
    ensures NumberedLines(texts, from) == NumberedLines(texts[..k], from) + NumberedLines(texts[k..], from + k)
  {
    if k > 0 {
      assert texts[..k][1..] == texts[1..][..k - 1] && texts[k..] == texts[1..][k - 1..];
      NumberedLinesSplit(texts[1..], from + 1, k - 1);
    } else {
      assert texts[..0] == [] && texts[0..] == texts;
    }
  }

  /** Neither the whole answer nor any page cut from it fits. */
  ghost predicate NothingFits(fields: Fields, texts: seq<Text>, from: nat, limit: int) {
    && !WholeFits(fields, limit)
    && forall m: nat :: 0 < m <= |texts| ==> !FitsAt(fields, texts, from, limit, m)
  }

  /** The reader got every line from `at` on once and in order; or every line before the
      one at which no page fits. */
  ghost predicate Lossless(answers: seq<Fields>, texts: seq<Text>, from: nat, at: nat, limit: int, r: Reading)
    requires |answers| == |texts| + 1 && at <= |texts|
  {
    match r
    case Finished(lines) => lines == NumberedLines(texts[at..], from + at)
    case Stopped(lines, stop) =>
      && at <= stop <= |texts|
      && lines == NumberedLines(texts[at..stop], from + at)
      && NothingFits(answers[stop], texts[stop..], from + stop, limit)
    case Astray => false
  }

  lemma LinesBefore(texts: seq<Text>, from: nat, at: nat, k: nat, end: nat)
    requires at + k <= end <= |texts|
    ensures NumberedLines(texts[at..end], from + at)
            == NumberedLines(texts[at..][..k], from + at) + NumberedLines(texts[at + k..end], from + (at + k))
  {
    var part := texts[at..end];
    assert part[..k] == texts[at..][..k] && part[k..] == texts[at + k..end];
    NumberedLinesSplit(part, from + at, k);
  }

  lemma LosslessBefore(answers: seq<Fields>, texts: seq<Text>, from: nat, at: nat, k: nat, limit: int, r: Reading)
    requires |answers| == |texts| + 1 && at + k <= |texts|
    requires Lossless(answers, texts, from, at + k, limit, r)
    ensures Lossless(answers, texts, from, at, limit, Before(NumberedLines(texts[at..][..k], from + at), r))
  {
    match r
    case Stopped(_, stop) => LinesBefore(texts, from, at, k, stop);
    case Finished(_) =>
      LinesBefore(texts, from, at, k, |texts|);
      assert texts[at..|texts|] == texts[at..] && texts[at + k..|texts|] == texts[at + k..];
  }

  /** The response at `at` ends the reading, or carries the next `k` lines and leads to the
      line after them. */
  ghost predicate GoodStep(responses: seq<PageResult>, answers: seq<Fields>, texts: seq<Text>,
                           from: nat, limit: int, at: nat)
    requires |answers| == |texts| + 1 && at <= |texts|
  {
    || Lossless(answers, texts, from, at, limit, Follow(responses, from, at))
    || exists k :: 0 < k <= |texts| - at && LeadsTo(responses, texts, from, at, k)
  }

  predicate LeadsTo(responses: seq<PageResult>, texts: seq<Text>, from: nat, at: nat, k: nat)
    requires at + k <= |texts|
  {
    Follow(responses, from, at)
      == Before(NumberedLines(texts[at..][..k], from + at), Follow(responses, from, at + k))
  }

  lemma PageLeads(responses: seq<PageResult>, from: nat, at: nat, texts: seq<Text>, k: nat)
    requires |responses| == |texts| + 1 && 0 < k && at + k <= |texts|
    requires responses[at].Page? && NextOffset(responses[at].structured) == from + at + k
    requires Shown(responses[at].structured) == NumberedLines(texts[at..][..k], from + at)
    ensures LeadsTo(responses, texts, from, at, k)
  {
  }

  lemma BestIsGood(responses: seq<PageResult>, answers: seq<Fields>, texts: seq<Text>,
                   from: nat, limit: int, at: nat)
    requires |responses| == |answers| == |texts| + 1 && at <= |texts|
    requires ReadOf(answers[at], texts[at..], from + at)
    requires BestResponse(answers[at], texts[at..], from + at, limit, responses[at])
    ensures GoodStep(responses, answers, texts, from, limit, at)
  {
    var fields, rest, r := answers[at], texts[at..], responses[at];
    if r.Page? {
      var k :| 0 < k <= |rest| && IsLongest(fields, rest, from + at, limit, |rest|, r, k);
      PageShows(fields, rest, from + at, k);
      PageLeads(responses, from, at, texts, k);
    } else if r.Whole? {
      ShownContent(fields, rest, from + at);
    } else {
      assert texts[at..at] == [];
    }
  }

  lemma {:induction false} FollowIsLossless(responses: seq<PageResult>, answers: seq<Fields>, texts: seq<Text>,
                                            from: nat, limit: int, at: nat)
    requires |answers| == |texts| + 1 && at <= |texts|
    requires forall i: nat :: i <= |texts| ==> GoodStep(responses, answers, texts, from, limit, i)
    ensures Lossless(answers, texts, from, at, limit, Follow(responses, from, at))
    decreases |texts| - at
  {
    assert GoodStep(responses, answers, texts, from, limit, at);
    if !Lossless(answers, texts, from, at, limit, Follow(responses, from, at)) {
      var k :| 0 < k <= |texts| - at && LeadsTo(responses, texts, from, at, k);
      FollowIsLossless(responses, answers, texts, from, limit, at + k);
      LosslessBefore(answers, texts, from, at, k, limit, Follow(responses, from, at + k));
    }
  }

  /** What the Gateway answers to a read at each offset. */
  function Responses(answers: seq<Fields>, limit: int): (r: seq<PageResult>)
    ensures |r| == |answers|
  {
    seq(|answers|, i requires 0 <= i < |answers| => Cut(Obj(answers[i]), limit))
  }

  /** Following `next_offset` always advances, ends, and loses, repeats and reorders no line. */
  lemma LosslessPagination(answers: seq<Fields>, texts: seq<Text>, from: nat, at: nat, limit: int)
    requires ReadsOf(answers, texts, from) && at <= |texts|
    ensures Lossless(answers, texts, from, at, limit, Follow(Responses(answers, limit), from, at))
  {
    var responses := Responses(answers, limit);
    forall i: nat | i <= |texts|
      ensures GoodStep(responses, answers, texts, from, limit, i)
    {
      CutIsBest(answers[i], texts[i..], from + i, limit);
      BestIsGood(responses, answers, texts, from, limit, i);
    }
    FollowIsLossless(responses, answers, texts, from, limit, at);
  }
}
