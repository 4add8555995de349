/** What `_structured_read_file_result` answers to any payload, numbered or not. */
module PageCuts {
  import opened Common
  import opened Json
  import opened ReadFilePages

  // -------------------------------------------------------------------- lines

  /** A line of `splitlines(keepends=True)`: text without a boundary, then at most one. */
  predicate IsLine(s: Text) {
    s != [] && forall i :: 0 <= i < |s| && IsBreak(s[i]) ==> i == |s| - 1 || (i == |s| - 2 && s[i..] == [13, 10])
  }

  predicate EndsInBreak(s: Text) {
    s != [] && IsBreak(s[|s| - 1])
  }

  /** A carriage return and the newline after it were taken apart. */
  predicate SplitPair(a: Text, b: Text) {
    a != [] && b != [] && a[|a| - 1] == 13 && b[0] == 10
  }

  lemma {:induction false} FirstLineIsLine(s: Text)
    requires s != []
    ensures IsLine(s[..LineLength(s)])
    ensures LineLength(s) < |s| ==> IsBreak(s[LineLength(s) - 1])
    ensures LineLength(s) < |s| ==> !(s[LineLength(s) - 1] == 13 && s[LineLength(s)] == 10)
    decreases |s|
  {
    var n := LineLength(s);
    if !IsBreak(s[0]) && |s| > 1 {
      FirstLineIsLine(s[1..]);
      assert s[..n] == [s[0]] + s[1..][..n - 1];
    }
  }

  /** The lines of a text make up the text, and each is one line; only the last may lack its
      boundary. */
  lemma {:induction false} LinesMakeText(s: Text)
    ensures Concat(Lines(s)) == s
    ensures forall i :: 0 <= i < |Lines(s)| ==> IsLine(Lines(s)[i])
    ensures forall i :: 0 <= i < |Lines(s)| - 1 ==> EndsInBreak(Lines(s)[i])
    ensures forall i :: 0 <= i < |Lines(s)| - 1 ==> !SplitPair(Lines(s)[i], Lines(s)[i + 1])
    decreases |s|
  {
    if s != [] {
      var n := LineLength(s);
      FirstLineIsLine(s);
      LinesMakeText(s[n..]);
      assert s == s[..n] + s[n..];
    }
  }

  /** The text before the first bar, or all of it. */
  lemma {:induction false} BeforeBarExactly(s: Text)
    ensures var n := |BeforeBar(s)|;
      n <= |s| && BeforeBar(s) == s[..n] && BAR !in s[..n] && (n < |s| ==> s[n] == BAR)
  {
    if s != [] && s[0] != BAR {
      BeforeBarExactly(s[1..]);
      var n := |BeforeBar(s)|;
      assert s[..n] == [s[0]] + s[1..][..n - 1];
    }
  }

  // ------------------------------------------------------------------- budget

  /** As many leading lines as the raw budget admits, and no more. */
  predicate WithinBudget(lines: seq<Text>, g: nat, limit: int) {
    && g <= |lines|
    && (g > 0 ==> |Concat(lines[..g])| <= limit)
    && (g < |lines| ==> |Concat(lines[..g + 1])| > limit)
  }

  lemma {:induction false} GreedyWithinBudget(lines: seq<Text>, size: nat, limit: int)
    ensures var g := Greedy(lines, size, limit);
      && (g > 0 ==> size + |Concat(lines[..g])| <= limit)
      && (g < |lines| ==> size + |Concat(lines[..g + 1])| > limit)
  {
    if lines != [] {
      var g := Greedy(lines, size, limit);
      assert lines[..1] == [lines[0]] && Concat([lines[0]]) == lines[0] + Concat([]);
      if g > 0 {
        GreedyWithinBudget(lines[1..], size + |lines[0]|, limit);
        assert lines[..g][0] == lines[0] && lines[..g][1..] == lines[1..][..g - 1];
        if g < |lines| {
          assert lines[..g + 1][0] == lines[0] && lines[..g + 1][1..] == lines[1..][..g];
        }
      }
    }
  }

  // --------------------------------------------------------------------- cuts

  /** The `k`-th line shows a line number. */
  predicate NumberedAt(lines: seq<Text>, k: nat)
    requires 0 < k <= |lines|
  {
    Decimal(BeforeBar(lines[k - 1]))
  }

  /** The page that ends after the `k`-th line fits, as text and as structured value. */
  predicate PageFits(fields: Fields, lines: seq<Text>, limit: int, k: nat)
    requires 0 < k <= |lines|
  {
    && NumberedAt(lines, k)
    && |Render(Obj(PageOf(fields, lines[..k])), false)| <= limit
    && |Render(Obj(Structured(PageOf(fields, lines[..k]))), false)| <= limit
  }

  /** A page that ends after the `k`-th line is possible but too large. */
  predicate TooLarge(fields: Fields, lines: seq<Text>, limit: int, k: nat)
    requires 0 < k <= |lines|
  {
    NumberedAt(lines, k) && !PageFits(fields, lines, limit, k)
  }

  /** Every page longer than `k` lines, up to `g`, is possible but too large. */
  predicate LongerTooLarge(fields: Fields, lines: seq<Text>, limit: int, k: nat, g: nat)
    requires g <= |lines|
  {
    forall m :: k < m <= g ==> TooLarge(fields, lines, limit, m)
  }

  /** The answer, given where the search stops: at the last line count `k` whose page fits or
      whose last line has no number; 0 if there is none. */
  ghost predicate CutAt(fields: Fields, lines: seq<Text>, limit: int, r: PageResult, k: nat, g: nat)
    requires k <= g <= |lines|
  {
    && LongerTooLarge(fields, lines, limit, k, g)
    && if k == 0 then r == LineTooLong
       else if !NumberedAt(lines, k) then r == NotNumbered
       else
         && PageFits(fields, lines, limit, k)
         && var next := Number(BeforeBar(lines[k - 1])) + 1;
            r == Page(PageFields(fields, KeptContent(lines[..k]), next),
                      Structured(PageFields(fields, KeptContent(lines[..k]), next)), next)
  }

  lemma StopsHere(fields: Fields, lines: seq<Text>, limit: int, g: nat)
    requires 0 < g <= |lines| && !TooLarge(fields, lines, limit, g)
    ensures CutAt(fields, lines, limit, Shrink(fields, lines[..g], limit), g, g)
  {
    var part := lines[..g];
    assert part[g - 1] == lines[g - 1];
    if NumberedAt(lines, g) {
      ShrinkDone(fields, part, limit);
    }
  }

  lemma DropsLast(fields: Fields, lines: seq<Text>, limit: int, g: nat)
    requires 0 < g <= |lines| && TooLarge(fields, lines, limit, g)
    ensures Shrink(fields, lines[..g], limit) == Shrink(fields, lines[..g - 1], limit)
  {
    var part := lines[..g];
    assert part[g - 1] == lines[g - 1] && part[..g - 1] == lines[..g - 1];
    ShrinkStep(fields, part, limit);
  }

  lemma CutOneMore(fields: Fields, lines: seq<Text>, limit: int, r: PageResult, k: nat, g: nat)
    requires k < g <= |lines| && TooLarge(fields, lines, limit, g) && CutAt(fields, lines, limit, r, k, g - 1)
    ensures CutAt(fields, lines, limit, r, k, g)
  {
  }

  lemma {:induction false} ShrinkStopsAt(fields: Fields, lines: seq<Text>, limit: int, g: nat) returns (k: nat)
    requires g <= |lines|
    ensures k <= g && CutAt(fields, lines, limit, Shrink(fields, lines[..g], limit), k, g)
  {
    k := g;
    if g > 0 {
      if TooLarge(fields, lines, limit, g) {
        DropsLast(fields, lines, limit, g);
        k := ShrinkStopsAt(fields, lines, limit, g - 1);
        CutOneMore(fields, lines, limit, Shrink(fields, lines[..g], limit), k, g);
      } else {
        StopsHere(fields, lines, limit, g);
      }
    }
  }

  /** The text content of a payload that is an object with one. */
  function ContentOf(payload: Value): Option<Text> {
    if payload.Obj? then
      match Lookup(payload.fields, CONTENT)
      case Some(Str(t)) => Some(t)
      case _ => None
    else
      None
  }

  /** The answer to any payload and any limit. Without a text content it is passed through.
      If the structured value fits, it is the whole. Otherwise the lines within the raw budget
      are dropped from the end: past every page that is too large, until a page fits, a line
      without a number is met, or no line is left. */
  lemma CutExactly(payload: Value, limit: int) returns (g: nat, k: nat)
    ensures Cut(payload, limit) == PassThrough <==> ContentOf(payload) == None
    ensures ContentOf(payload).Some? && |Render(Obj(Structured(payload.fields)), false)| <= limit ==>
              Cut(payload, limit) == Whole(Structured(payload.fields))
    ensures ContentOf(payload).Some? && |Render(Obj(Structured(payload.fields)), false)| > limit ==>
              var lines := Lines(ContentOf(payload).value);
              && WithinBudget(lines, g, limit) && k <= g
              && CutAt(payload.fields, lines, limit, Cut(payload, limit), k, g)
  {
    g, k := 0, 0;
    if ContentOf(payload).Some? {
      var lines := Lines(ContentOf(payload).value);
      g := Greedy(lines, 0, limit);
      GreedyWithinBudget(lines, 0, limit);
      k := ShrinkStopsAt(payload.fields, lines, limit, g);
    }
  }
}
