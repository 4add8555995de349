/** `json_result`: a rendering within the limit, or the longest preview of it that fits. */
module JsonResult {
  import opened Common
  import opened Json
  import opened JsonGrammar
  import opened JsonParser

  const TRUNCATED := Ascii("truncated")
  const PREVIEW := Ascii("preview")

  /** `json.dumps({"truncated": True, "preview": preview}, ensure_ascii=True)`. */
  function Envelope(preview: Text): Text {
    Render(Obj([(TRUNCATED, Bool(true)), (PREVIEW, Str(preview))]), true)
  }

  /** Everything of an envelope before its preview string starts. */
  function Head(): Text {
    [123] + (RenderField((TRUNCATED, Bool(true)), true) + Ascii(", ")
             + (Quote(PREVIEW, true) + Ascii(": ") + [QUOTE]))
  }

  lemma TwoFields(f: (Text, Value), g: (Text, Value))
    ensures RenderFields([f, g], true) == RenderField(f, true) + Ascii(", ") + RenderField(g, true)
  {
    assert [f, g][1..] == [g];
  }

  lemma Regroup(a: Text, b: Text, c: Text, d: Text, e: Text)
    ensures [a[0]] + (b + (c + ([QUOTE] + d + [QUOTE]))) + e == ([a[0]] + (b + (c + [QUOTE]))) + (d + [QUOTE] + e)
    requires a != []
  {
  }

  lemma EnvelopeShape(preview: Text)
    ensures Envelope(preview) == Head() + (Escape(preview, true) + [QUOTE] + [125])
  {
    TwoFields((TRUNCATED, Bool(true)), (PREVIEW, Str(preview)));
    Regroup([123], RenderField((TRUNCATED, Bool(true)), true) + Ascii(", "),
            Quote(PREVIEW, true) + Ascii(": "), Escape(preview, true), [125]);
  }

  /** Characters that stand for themselves in a JSON string. */
  predicate Plain(t: Text) {
    forall i :: 0 <= i < |t| ==> 32 <= t[i] <= 126 && t[i] != QUOTE && t[i] != BACKSLASH
  }

  lemma {:induction false} PlainEscape(t: Text, ascii: bool)
    requires Plain(t)
    ensures Escape(t, ascii) == t
  {
    if t != [] {
      PlainEscape(t[1..], ascii);
    }
  }

  /** A name in quotes, a colon and a blank. */
  function Name(t: Text): Text {
    [34] + t + [34, 58, 32]
  }

  lemma NamedField(name: Text, v: Value)
    requires Plain(name)
    ensures RenderField((name, v), true) == Name(name) + Render(v, true)
  {
    PlainEscape(name, true);
    assert Ascii(": ") == [58, 32];
    assert Quote(name, true) + Ascii(": ") == Name(name);
  }

  lemma NamesPlain()
    ensures Plain(TRUNCATED) && Plain(PREVIEW)
  {
  }

  /** What stands in front of the second field's text. */
  function Front(a: Text, b: Text): Text {
    [123] + Name(a) + Ascii("true") + [44, 32] + Name(b) + [34]
  }

  lemma TwoNames(a: Text, b: Text)
    requires Plain(a) && Plain(b)
    ensures [123] + (RenderField((a, Bool(true)), true) + Ascii(", ") + (Quote(b, true) + Ascii(": ") + [QUOTE]))
            == Front(a, b)
  {
    NamedField(a, Bool(true));
    PlainEscape(b, true);
    assert Ascii(", ") == [44, 32] && Ascii(": ") == [58, 32];
    assert Quote(b, true) + Ascii(": ") + [QUOTE] == Name(b) + [34];
  }

  lemma EnvelopeOf(front: Text, inner: Text)
    ensures front + (inner + [QUOTE] + [125]) == front + inner + [34, 125]
  {
  }

  /** The envelope character by character; the empty one takes 34. */
  lemma EnvelopeText(preview: Text)
    ensures Envelope(preview) == Front(TRUNCATED, PREVIEW) + Escape(preview, true) + [34, 125]
    ensures |Envelope(preview)| == 34 + |Escape(preview, true)|
  {
    EnvelopeShape(preview);
    NamesPlain();
    TwoNames(TRUNCATED, PREVIEW);
    EnvelopeOf(Front(TRUNCATED, PREVIEW), Escape(preview, true));
  }

  /** The preview of a text, if the text is a JSON object `{"truncated": true, "preview": …}`. */
  function DecodeEnvelope(t: Text): Option<Text> {
    match ParseDocument(t)
    case Some(Obj(fields)) =>
      if |fields| == 2 && fields[0] == (TRUNCATED, Bool(true)) && fields[1].0 == PREVIEW && fields[1].1.Str? then
        Some(fields[1].1.text)
      else None
    case _ => None
  }

  lemma PrintableUnits(t: Text)
    requires Printable(t)
    ensures Units(t) == t
  {
    forall i | 0 <= i < |t| ensures t[i] < 0x10000 {
      assert t[i] in t;
    }
    UnitsOfBasic(t);
  }

  lemma NamesPrintable()
    ensures Printable(TRUNCATED) && Printable(PREVIEW)
  {
    AsciiWord("truncated");
    AsciiWord("preview");
  }

  lemma SeenPair(f: (Text, Value), g: (Text, Value))
    ensures SeenFields([f, g], true) == [SeenField(f, true), SeenField(g, true)]
  {
    assert [f, g][1..] == [g];
    assert SeenFields([g], true) == [SeenField(g, true)];
  }

  lemma EnvelopeSeen(preview: Text)
    requires Printable(preview)
    ensures SeenFields([(TRUNCATED, Bool(true)), (PREVIEW, Str(preview))], true)
            == [(TRUNCATED, Bool(true)), (PREVIEW, Str(preview))]
  {
    var f, g := (TRUNCATED, Bool(true)), (PREVIEW, Str(preview));
    NamesPrintable();
    PrintableUnits(TRUNCATED);
    PrintableUnits(PREVIEW);
    PrintableUnits(preview);
    assert SeenField(f, true) == f && SeenField(g, true) == g;
    SeenPair(f, g);
  }

  /** Every envelope is a JSON text, and its preview is the text that was put in. */
  lemma EnvelopeDecodes(preview: Text)
    requires Printable(preview)
    ensures DecodeEnvelope(Envelope(preview)) == Some(preview)
    ensures ParseDocument(Envelope(preview)) == Some(Obj([(TRUNCATED, Bool(true)), (PREVIEW, Str(preview))]))
  {
    EnvelopeSeen(preview);
    RenderedReadsBack(Obj([(TRUNCATED, Bool(true)), (PREVIEW, Str(preview))]), true);
  }

  /** The length of the envelope around the first `k` characters. */
  function EnvelopeSize(rendered: Text, k: nat): nat
    requires k <= |rendered|
  {
    |Envelope(rendered[..k])|
  }

  lemma EnvelopeGrows(rendered: Text, i: nat, j: nat)
    requires i <= j <= |rendered|
    ensures EnvelopeSize(rendered, j) >= EnvelopeSize(rendered, i) + (j - i)
    ensures EnvelopeSize(rendered, j) > j
  {
    EnvelopeShape(rendered[..i]);
    EnvelopeShape(rendered[..j]);
    EscapedPrefixGrows(rendered, i, j, true);
  }

  datatype TextResult = TextOk(text: Text) | LimitTooSmall

  /** What the caller gets: the rendering itself if it fits; an error if not even an empty
      envelope fits; otherwise an envelope within the limit that decodes to a proper prefix
      of the rendering, and no longer prefix has an envelope that fits. */
  ghost predicate IsTruncation(rendered: Text, limit: int, r: TextResult) {
    if |rendered| <= limit then r == TextOk(rendered)
    else if |Envelope([])| > limit then r == LimitTooSmall
    else r.TextOk? && exists k :: 0 <= k < |rendered| && LongestPreview(rendered, limit, r.text, k)
  }

  ghost predicate LongestPreview(rendered: Text, limit: int, text: Text, k: nat)
    requires k <= |rendered|
  {
    && text == Envelope(rendered[..k]) && |text| <= limit
    && DecodeEnvelope(text) == Some(rendered[..k])
    && forall m :: k < m <= |rendered| ==> EnvelopeSize(rendered, m) > limit
  }

  /** The binary search for the longest prefix whose envelope fits. */
  method LongestFit(rendered: Text, limit: int) returns (low: nat)
    requires |rendered| > limit && |Envelope([])| <= limit
    ensures low < |rendered| && EnvelopeSize(rendered, low) <= limit
    ensures forall m :: low < m <= |rendered| ==> EnvelopeSize(rendered, m) > limit
  {
    var high := if |rendered| <= limit then |rendered| else limit;
    low := 0;
    assert rendered[..0] == [];
    forall m | high < m <= |rendered| ensures EnvelopeSize(rendered, m) > limit {
      EnvelopeGrows(rendered, 0, m);
    }
    while low < high
      invariant 0 <= low <= high <= limit < |rendered|
      invariant EnvelopeSize(rendered, low) <= limit
      invariant forall m :: high < m <= |rendered| ==> EnvelopeSize(rendered, m) > limit
    {
      var middle := (low + high + 1) / 2;
      if |Envelope(rendered[..middle])| <= limit {
        low := middle;
      } else {
        forall m | middle <= m <= |rendered| ensures EnvelopeSize(rendered, m) > limit {
          EnvelopeGrows(rendered, middle, m);
        }
        high := middle - 1;
      }
    }
  }

  lemma LongestFitIsTruncation(rendered: Text, limit: int, low: nat)
    requires Printable(rendered) && limit < |rendered| && low < |rendered| && |Envelope([])| <= limit
    requires EnvelopeSize(rendered, low) <= limit
    requires forall m :: low < m <= |rendered| ==> EnvelopeSize(rendered, m) > limit
    ensures IsTruncation(rendered, limit, TextOk(Envelope(rendered[..low])))
  {
    PrintablePrefix(rendered, low);
    EnvelopeDecodes(rendered[..low]);
    assert LongestPreview(rendered, limit, Envelope(rendered[..low]), low);
  }

  /** The whole of `json_result`. What it returns is a JSON text: the payload's own reading
      when it fits, provided its numbers are JSON numbers, and otherwise an envelope. */
  method JsonText(payload: Value, limit: int) returns (r: TextResult)
    requires NumbersPrintable(payload)
    ensures IsTruncation(Render(payload, true), limit, r)
    ensures r.TextOk? && r.text == Render(payload, true) && NumbersValid(payload) ==>
              ParseDocument(r.text) == Some(SeenValue(payload, true))
    ensures r.TextOk? && |Render(payload, true)| > limit ==> ParseDocument(r.text).Some? && |r.text| <= limit
  {
    var rendered := Render(payload, true);
    RenderPrintable(payload);
    if NumbersValid(payload) {
      RenderedReadsBack(payload, true);
    }
    if |rendered| <= limit {
      return TextOk(rendered);
    }
    if |Envelope([])| > limit {
      return LimitTooSmall;
    }
    var low := LongestFit(rendered, limit);
    LongestFitIsTruncation(rendered, limit, low);
    PrintablePrefix(rendered, low);
    EnvelopeDecodes(rendered[..low]);
    return TextOk(Envelope(rendered[..low]));
  }
}
