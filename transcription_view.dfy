/**
 * The transcript view's keyword logic (src/components/TranscriptionView.tsx):
 * `containsAlertKeyword`, which flags an entry when any rule matches it, and
 * `highlightKeywords`, which wraps every whole-word occurrence of each rule's
 * keyword in a coloured `<span>`, one rule after the other.
 */
module TranscriptionView {
  import opened Types
  import opened Text
  import opened WholeWord
  import opened AlertSystem

  /**
   * `containsAlertKeyword`: some rule's keyword occurs in `text` as a whole
   * word, ignoring case, whether or not the rule has sound on.
   */
  function ContainsAlertKeyword(alerts: seq<Alert>, text: string): (b: bool)
    ensures b <==> exists i :: 0 <= i < |alerts| && WholeWordMatchCI(alerts[i].keyword, text)
  {
    if alerts == [] then false
    else WholeWordMatchCI(alerts[0].keyword, text) || ContainsAlertKeyword(alerts[1..], text)
  }

  /** The opening tag the replacer writes for a rule of colour `color`: a `span` element's start tag. */
  function OpenTag(color: string): (r: string)
    ensures |r| > 6 && r[..6] == "<span " && r[|r| - 1] == '>'
  {
    "<span class=\"bg-" + color + "-200 text-" + color + "-800 px-1 rounded font-medium\">"
  }

  /** The closing tag the replacer writes. */
  function CloseTag(): string {
    "</span>"
  }

  /**
   * The replaced text: plain pieces as they are, each match wrapped in a span
   * of `color`. Rendering only adds characters, and adds some exactly when a
   * piece is marked; without marked pieces it is the text itself.
   */
  function Render(ps: seq<Piece>, color: string): (r: string)
    ensures |r| >= |Texts(ps)|
    ensures MarkedCount(ps) > 0 ==> |r| > |Texts(ps)|
    ensures MarkedCount(ps) == 0 ==> r == Texts(ps)
  {
    if ps == [] then []
    else
      (match ps[0]
       case Plain(t) => t
       case Marked(t) => OpenTag(color) + t + CloseTag())
      + Render(ps[1..], color)
  }

  /** A single plain piece renders as its own text. */
  lemma RenderPlain(t: string, color: string)
    ensures Render([Plain(t)], color) == t
  {
    assert [Plain(t)][1..] == [];
  }

  /**
   * `result.replace(regex, match => span)` for one rule: every whole-word
   * occurrence of the rule's keyword, left to right and without overlap, is
   * replaced by a span of the rule's colour holding the matched text as it
   * was. The text changes exactly when the keyword occurs in it as a whole
   * word, and then it grows.
   */
  function HighlightRule(a: Alert, text: string): (r: string)
    ensures |r| >= |text|
    ensures r == text <==> !WholeWordMatchCI(a.keyword, text)
  {
    var ps := Split(a.keyword, text);
    if WholeWordMatchCI(a.keyword, text) then
      SplitMarksIffMatch(a.keyword, text);
      Render(ps, a.color)
    else
      SplitNoMatch(a.keyword, text);
      RenderPlain(text, a.color);
      Render(ps, a.color)
  }

  /**
   * The rules applied in list order, each to the previous rule's output: the
   * text comes out unchanged or longer.
   */
  function Highlighted(alerts: seq<Alert>, text: string): (r: string)
    ensures r == text || |r| > |text|
  {
    if alerts == [] then text
    else HighlightRule(alerts[|alerts| - 1], Highlighted(alerts[..|alerts| - 1], text))
  }

  /**
   * `highlightKeywords`: with no rules the text itself; otherwise `result`
   * starts as the text and each rule, in list order, rewrites it.
   */
  method HighlightKeywords(alerts: seq<Alert>, text: string) returns (result: string)
    ensures result == Highlighted(alerts, text)
    ensures alerts == [] ==> result == text
  {
    if |alerts| == 0 {
      return text;
    }
    result := text;
    for i := 0 to |alerts|
      invariant result == Highlighted(alerts[..i], text)
    {
      assert alerts[..i + 1][..i] == alerts[..i];
      result := HighlightRule(alerts[i], result);
    }
    assert alerts[..|alerts|] == alerts;
  }

  /** When no rule matches the original text, highlighting returns it unchanged. */
  lemma {:induction false} HighlightNoMatchUnchanged(alerts: seq<Alert>, text: string)
    requires !ContainsAlertKeyword(alerts, text)
    ensures Highlighted(alerts, text) == text
  {
    if alerts != [] {
      var init := alerts[..|alerts| - 1];
      assert !ContainsAlertKeyword(init, text) by {
        forall i | 0 <= i < |init|
          ensures !WholeWordMatchCI(init[i].keyword, text)
        {
          assert init[i] == alerts[i];
        }
      }
      HighlightNoMatchUnchanged(init, text);
    }
  }

  /** Two rule lists that agree on every keyword and colour, position by position. */
  predicate SameKeywordsAndColors(a: seq<Alert>, b: seq<Alert>) {
    |a| == |b| && forall i :: 0 <= i < |a| ==> a[i].keyword == b[i].keyword && a[i].color == b[i].color
  }

  /** Highlighting reads only keywords and colours, never `soundEnabled`. */
  lemma {:induction false} HighlightIgnoresSound(a: seq<Alert>, b: seq<Alert>, text: string)
    requires SameKeywordsAndColors(a, b)
    ensures Highlighted(a, text) == Highlighted(b, text)
  {
    if a != [] {
      var n := |a| - 1;
      assert SameKeywordsAndColors(a[..n], b[..n]);
      HighlightIgnoresSound(a[..n], b[..n], text);
    }
  }

  /** Toggling a rule's sound changes neither the flag on an entry nor its highlighting. */
  lemma ToggleKeepsView(alerts: seq<Alert>, id: string, text: string)
    ensures ContainsAlertKeyword(ToggleSound(alerts, id), text) == ContainsAlertKeyword(alerts, text)
    ensures Highlighted(ToggleSound(alerts, id), text) == Highlighted(alerts, text)
  {
    var t := ToggleSound(alerts, id);
    assert forall i :: 0 <= i < |t| ==> t[i].keyword == alerts[i].keyword && t[i].color == alerts[i].color;
    HighlightIgnoresSound(t, alerts, text);
  }

  /** A text that is one whole match is cut into an empty piece, the match and an empty piece. */
  lemma PrazoPieces()
    ensures Split("prazo", "prazo") == [Plain(""), Marked("prazo"), Plain("")]
  {
    var s := "prazo";
    assert s[0..5] == "prazo" && s[0..0] == "" && s[5..] == "";
    assert MatchesAt("prazo", s, 0);
    assert FindMatch("prazo", s, 0) == Some(0);
    assert Occurrences("prazo", s, 5, 5) == [Plain("")];
  }

  /** A lone match between two empty pieces renders as the match inside a span. */
  lemma RenderLoneMatch(t: string, color: string)
    ensures Render([Plain(""), Marked(t), Plain("")], color) == OpenTag(color) + t + CloseTag()
  {
    var ps := [Plain(""), Marked(t), Plain("")];
    assert ps[1..] == [Marked(t), Plain("")];
    assert ps[1..][1..] == [Plain("")];
    RenderPlain("", color);
  }

  /** The highlighted form of "prazo" under its own rule: the word wrapped in a yellow span. */
  lemma HighlightPrazo()
    ensures HighlightRule(Alert("3", "prazo", Medium, "yellow", true), "prazo")
      == OpenTag("yellow") + "prazo" + CloseTag()
  {
    PrazoPieces();
    RenderLoneMatch("prazo", "yellow");
  }

  /** "prazo" holds no whole-word "span". */
  lemma NoSpanInPrazo()
    ensures !WholeWordMatchCI("span", "prazo")
  {
    var s := "prazo";
    LowerAt("span", 0);
    LowerAt(s[0..4], 0);
    LowerAt(s[1..5], 0);
    assert s[0..4][0] == 'p' && s[1..5][0] == 'r';
    assert forall i :: !MatchesAt("span", s, i);
  }

  /** The opening tag of any colour holds the whole word "span" at position 1. */
  lemma SpanInMarkup(color: string, t: string)
    ensures WholeWordMatchCI("span", OpenTag(color) + t + CloseTag())
  {
    var out := OpenTag(color) + t + CloseTag();
    assert out[..6] == "<span ";
    assert out[1..5] == "span";
    assert MatchesAt("span", out, 1);
  }

  /**
   * Later rules run over the markup earlier rules inserted: a rule for "span"
   * finds a whole-word match in the highlighted "prazo" although "prazo"
   * itself contains no "span".
   */
  lemma LaterRuleMatchesMarkup()
    ensures !WholeWordMatchCI("span", "prazo")
    ensures WholeWordMatchCI("span", HighlightRule(Alert("3", "prazo", Medium, "yellow", true), "prazo"))
  {
    NoSpanInPrazo();
    HighlightPrazo();
    SpanInMarkup("yellow", "prazo");
  }
}
