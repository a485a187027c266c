/**
 * The page that wires the registry to the transcript (src/pages/Index.tsx):
 * its initial rule list and the effect that picks the alert sound to play for
 * the latest transcript entry.
 */
module IndexPage {
  import opened Types
  import opened Text
  import opened WholeWord
  import opened AlertSystem

  /**
   * The four rules the page starts with: pairwise different ids, each with
   * the colour of its priority and sound on.
   */
  function InitialAlerts(): (r: seq<Alert>)
    ensures |r| == 4
    ensures forall i, j :: 0 <= i < j < |r| ==> r[i].id != r[j].id
    ensures forall i :: 0 <= i < |r| ==> r[i].color == PriorityColor(r[i].priority) && r[i].soundEnabled
  {
    var r := [ Alert("1", "decisão", High, "red", true),
               Alert("2", "orçamento", Medium, "yellow", true),
               Alert("3", "prazo", Medium, "yellow", true),
               Alert("4", "aprovado", Low, "green", true) ];
    assert r[0].id[0] == '1' && r[1].id[0] == '2' && r[2].id[0] == '3' && r[3].id[0] == '4';
    r
  }

  /** Keywords whose first characters differ after folding, and are not white space, are valid. */
  lemma ValidByFirstChars(alerts: seq<Alert>)
    requires forall i :: 0 <= i < |alerts| ==> |alerts[i].keyword| > 0
    requires forall i :: 0 <= i < |alerts| ==> !IsJsWhiteSpace(alerts[i].keyword[0])
    requires forall i, j :: 0 <= i < j < |alerts| ==>
      FoldChar(alerts[i].keyword[0]) != FoldChar(alerts[j].keyword[0])
    ensures RegistryValid(alerts)
  {
    forall i, j | 0 <= i < j < |alerts|
      ensures Lower(alerts[i].keyword) != Lower(alerts[j].keyword)
    {
      LowerAt(alerts[i].keyword, 0);
      LowerAt(alerts[j].keyword, 0);
    }
  }

  /** The initial keywords are non-blank and start with four different small letters. */
  lemma InitialKeywordsValid()
    ensures RegistryValid(InitialAlerts())
  {
    var a := InitialAlerts();
    assert a[0].keyword[0] == 'd' && a[1].keyword[0] == 'o';
    assert a[2].keyword[0] == 'p' && a[3].keyword[0] == 'a';
    ValidByFirstChars(a);
  }

  /** A rule that would sound for `text`: sound on and a whole-word match. */
  predicate Sounds(a: Alert, text: string) {
    a.soundEnabled && WholeWordMatchCI(a.keyword, text)
  }

  /**
   * The scan `alerts.find(...)` performs from position `from`: the first rule
   * at or after it that has sound on and matches `text`.
   */
  function FirstSounding(alerts: seq<Alert>, text: string, from: nat): (r: Option<nat>)
    ensures r.Some? ==> from <= r.value < |alerts| && Sounds(alerts[r.value], text)
    ensures r.Some? ==> forall j :: from <= j < r.value ==> !Sounds(alerts[j], text)
    ensures r.None? ==> forall j :: from <= j < |alerts| ==> !Sounds(alerts[j], text)
    decreases |alerts| - from
  {
    if from >= |alerts| then None
    else if Sounds(alerts[from], text) then Some(from)
    else FirstSounding(alerts, text, from + 1)
  }

  /**
   * The sound-playing effect: nothing when there is no transcript or
   * transcription is off; otherwise the first rule, in list order, that has
   * sound on and matches the latest entry's text as a whole word. At most one
   * rule is returned, so at most one sound plays per evaluation.
   */
  function SoundToPlay(alerts: seq<Alert>, transcriptions: seq<Transcription>, isTranscribing: bool)
    : (r: Option<Alert>)
    ensures |transcriptions| == 0 || !isTranscribing ==> r.None?
    ensures r.Some? ==> r.value.soundEnabled
    ensures r.Some? ==>
      exists i :: 0 <= i < |alerts| && alerts[i] == r.value &&
        WholeWordMatchCI(alerts[i].keyword, transcriptions[|transcriptions| - 1].text) &&
        (forall j :: 0 <= j < i ==> !Sounds(alerts[j], transcriptions[|transcriptions| - 1].text))
    ensures |transcriptions| > 0 && isTranscribing ==>
      (r.Some? <==> exists i :: 0 <= i < |alerts| && Sounds(alerts[i], transcriptions[|transcriptions| - 1].text))
  {
    if |transcriptions| == 0 || !isTranscribing then None
    else
      var latest := transcriptions[|transcriptions| - 1];
      match FirstSounding(alerts, latest.text, 0)
      case None => None
      case Some(i) => Some(alerts[i])
  }

  /** Only the latest entry matters: two logs with the same last text pick the same sound. */
  lemma OnlyLatestEntryExamined(alerts: seq<Alert>, ts: seq<Transcription>, us: seq<Transcription>, on: bool)
    requires |ts| > 0 && |us| > 0 && ts[|ts| - 1].text == us[|us| - 1].text
    ensures SoundToPlay(alerts, ts, on) == SoundToPlay(alerts, us, on)
  {
  }

  /** When the latest entry makes the first rule sound, the first rule is chosen. */
  lemma FirstRuleSounds(alerts: seq<Alert>, ts: seq<Transcription>)
    requires |alerts| > 0 && |ts| > 0 && Sounds(alerts[0], ts[|ts| - 1].text)
    ensures SoundToPlay(alerts, ts, true) == Some(alerts[0])
  {
  }

  /** A sentence that mentions a deadline and a decision. */
  function DeadlineSentence(): string {
    "Precisamos definir o " + "prazo" + " e a " + "decisão" + " final."
  }

  /** "prazo" and "decisão" both occur in it as whole words, at 21 and at 31. */
  lemma DeadlineSentenceMatches()
    ensures MatchesAt("prazo", DeadlineSentence(), 21)
    ensures MatchesAt("decisão", DeadlineSentence(), 31)
  {
    var s := DeadlineSentence();
    var pre := "Precisamos definir o ";
    var post := " e a " + "decisão" + " final.";
    assert s == pre + "prazo" + post;
    MatchBetween(pre, "prazo", post);
    MatchBetween(pre + "prazo" + " e a ", "decisão", " final.");
  }

  /** For the sentence, both "prazo" and "decisão" match; the first in the initial list, "decisão", sounds. */
  lemma DecisionSoundsFirst()
    ensures WholeWordMatchCI("prazo", DeadlineSentence()) && WholeWordMatchCI("decisão", DeadlineSentence())
    ensures SoundToPlay(InitialAlerts(),
      [Transcription("t1", DeadlineSentence(), 0, None, Some(false))], true)
      == Some(InitialAlerts()[0])
  {
    DeadlineSentenceMatches();
    FirstRuleSounds(InitialAlerts(), [Transcription("t1", DeadlineSentence(), 0, None, Some(false))]);
  }

  /**
   * Priority plays no part: with "prazo" (medium) listed before "decisão"
   * (high), the medium rule sounds for a text that matches both.
   */
  lemma ListOrderNotPriority()
    ensures SoundToPlay(
      [Alert("3", "prazo", Medium, "yellow", true), Alert("1", "decisão", High, "red", true)],
      [Transcription("t1", DeadlineSentence(), 0, None, Some(false))], true)
      == Some(Alert("3", "prazo", Medium, "yellow", true))
  {
    DeadlineSentenceMatches();
    FirstRuleSounds(
      [Alert("3", "prazo", Medium, "yellow", true), Alert("1", "decisão", High, "red", true)],
      [Transcription("t1", DeadlineSentence(), 0, None, Some(false))]);
  }
}
