/**
 * The mock transcription session (src/hooks/useTranscription.ts): the log of
 * transcript entries, the `isTranscribing` flag, the last error and the
 * handle of the running interval timer. `setInterval`, `Math.random` and
 * `Date.now` become parameters: a start receives the handle the runtime
 * assigns, a tick receives the phrase index and the clock readings.
 */
module UseTranscription {
  import opened Types

  /** `mockPhrases`: the sentences the simulated recogniser picks from. */
  const MockPhrases: seq<string> := [
    "Vamos começar a reunião de hoje.",
    "Precisamos discutir o novo projeto.",
    "Quais são os próximos passos?",
    "Vamos definir os prazos para entrega.",
    "Como estão os resultados do trimestre?",
    "Alguém tem alguma pergunta?",
    "Podemos agendar a próxima reunião.",
    "Precisamos de mais recursos para este projeto.",
    "A equipe está pronta para começar?",
    "Quem será responsável por esta tarefa?",
    "Vamos revisar o orçamento.",
    "Os clientes estão satisfeitos com o serviço.",
    "Qual é a nossa prioridade agora?",
    "Precisamos melhorar nossos processos internos.",
    "Esta decisão é importante para o futuro da empresa."
  ]

  /** The error a start without an audio stream reports. */
  const NoStreamError: string := "No audio stream available for transcription"

  /** A handle returned by `setInterval`. */
  type TimerId = nat

  /**
   * The hook's state together with the set of interval timers the runtime
   * still runs (`liveTimers`): a timer keeps firing until `clearInterval`.
   */
  datatype Session = Session(
    transcriptions: seq<Transcription>,
    isTranscribing: bool,
    error: Option<string>,
    intervalRef: Option<TimerId>,
    liveTimers: set<TimerId>)

  /** The state the hook starts in. */
  function InitialSession(): Session {
    Session([], false, None, None, {})
  }

  /** Every entry is final (`isInterim` is `false`) and says one of the mock phrases. */
  predicate EntriesFinal(ts: seq<Transcription>) {
    forall i :: 0 <= i < |ts| ==> ts[i].isInterim == Some(false) && ts[i].text in MockPhrases
  }

  /**
   * The session invariant: entries are final mock phrases, a stored handle
   * names a running timer, and a handle is stored exactly while transcribing.
   */
  predicate SessionValid(s: Session) {
    && EntriesFinal(s.transcriptions)
    && (s.intervalRef.Some? ==> s.intervalRef.value in s.liveTimers)
    && (s.intervalRef.Some? <==> s.isTranscribing)
  }

  /**
   * `startTranscription`: without a stream only the error is set; with one,
   * transcribing is on, the error cleared, a new timer `timer` runs and its
   * handle replaces the stored one. An earlier timer is not cleared, and the
   * log is kept either way.
   */
  function Started(s: Session, streamPresent: bool, timer: TimerId): (r: Session)
    ensures !streamPresent ==> r.error == Some(NoStreamError) && r.(error := s.error) == s
    ensures streamPresent ==> && r.isTranscribing && r.error.None?
                              && r.intervalRef == Some(timer)
                              && r.liveTimers == s.liveTimers + {timer}
    ensures r.transcriptions == s.transcriptions
    ensures SessionValid(s) ==> SessionValid(r)
  {
    if !streamPresent then s.(error := Some(NoStreamError))
    else s.(isTranscribing := true, error := None, intervalRef := Some(timer),
            liveTimers := s.liveTimers + {timer})
  }

  /**
   * `stopTranscription`: clears the stored timer, if any, forgets its
   * handle, stops transcribing, and keeps the log and the error. Every other
   * running timer keeps running.
   */
  function Stopped(s: Session): (r: Session)
    ensures r.intervalRef.None? && !r.isTranscribing
    ensures s.intervalRef.Some? ==> s.intervalRef.value !in r.liveTimers
    ensures r.liveTimers <= s.liveTimers
    ensures forall t :: t in s.liveTimers && s.intervalRef != Some(t) ==> t in r.liveTimers
    ensures r.transcriptions == s.transcriptions && r.error == s.error
    ensures SessionValid(s) ==> SessionValid(r)
  {
    var live := if s.intervalRef.Some? then s.liveTimers - {s.intervalRef.value} else s.liveTimers;
    s.(intervalRef := None, liveTimers := live, isTranscribing := false)
  }

  /** `clearTranscriptions`: empties the log and touches nothing else. */
  function Cleared(s: Session): (r: Session)
    ensures r.transcriptions == [] && r.(transcriptions := s.transcriptions) == s
    ensures SessionValid(s) ==> SessionValid(r)
  {
    s.(transcriptions := [])
  }

  /**
   * One firing of a running timer: exactly one final entry with the chosen
   * mock phrase is appended at the end; earlier entries and every other
   * field stay as they were.
   */
  function Ticked(s: Session, phraseIndex: nat, id: string, now: int): (r: Session)
    requires phraseIndex < |MockPhrases|
    ensures |r.transcriptions| == |s.transcriptions| + 1
    ensures r.transcriptions[..|s.transcriptions|] == s.transcriptions
    ensures r.transcriptions[|s.transcriptions|] == Transcription(id, MockPhrases[phraseIndex], now, None, Some(false))
    ensures r.transcriptions[|s.transcriptions|].text in MockPhrases
    ensures r.(transcriptions := s.transcriptions) == s
    ensures SessionValid(s) ==> SessionValid(r)
  {
    var ts := s.transcriptions + [Transcription(id, MockPhrases[phraseIndex], now, None, Some(false))];
    assert forall i :: 0 <= i < |s.transcriptions| ==> ts[i] == s.transcriptions[i];
    s.(transcriptions := ts)
  }

  /** Stopping twice is stopping once. */
  lemma StopIdempotent(s: Session)
    ensures Stopped(Stopped(s)) == Stopped(s)
  {
  }

  /**
   * A second start while transcribing does not clear the first timer: after
   * start, start and stop, the first timer still runs, nothing refers to it,
   * each of its firings still appends an entry although transcription is
   * off, and a further stop does not cancel it.
   */
  lemma DoubleStartLeaksTimer(s: Session, t1: TimerId, t2: TimerId, phraseIndex: nat, id: string, now: int)
    requires SessionValid(s) && t1 != t2 && t1 !in s.liveTimers
    requires phraseIndex < |MockPhrases|
    ensures var after := Stopped(Started(Started(s, true, t1), true, t2));
      && t1 in after.liveTimers
      && t2 !in after.liveTimers
      && after.intervalRef.None? && !after.isTranscribing
      && var late := Ticked(after, phraseIndex, id, now);
         && !late.isTranscribing
         && late.transcriptions == s.transcriptions + [Transcription(id, MockPhrases[phraseIndex], now, None, Some(false))]
         && t1 in Stopped(late).liveTimers
  {
  }

  /**
   * The hook as an object. `liveTimers` stands for the runtime's set of
   * scheduled intervals, which `setInterval` and `clearInterval` change.
   */
  class TranscriptionHook {
    var transcriptions: seq<Transcription>
    var isTranscribing: bool
    var error: Option<string>
    var intervalRef: Option<TimerId>
    var liveTimers: set<TimerId>

    /** The fields as one value. */
    function State(): Session
      reads this
    {
      Session(transcriptions, isTranscribing, error, intervalRef, liveTimers)
    }

    ghost predicate Valid()
      reads this
    {
      SessionValid(State())
    }

    constructor ()
      ensures Valid() && State() == InitialSession()
    {
      transcriptions := [];
      isTranscribing := false;
      error := None;
      intervalRef := None;
      liveTimers := {};
    }

    /** `startTranscription`, given whether the hook's `audioStream` is present and the new interval's handle. */
    method StartTranscription(streamPresent: bool, timer: TimerId)
      requires Valid() && timer !in liveTimers
      modifies this
      ensures Valid() && State() == Started(old(State()), streamPresent, timer)
    {
      if !streamPresent {
        error := Some(NoStreamError);
        return;
      }
      isTranscribing := true;
      error := None;
      liveTimers := liveTimers + {timer};
      intervalRef := Some(timer);
    }

    /** `stopTranscription`. */
    method StopTranscription()
      requires Valid()
      modifies this
      ensures Valid() && State() == Stopped(old(State()))
    {
      if intervalRef.Some? {
        liveTimers := liveTimers - {intervalRef.value};
        intervalRef := None;
      }
      isTranscribing := false;
    }

    /** `clearTranscriptions`. */
    method ClearTranscriptions()
      requires Valid()
      modifies this
      ensures Valid() && State() == Cleared(old(State()))
    {
      transcriptions := [];
    }

    /**
     * The interval callback of a running timer: `phraseIndex` is
     * `Math.floor(Math.random() * mockPhrases.length)`, `id` and `now` the two
     * `Date.now()` readings.
     */
    method Tick(timer: TimerId, phraseIndex: nat, id: string, now: int)
      requires Valid() && timer in liveTimers && phraseIndex < |MockPhrases|
      modifies this
      ensures Valid() && State() == Ticked(old(State()), phraseIndex, id, now)
    {
      var entry := Transcription(id, MockPhrases[phraseIndex], now, None, Some(false));
      transcriptions := transcriptions + [entry];
    }
  }
}
