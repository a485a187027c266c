# Instant meeting insights: keyword alerts and session logic in Dafny

This project models the logic underneath the meeting-insights web app. Around
it sits React presentation, which is not modelled. The model covers:

- **the keyword alert registry**: an ordered list of rules, each with a keyword,
  a priority, a highlight colour and a sound switch. Rules can be added, removed
  by id, and have their sound toggled by id.
- **the whole-word keyword test**: the pattern `\bK\b` with flags `gi`, shared by
  the sound selector of the main page and by the transcript view.
- **sound selection**: which rule sounds for the latest transcript entry.
- **keyword flagging and highlighting**: whether an entry is flagged, and how
  every whole-word occurrence of each rule's keyword is wrapped in a coloured
  `<span>`.
- **the mock transcription session**: start, stop, clear, and the interval tick
  that appends a phrase.
- **the audio capture hook**: the device list and its labels, the default
  selection, the constraint record, and starting and stopping capture.

Modules:

| module | file | form |
|---|---|---|
| `Types` | `types.dfy` | the records of `src/lib/types.ts` |
| `Text` | `text.dfy` | JavaScript `trim`, `toLowerCase` and the regex word-character class |
| `WholeWord` | `whole_word.dfy` | the `\bK\b` test, and the pieces a global `replace` cuts a text into |
| `AlertSystem` | `alert_system.dfy` | the registry handlers, as functions from the old list to the new one |
| `IndexPage` | `index_page.dfy` | the initial rules and the sound-selection effect |
| `TranscriptionView` | `transcription_view.dfy` | `containsAlertKeyword` (a function) and `highlightKeywords` (a method with a loop) |
| `UseTranscription` | `use_transcription.dfy` | a spec function per transition, lemmas about them, and a class whose methods follow them |
| `UseAudioCapture` | `use_audio_capture.dfy` | the same shape as `UseTranscription`; `stopCapture` loops over track objects |

Case-insensitive matching and duplicate detection share one character folding,
`Text.FoldChar`. It maps ASCII and Latin-1 capitals to small letters.

`\b` follows the regex semantics without the `u` flag: only `[A-Za-z0-9_]` are
word characters. So a keyword that ends in a non-ASCII letter never matches
before a space (`WholeWord.AccentedKeywordMissed`). A keyword can also match
right after an accented letter inside a word (`WholeWord.KeywordFoundInsideAccentedWord`).
The initial keyword "decisão" begins and ends with ASCII letters. It therefore
matches normally (`IndexPage.DecisionSoundsFirst`).

The code picks the sound by list order, not by priority, and the model does the
same (`IndexPage.ListOrderNotPriority`).

`highlightKeywords` applies each rule to the previous rule's output. A later
rule can therefore match inside markup that an earlier rule inserted
(`TranscriptionView.LaterRuleMatchesMarkup`).

A second `startTranscription` overwrites the stored interval handle without
clearing the first timer. That timer keeps appending entries after a stop
(`UseTranscription.DoubleStartLeaksTimer`).

`getDevices` runs once, at mount. It tests the selection its closure captured,
which is the initial `null`. So the first device replaces any selection made
before the enumeration resolves (`UseAudioCapture.MountTimeSelectionOverrides`).

## Model

| member | source | states |
|---|---|---|
| Text.TrimStart | src/components/AlertSystem.tsx:35 | the result is a suffix of the input, the removed prefix is all white space, and the result does not start with white space |
| Text.TrimEnd | src/components/AlertSystem.tsx:35 | the result is a prefix of the input, the removed suffix is all white space, and the result does not end with white space |
| Text.Trim | src/components/AlertSystem.tsx:35 | the result is the input without its blank prefix, cut before a blank suffix, so it neither starts nor ends with white space |
| Text.TrimEmptyIffBlank | src/components/AlertSystem.tsx:35 | `keyword.trim() === ''` holds exactly when every character is JavaScript white space |
| Text.FoldChar | src/components/AlertSystem.tsx:44 | lower-casing a character keeps it a word character or a non-word character, and changes only capitals |
| Text.FoldCharIdempotent | src/components/AlertSystem.tsx:44 | folding a folded character changes nothing |
| Text.Lower | src/components/AlertSystem.tsx:44 | `toLowerCase` keeps the length (per-character folding is `Text.LowerAt`) |
| Text.LowerAt | src/components/AlertSystem.tsx:44 | `toLowerCase` maps each character on its own |
| Text.LowerIdempotent | src/components/AlertSystem.tsx:44 | lower-casing twice is lower-casing once |
| WholeWord.MatchesAt | src/components/TranscriptionView.tsx:38 | `\bK\b` with the `i` flag matches at a position: a word boundary on each side and the text between equal to K ignoring case (a predicate; no contract) |
| WholeWord.FindMatch | src/pages/Index.tsx:39-40 | the search returns the leftmost position at or after `from` where `\bK\b` matches ignoring case, or none when there is no such position |
| WholeWord.WholeWordMatchCI | src/pages/Index.tsx:39-40 | `regex.test(text)` is true exactly when some position starts a whole-word, case-insensitive match |
| WholeWord.MatchEnds | src/components/TranscriptionView.tsx:38 | a match starts and ends with characters that are word characters exactly when the keyword's first and last are |
| WholeWord.MatchBetween | src/components/TranscriptionView.tsx:38 | a keyword starting and ending with ASCII word characters matches where it stands between non-word characters or the ends of the text |
| WholeWord.InsideWordNoMatch | src/components/TranscriptionView.tsx:50-51 | a keyword occurring only inside a longer ASCII word is not matched there |
| WholeWord.NonWordEndNeedsWordAfter | src/components/TranscriptionView.tsx:50-51 | a keyword ending in a non-ASCII letter matches only where an ASCII word character follows |
| WholeWord.NonWordStartNeedsWordBefore | src/components/TranscriptionView.tsx:50-51 | a keyword starting with a non-ASCII letter matches only where an ASCII word character precedes it |
| WholeWord.AccentedKeywordMissed | src/components/TranscriptionView.tsx:50-51 | "você" never matches "você sabe" |
| WholeWord.KeywordFoundInsideAccentedWord | src/components/TranscriptionView.tsx:50-51 | "amento" matches inside "o orçamento" |
| WholeWord.PrefixOfAsciiWordMissed | src/components/TranscriptionView.tsx:50-51 | "prazo" does not match "prazos" |
| WholeWord.TextsAppend | src/components/TranscriptionView.tsx:39-41 | the text and the count of matches of concatenated pieces add up |
| WholeWord.Occurrences | src/components/TranscriptionView.tsx:38-41 | the global replace's pieces, from a search position, spell the remaining text; every matched piece equals the keyword ignoring case and starts at a whole-word match at or after the search position; no plain piece holds a match start at or after the search position; after a match the search resumes at its end, one further when it was empty; so the matched pieces are the leftmost non-overlapping matches |
| WholeWord.Split | src/components/TranscriptionView.tsx:38-41 | the pieces of the whole text spell it back, and the matched pieces are exactly the leftmost non-overlapping whole-word matches of the keyword ignoring case, each starting at a match no earlier than where the search stood, with no match start left inside a plain piece |
| WholeWord.OccurrencesMarked | src/components/TranscriptionView.tsx:39-41 | the pieces from a search position hold a match exactly when the search from there finds one |
| WholeWord.SplitMarksIffMatch | src/components/TranscriptionView.tsx:39-41 | some piece is a match exactly when `test` would succeed on the text |
| WholeWord.SplitNoMatch | src/components/TranscriptionView.tsx:39-41 | without a match, replace leaves the text in one plain piece |
| AlertSystem.PriorityColor | src/components/AlertSystem.tsx:24-28 | every priority has one of the colours green, yellow and red |
| AlertSystem.PriorityColorInjective | src/components/AlertSystem.tsx:24-28 | distinct priorities have distinct colours |
| AlertSystem.AddAlert | src/components/AlertSystem.tsx:34-61 | a blank keyword is rejected as empty; otherwise a keyword equal, after lower-casing, to an existing one is rejected as duplicate; otherwise exactly one rule is appended, holding the keyword as typed, the priority, its colour and sound on, with earlier rules unchanged |
| AlertSystem.AddChangesOnlyOnSuccess | src/components/AlertSystem.tsx:35-61 | a rejected add leaves the list unchanged; an accepted add is the old list plus the new rule |
| AlertSystem.AddPreservesValid | src/components/AlertSystem.tsx:44-61 | adding keeps keywords pairwise distinct after lower-casing, and non-blank |
| AlertSystem.PaddedKeywordIsNotDuplicate | src/components/AlertSystem.tsx:44 | the untrimmed input is compared, so " prazo" is accepted next to "prazo" |
| AlertSystem.RemoveAlert | src/components/AlertSystem.tsx:70-71 | a rule survives exactly when it was present and its id differs |
| AlertSystem.RemoveAppend | src/components/AlertSystem.tsx:71 | removal works part by part, so survivors keep their order |
| AlertSystem.RemoveAbsentId | src/components/AlertSystem.tsx:71 | removing an absent id changes nothing |
| AlertSystem.RemoveIdempotent | src/components/AlertSystem.tsx:71 | removing an id twice is removing it once |
| AlertSystem.RemovePreservesValid | src/components/AlertSystem.tsx:70-71 | removal keeps the registry invariant |
| AlertSystem.ToggleSound | src/components/AlertSystem.tsx:78-81 | same length and order; only `soundEnabled` can change, and it flips exactly on rules with the id |
| AlertSystem.ToggleTwice | src/components/AlertSystem.tsx:78-81 | toggling the same id twice is the identity |
| AlertSystem.TogglePreservesValid | src/components/AlertSystem.tsx:78-81 | toggling keeps the registry invariant |
| IndexPage.InitialKeywordsValid | src/pages/Index.tsx:14-19 | the initial keywords are non-blank and distinct after lower-casing |
| IndexPage.InitialAlerts | src/pages/Index.tsx:14-19 | four rules with pairwise different ids, each with the colour of its priority and sound on |
| IndexPage.FirstSounding | src/pages/Index.tsx:36-41 | `find` returns the first rule from a position that has sound on and matches, or none when no rule does |
| IndexPage.SoundToPlay | src/pages/Index.tsx:30-47 | no sound without entries or while not transcribing; otherwise at most one rule, which has sound on and is the first in list order to match the latest entry; a sound plays exactly when some such rule exists |
| IndexPage.OnlyLatestEntryExamined | src/pages/Index.tsx:33 | two logs with the same last text select the same sound |
| IndexPage.FirstRuleSounds | src/pages/Index.tsx:36-41 | when the first rule sounds for the latest entry, it is the one chosen |
| IndexPage.DeadlineSentenceMatches | src/pages/Index.tsx:39-40 | in "Precisamos definir o prazo e a decisão final." both "prazo" and "decisão" match as whole words |
| IndexPage.DecisionSoundsFirst | src/pages/Index.tsx:15-41 | for a sentence where both "prazo" and "decisão" match, the initial rules sound "decisão", which is listed first |
| IndexPage.ListOrderNotPriority | src/pages/Index.tsx:36-41 | a medium rule listed before a high one wins when both match |
| TranscriptionView.ContainsAlertKeyword | src/components/TranscriptionView.tsx:48-53 | true exactly when some rule's keyword matches as a whole word, ignoring case, whatever its sound switch |
| TranscriptionView.OpenTag | src/components/TranscriptionView.tsx:40 | the inserted opening tag is a `span` start tag: it begins with `<span ` and ends with `>` |
| TranscriptionView.Render | src/components/TranscriptionView.tsx:39-41 | replacing only adds characters, and adds some exactly when there is a match; without matches the output is the text |
| TranscriptionView.RenderPlain | src/components/TranscriptionView.tsx:39-41 | a plain piece is copied unchanged |
| TranscriptionView.HighlightRule | src/components/TranscriptionView.tsx:38-41 | one rule's replace never shortens the text, and changes it exactly when its keyword matches it as a whole word |
| TranscriptionView.Highlighted | src/components/TranscriptionView.tsx:36-44 | the rules applied in list order leave the text unchanged or make it longer |
| TranscriptionView.PrazoPieces | src/components/TranscriptionView.tsx:39 | "prazo" searched in "prazo" yields an empty text, the match and an empty text |
| TranscriptionView.RenderLoneMatch | src/components/TranscriptionView.tsx:39-41 | a lone match renders as itself inside a span of the rule colour |
| TranscriptionView.HighlightKeywords | src/components/TranscriptionView.tsx:33-45 | with no rules the text itself; otherwise the rules applied in list order, each to the previous output |
| TranscriptionView.HighlightNoMatchUnchanged | src/components/TranscriptionView.tsx:36-44 | when no rule matches the original text, the output is that text |
| TranscriptionView.HighlightIgnoresSound | src/components/TranscriptionView.tsx:37-42 | highlighting depends only on keywords and colours, position by position |
| TranscriptionView.ToggleKeepsView | src/components/TranscriptionView.tsx:37-52 | toggling a rule's sound changes neither the flag nor the highlighting |
| TranscriptionView.HighlightPrazo | src/components/TranscriptionView.tsx:39-41 | "prazo" under its yellow rule becomes the word, verbatim, inside a yellow span |
| TranscriptionView.NoSpanInPrazo | src/components/TranscriptionView.tsx:38 | "prazo" holds no whole-word "span" |
| TranscriptionView.SpanInMarkup | src/components/TranscriptionView.tsx:40 | every inserted opening tag holds the whole word "span" |
| TranscriptionView.LaterRuleMatchesMarkup | src/components/TranscriptionView.tsx:37-42 | a later rule for "span" matches the markup an earlier rule inserted, though not the original text |
| UseTranscription.Started | src/hooks/useTranscription.ts:33-56 | without a stream only the error is set; with one, transcribing is on, the error cleared and the new timer runs and is stored, earlier timers left running; the log is kept; the session invariant (entries are final mock phrases, a handle is stored exactly while transcribing and names a running timer) is preserved |
| UseTranscription.Stopped | src/hooks/useTranscription.ts:58-64 | the handle is forgotten, its timer cancelled and transcribing ends; every other running timer keeps running and no timer starts; log and error are kept; the invariant is preserved |
| UseTranscription.Cleared | src/hooks/useTranscription.ts:66-68 | the log is emptied, no other field changes, and the invariant is preserved |
| UseTranscription.Ticked | src/hooks/useTranscription.ts:44-55 | exactly one entry is appended at the end: final, with the chosen mock phrase, the given id and time, and no speaker; nothing else changes, and the invariant is preserved |
| UseTranscription.StopIdempotent | src/hooks/useTranscription.ts:58-64 | stopping twice is stopping once |
| UseTranscription.DoubleStartLeaksTimer | src/hooks/useTranscription.ts:44-62 | after start, start and stop, the first timer still runs, unreferenced; each of its firings appends an entry while transcription is off, and a further stop does not cancel it |
| UseTranscription.TranscriptionHook.constructor | src/hooks/useTranscription.ts:8-10 | the hook starts with an empty log, not transcribing, no error and no timer |
| UseTranscription.TranscriptionHook.StartTranscription | src/hooks/useTranscription.ts:33-56 | the new state is the start transition of the old one, and the invariant holds |
| UseTranscription.TranscriptionHook.StopTranscription | src/hooks/useTranscription.ts:58-64 | the new state is the stop transition of the old one, and the invariant holds |
| UseTranscription.TranscriptionHook.ClearTranscriptions | src/hooks/useTranscription.ts:66-68 | the new state is the clear transition of the old one, and the invariant holds |
| UseTranscription.TranscriptionHook.Tick | src/hooks/useTranscription.ts:44-55 | a firing of a running timer appends the chosen phrase, and the invariant holds |
| UseAudioCapture.Prefix | src/hooks/useAudioCapture.ts:24 | `substring(0, n)` is the first n characters, or the whole of a shorter string |
| UseAudioCapture.DeviceLabel | src/hooks/useAudioCapture.ts:24 | a non-empty label is kept; otherwise "Microphone ", then the first five characters of the id, then "..."; never empty |
| UseAudioCapture.ToAudioDevice | src/hooks/useAudioCapture.ts:22-25 | a device keeps the reported id and gets a non-empty label, the reported one when there is one |
| UseAudioCapture.AudioInputs | src/hooks/useAudioCapture.ts:20-25 | exactly the audio inputs are listed, each with its id and a non-empty label |
| UseAudioCapture.AudioInputsAppend | src/hooks/useAudioCapture.ts:20-21 | the filter works part by part, so reported order is kept |
| UseAudioCapture.Constraints | src/hooks/useAudioCapture.ts:50-57 | an exact device id only when the id is non-empty; echo cancellation, noise suppression and gain control all off |
| UseAudioCapture.AfterGetDevices | src/hooks/useAudioCapture.ts:14-36 | enumeration never touches capture or stream; on success the list becomes the audio inputs and the error stays; a newly chosen device is one of the new list's; "capturing exactly while a stream is held" is preserved |
| UseAudioCapture.AfterStart | src/hooks/useAudioCapture.ts:43-67 | list and selection are kept; capture changes and the error clears only when a device is selected and the stream is granted; the invariant is preserved |
| UseAudioCapture.AfterStop | src/hooks/useAudioCapture.ts:70-76 | no stream, not capturing, everything else kept, so the invariant holds afterwards |
| UseAudioCapture.DefaultSelection | src/hooks/useAudioCapture.ts:27-32 | the device list is replaced; the first device is selected only when the list is non-empty and the closure saw no selection; otherwise the selection stays |
| UseAudioCapture.MountTimeSelectionOverrides | src/hooks/useAudioCapture.ts:30-31 | with the mount-time selection, the first device replaces any current selection |
| UseAudioCapture.EnumerationFailureKeepsDevices | src/hooks/useAudioCapture.ts:33-36 | a failed enumeration sets the permission error and keeps everything else |
| UseAudioCapture.FailedStartKeepsCapture | src/hooks/useAudioCapture.ts:45-66 | without a device, or when the request fails, capture and stream are unchanged and the matching error is set |
| UseAudioCapture.GrantedStartCaptures | src/hooks/useAudioCapture.ts:59-62 | a granted request stores the stream, captures and clears the error |
| UseAudioCapture.StopIdempotent | src/hooks/useAudioCapture.ts:70-76 | stopping twice is stopping once |
| UseAudioCapture.AudioCaptureHook.constructor | src/hooks/useAudioCapture.ts:6-10 | the hook starts not capturing, with no devices, selection, stream or error |
| UseAudioCapture.AudioCaptureHook.GetDevices | src/hooks/useAudioCapture.ts:14-36 | the new state is the enumeration transition of the old one, and "capturing exactly while a stream is held" is kept |
| UseAudioCapture.AudioCaptureHook.SelectDevice | src/hooks/useAudioCapture.ts:8 | only the selection changes |
| UseAudioCapture.AudioCaptureHook.StartCapture | src/hooks/useAudioCapture.ts:43-67 | the new state is the start transition of the old one and keeps the capture invariant; the request is made exactly when a device is selected, with that device's constraints |
| UseAudioCapture.AudioCaptureHook.StopCapture | src/hooks/useAudioCapture.ts:70-76 | the new state is the stop transition of the old one, which satisfies the capture invariant, and every track of a held stream is stopped |

## Left out

- Text.FoldChar: lower-casing and the regex `i` flag are modelled for ASCII and Latin-1 capitals only; other scripts' capitals are left as they are, because full Unicode case mapping is a table outside this model.
- Text.Lower: its own contract states only that the length is kept; that each character is folded on its own is the lemma `Text.LowerAt`, kept apart because a quantified contract on `Lower` makes every match proof costlier.
- WholeWord.WholeWordMatchCI: keywords are read as literal text; the source puts them into `RegExp` unescaped, so a keyword holding a metacharacter would behave as a pattern. Regex syntax is not modelled.
- WholeWord.Occurrences: strings are sequences of code points; UTF-16 surrogate pairs and the `lastIndex` advance by code units are not modelled.
- UseAudioCapture.AudioCaptureHook.GetDevices: the permission stream from the first `getUserMedia` call is never stopped in the source; the model does not represent it. The effect's closure value is a parameter; the program passes the initial `null`.
- UseAudioCapture.AudioCaptureHook.StartCapture and GetDevices: `getUserMedia` and `enumerateDevices` are parameters that give the browser's outcome, success with a value or failure; permission prompts and device hardware are not modelled.
- UseTranscription.TranscriptionHook.Tick: `setInterval`, `Math.random` and `Date.now` become parameters (the timer handle, the phrase index, the id and the time). Firing every 3000 ms is not modelled, and neither is the order in which React batches state updates.
- The unmount cleanup of `useTranscription` (src/hooks/useTranscription.ts:70-77) is not modelled. It clears only the stored timer, as stop does.
- Playing the sound (`new Audio(...).play()`) is represented by the rule `IndexPage.SoundToPlay` returns. The effect re-running when rules change is the same function applied to the new list.
- Ids come from `Date.now().toString()` and are parameters. Nothing makes them unique, so removal and toggling act on every rule that carries the id.
- The toasts, the JSX, `formatTimestamp` (locale and time), the device selector, the header, `MinutesGenerator` and the orchestration in `AudioCapture.tsx` are presentation or I/O.
- `timestamp` is a JavaScript number. It is modelled as an unbounded integer (milliseconds).
- Sound is chosen by list order, as the code does. A priority order is not modelled, because the code has none.
