/**
 * The records shared by the meeting-insights core: audio devices, transcript
 * entries and keyword alert rules (src/lib/types.ts).
 */
module Types {

  /** An optional value; stands for TypeScript's `T | null` and optional fields. */
  datatype Option<+T> = None | Some(value: T)

  /** The outcome of an operation that either yields a value or is rejected with a reason. */
  datatype Result<+T, +E> = Success(value: T) | Failure(error: E)

  /** An audio input as offered to the operator: `{id, label}` (`label` is a Dafny keyword, hence `labelText`). */
  datatype AudioDevice = AudioDevice(id: string, labelText: string)

  /**
   * One transcript entry. `timestamp` is milliseconds since the epoch
   * (`Date.now()`); `speaker` and `isInterim` are optional fields.
   */
  datatype Transcription = Transcription(
    id: string,
    text: string,
    timestamp: int,
    speaker: Option<string>,
    isInterim: Option<bool>)

  /** The three priorities a rule can carry: `'low' | 'medium' | 'high'`. */
  datatype Priority = Low | Medium | High

  /** A keyword alert rule. `color` is a Tailwind colour name used for highlighting. */
  datatype Alert = Alert(
    id: string,
    keyword: string,
    priority: Priority,
    color: string,
    soundEnabled: bool)
}
