/**
 * The audio capture hook (src/hooks/useAudioCapture.ts): the list of input
 * devices, the selected device, the captured stream and the last error.
 * The browser's `getUserMedia` and `enumerateDevices` are given as their
 * outcomes (success with a value, or failure); stopping a track is a flag.
 */
module UseAudioCapture {
  import opened Types

  /** What `enumerateDevices` reports for one device. */
  datatype MediaDeviceInfo = MediaDeviceInfo(deviceId: string, kind: string, labelText: string)

  /** Only audio inputs are offered. */
  predicate IsAudioInput(info: MediaDeviceInfo) {
    info.kind == "audioinput"
  }

  /** `s.substring(0, n)` for `n >= 0`: the first `n` characters, or all of a shorter string. */
  function Prefix(s: string, n: nat): (r: string)
    ensures |r| <= n && r <= s
    ensures |s| >= n ==> |r| == n
    ensures |s| < n ==> r == s
  {
    if |s| <= n then s else s[..n]
  }

  /**
   * The label shown for a device: the reported label when non-empty, else
   * "Microphone " followed by the first five characters of the id and "...".
   */
  function DeviceLabel(info: MediaDeviceInfo): (l: string)
    ensures l != ""
    ensures info.labelText != "" ==> l == info.labelText
    ensures info.labelText == "" ==> |l| >= 14
    ensures info.labelText == "" ==>
      l[..11] == "Microphone " && l[|l| - 3..] == "..." && l[11..|l| - 3] == Prefix(info.deviceId, 5)
  {
    if info.labelText != "" then info.labelText
    else "Microphone " + Prefix(info.deviceId, 5) + "..."
  }

  /** The device record made from a reported entry: same id, a label that is never empty. */
  function ToAudioDevice(info: MediaDeviceInfo): (d: AudioDevice)
    ensures d.id == info.deviceId && d.labelText != ""
    ensures info.labelText != "" ==> d.labelText == info.labelText
  {
    AudioDevice(info.deviceId, DeviceLabel(info))
  }

  /** The `filter` then `map` in `getDevices`: audio inputs only, in reported order, with labels. */
  function AudioInputs(list: seq<MediaDeviceInfo>): (r: seq<AudioDevice>)
    ensures |r| <= |list|
    ensures forall i :: 0 <= i < |r| ==> r[i].labelText != ""
    ensures forall d :: d in r ==> exists info :: info in list && IsAudioInput(info) && d == ToAudioDevice(info)
    ensures forall info :: info in list && IsAudioInput(info) ==> ToAudioDevice(info) in r
  {
    if list == [] then []
    else
      (if IsAudioInput(list[0]) then [ToAudioDevice(list[0])] else [])
      + AudioInputs(list[1..])
  }

  /** The filter keeps order: the devices of a concatenation are the devices of each part, in turn. */
  lemma {:induction false} AudioInputsAppend(a: seq<MediaDeviceInfo>, b: seq<MediaDeviceInfo>)
    ensures AudioInputs(a + b) == AudioInputs(a) + AudioInputs(b)
  {
    if a == [] {
      assert a + b == b;
    } else {
      assert (a + b)[1..] == a[1..] + b;
      AudioInputsAppend(a[1..], b);
    }
  }

  /** The `audio` member of the constraints `startCapture` passes to `getUserMedia`. */
  datatype AudioConstraints = AudioConstraints(
    deviceId: Option<string>,   // `{ exact: id }`, or `undefined` as None
    echoCancellation: bool,
    noiseSuppression: bool,
    autoGainControl: bool)

  /**
   * The constraints for a device: its id required exactly when the id is
   * non-empty, and echo cancellation, noise suppression and automatic gain
   * control all switched off.
   */
  function Constraints(d: AudioDevice): (c: AudioConstraints)
    ensures c.deviceId.Some? <==> d.id != ""
    ensures c.deviceId.Some? ==> c.deviceId.value == d.id
    ensures !c.echoCancellation && !c.noiseSuppression && !c.autoGainControl
  {
    AudioConstraints(if d.id != "" then Some(d.id) else None, false, false, false)
  }

  /** A track of a media stream; `live` turns false when it is stopped. */
  class MediaStreamTrack {
    var live: bool

    constructor ()
      ensures live
    {
      live := true;
    }

    /** `track.stop()`. */
    method Stop()
      modifies this
      ensures !live
    {
      live := false;
    }
  }

  /** A captured stream: its tracks. */
  datatype MediaStream = MediaStream(tracks: seq<MediaStreamTrack>)

  /** The outcome of `getUserMedia({audio: true})` followed by `enumerateDevices()`. */
  datatype EnumerationOutcome = Enumerated(list: seq<MediaDeviceInfo>) | EnumerationFailed

  /** The outcome of `getUserMedia(constraints)`. */
  datatype CaptureOutcome = Granted(stream: MediaStream) | CaptureFailed

  const PermissionError: string := "Failed to access audio devices. Please check your permissions."
  const NoDeviceError: string := "No audio device selected"
  const CaptureStartError: string := "Failed to start audio capture. Please check your device settings."

  /** The hook's fields as one value. */
  datatype Capture = Capture(
    isCapturing: bool,
    devices: seq<AudioDevice>,
    selectedDevice: Option<AudioDevice>,
    audioStream: Option<MediaStream>,
    error: Option<string>)

  /** The state the hook starts in. */
  function InitialCapture(): Capture {
    Capture(false, [], None, None, None)
  }

  /** Capturing exactly while a stream is held. */
  predicate CaptureValid(c: Capture) {
    c.isCapturing <==> c.audioStream.Some?
  }

  /**
   * `getDevices`: on success the device list is replaced and, when the list
   * is non-empty and the selection the effect's closure saw (`seen`) is
   * empty, its first device is selected; on failure only the permission
   * error is set. The effect runs once, at mount, so `seen` is the selection
   * of the first render, not the current one. Capture and stream are never
   * touched, and a newly chosen device is one of the new list's.
   */
  function AfterGetDevices(c: Capture, seen: Option<AudioDevice>, outcome: EnumerationOutcome): (r: Capture)
    ensures r.isCapturing == c.isCapturing && r.audioStream == c.audioStream
    ensures r.selectedDevice != c.selectedDevice ==> r.selectedDevice.Some? && r.selectedDevice.value in r.devices
    ensures outcome.Enumerated? ==> r.devices == AudioInputs(outcome.list) && r.error == c.error
    ensures CaptureValid(c) ==> CaptureValid(r)
  {
    match outcome
    case EnumerationFailed => c.(error := Some(PermissionError))
    case Enumerated(list) =>
      var ds := AudioInputs(list);
      c.(devices := ds,
         selectedDevice := if |ds| > 0 && seen.None? then Some(ds[0]) else c.selectedDevice)
  }

  /**
   * `startCapture`: without a selected device only the error is set; with
   * one, a granted stream is stored, capture is on and the error cleared, and
   * a refused request sets the capture error and changes nothing else. The
   * device list and the selection are never touched.
   */
  function AfterStart(c: Capture, outcome: CaptureOutcome): (r: Capture)
    ensures r.devices == c.devices && r.selectedDevice == c.selectedDevice
    ensures r.isCapturing != c.isCapturing ==> c.selectedDevice.Some? && outcome.Granted?
    ensures r.error.None? <==> c.selectedDevice.Some? && outcome.Granted?
    ensures CaptureValid(c) ==> CaptureValid(r)
  {
    if c.selectedDevice.None? then c.(error := Some(NoDeviceError))
    else match outcome
      case Granted(stream) => c.(audioStream := Some(stream), isCapturing := true, error := None)
      case CaptureFailed => c.(error := Some(CaptureStartError))
  }

  /** `stopCapture`: no stream and not capturing; devices, selection and error are kept. */
  function AfterStop(c: Capture): (r: Capture)
    ensures r.audioStream.None? && !r.isCapturing
    ensures r.(audioStream := c.audioStream, isCapturing := c.isCapturing) == c
    ensures CaptureValid(r)
  {
    c.(audioStream := None, isCapturing := false)
  }

  /**
   * The default selection: the first listed audio input is chosen when there
   * is one and the closure saw no selection; otherwise the selection stays.
   * A chosen device is one of the new list's.
   */
  lemma DefaultSelection(c: Capture, seen: Option<AudioDevice>, list: seq<MediaDeviceInfo>)
    ensures var after := AfterGetDevices(c, seen, Enumerated(list));
      && after.devices == AudioInputs(list)
      && (seen.Some? || AudioInputs(list) == [] ==> after.selectedDevice == c.selectedDevice)
      && (seen.None? && AudioInputs(list) != [] ==> after.selectedDevice == Some(AudioInputs(list)[0]))
      && (after.selectedDevice != c.selectedDevice ==> after.selectedDevice.value in after.devices)
  {
  }

  /**
   * At mount the closure's selection is the initial `null`: a selection made
   * before the enumeration resolves is replaced by the first device.
   */
  lemma MountTimeSelectionOverrides(c: Capture, list: seq<MediaDeviceInfo>)
    requires AudioInputs(list) != []
    ensures AfterGetDevices(c, InitialCapture().selectedDevice, Enumerated(list)).selectedDevice
      == Some(AudioInputs(list)[0])
  {
  }

  /** An enumeration failure keeps the device list and selection and sets the permission error. */
  lemma EnumerationFailureKeepsDevices(c: Capture, seen: Option<AudioDevice>)
    ensures AfterGetDevices(c, seen, EnumerationFailed).devices == c.devices
    ensures AfterGetDevices(c, seen, EnumerationFailed).(error := c.error) == c
    ensures AfterGetDevices(c, seen, EnumerationFailed).error == Some(PermissionError)
  {
  }

  /** A start that fails, for want of a device or of a stream, leaves capture and stream as they were. */
  lemma FailedStartKeepsCapture(c: Capture, o: CaptureOutcome)
    requires c.selectedDevice.None? || o.CaptureFailed?
    ensures AfterStart(c, o).isCapturing == c.isCapturing
    ensures AfterStart(c, o).audioStream == c.audioStream
    ensures AfterStart(c, o).error == Some(if c.selectedDevice.None? then NoDeviceError else CaptureStartError)
  {
  }

  /** A granted start with a device selected holds the stream, captures and clears the error. */
  lemma GrantedStartCaptures(c: Capture, stream: MediaStream)
    requires c.selectedDevice.Some?
    ensures AfterStart(c, Granted(stream)).audioStream == Some(stream)
    ensures AfterStart(c, Granted(stream)).isCapturing
    ensures AfterStart(c, Granted(stream)).error.None?
    ensures AfterStart(c, Granted(stream)).devices == c.devices
    ensures AfterStart(c, Granted(stream)).selectedDevice == c.selectedDevice
  {
  }

  /** Stopping twice is stopping once. */
  lemma StopIdempotent(c: Capture)
    ensures AfterStop(AfterStop(c)) == AfterStop(c)
  {
  }

  /** The objects a stream's tracks are. */
  function TracksOf(stream: Option<MediaStream>): set<object> {
    if stream.None? then {} else set t | t in stream.value.tracks :: t as object
  }

  /** The hook as an object. */
  class AudioCaptureHook {
    var isCapturing: bool
    var devices: seq<AudioDevice>
    var selectedDevice: Option<AudioDevice>
    var audioStream: Option<MediaStream>
    var error: Option<string>

    function State(): Capture
      reads this
    {
      Capture(isCapturing, devices, selectedDevice, audioStream, error)
    }

    constructor ()
      ensures State() == InitialCapture() && CaptureValid(State())
    {
      isCapturing := false;
      devices := [];
      selectedDevice := None;
      audioStream := None;
      error := None;
    }

    /**
     * The mount effect `getDevices`, given the selection its closure captured
     * and what the browser answered.
     */
    method GetDevices(seen: Option<AudioDevice>, outcome: EnumerationOutcome)
      requires CaptureValid(State())
      modifies this
      ensures State() == AfterGetDevices(old(State()), seen, outcome)
      ensures CaptureValid(State())
    {
      match outcome
      case EnumerationFailed =>
        error := Some(PermissionError);
      case Enumerated(list) =>
        var audioDevices := AudioInputs(list);
        devices := audioDevices;
        if |audioDevices| > 0 && seen.None? {
          selectedDevice := Some(audioDevices[0]);
        }
    }

    /** `setSelectedDevice`. */
    method SelectDevice(d: Option<AudioDevice>)
      modifies this
      ensures State() == old(State()).(selectedDevice := d)
    {
      selectedDevice := d;
    }

    /**
     * `startCapture`, given the answer to `getUserMedia`; returns the
     * constraints it asked for, or None when no device was selected and
     * nothing was asked.
     */
    method StartCapture(outcome: CaptureOutcome) returns (requested: Option<AudioConstraints>)
      requires CaptureValid(State())
      modifies this
      ensures State() == AfterStart(old(State()), outcome)
      ensures CaptureValid(State())
      ensures requested.Some? <==> old(selectedDevice).Some?
      ensures requested.Some? ==> requested.value == Constraints(old(selectedDevice).value)
    {
      if selectedDevice.None? {
        error := Some(NoDeviceError);
        return None;
      }
      requested := Some(Constraints(selectedDevice.value));
      match outcome
      case Granted(stream) =>
        audioStream := Some(stream);
        isCapturing := true;
        error := None;
      case CaptureFailed =>
        error := Some(CaptureStartError);
    }

    /** `stopCapture`: stops every track of a held stream, then drops the stream. */
    method StopCapture()
      modifies this, TracksOf(audioStream)
      ensures State() == AfterStop(old(State())) && CaptureValid(State())
      ensures old(audioStream).Some? ==> forall t :: t in old(audioStream).value.tracks ==> !t.live
    {
      if audioStream.Some? {
        var tracks := audioStream.value.tracks;
        for i := 0 to |tracks|
          invariant forall j :: 0 <= j < i ==> !tracks[j].live
          invariant State() == old(State())
        {
          assert tracks[i] in tracks;
          assert tracks[i] in TracksOf(old(audioStream));
          tracks[i].Stop();
        }
        audioStream := None;
      }
      isCapturing := false;
    }
  }
}
