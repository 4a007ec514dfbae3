/** The editor session: one `AudioUiState` record that every user or
    background event replaces with an updated copy, held by the view model
    together with whether a preview player and its position-polling job
    exist. */
module Session {
  import opened Wrappers
  import opened Numerics
  import opened Formats
  import TrimCommand
  import Waveform

  /** Content URIs are opaque identifiers here. */
  type Uri = string

  datatype AudioUiState = AudioUiState(
    uri: Option<Uri>,
    fileName: string,
    durationMs: int,
    startMs: int,
    endMs: int,
    isProcessing: bool,
    isPlaying: bool,
    message: Option<string>,
    trimmedOutput: Option<Uri>,
    outputFormat: OutputFormat,
    quality: QualityPreset,
    waveform: seq<real>,
    playbackPositionMs: int,
    lastSavedPath: Option<string>,
    showFullScreenBanner: bool,
    showResultDialog: bool,
    speed: real)

  /** The state before any file is picked: every field at its default. */
  function DefaultState(): (s: AudioUiState)
    ensures s.uri.None? && !s.isProcessing && !s.isPlaying && s.message.None?
    ensures s.outputFormat == MP3 && s.quality == HIGH && s.speed == 1.0
    ensures s.durationMs == s.startMs == s.endMs == s.playbackPositionMs == 0
  {
    AudioUiState(None, "", 0, 0, 0, false, false, None, None, MP3, HIGH, [], 0, None,
                 false, false, 1.0)
  }

  /** The shortest duration a picked file is given. */
  const MIN_DURATION_MS: int := 1000

  /** What a started trim hands to the processor: the state captured when
      it started. */
  datatype TrimRequest = TrimRequest(
    uri: Uri, startMs: int, endMs: int, format: OutputFormat, quality: QualityPreset, speed: real)

  /** The text a trim failure shows after "Error: ". */
  function ErrorText(e: TrimCommand.TrimError): string {
    match e
    case InvalidRange => "End time must be greater than start time"
    case SourceUnavailable => "Cannot open source file."
    case EngineFailed(log) => "Trim failed: " + log
    case OutputMissing => "Output file not created"
  }

  /** Whether the processor delivers an output for this range and
      environment. */
  predicate TrimSucceeds(startMs: int, endMs: int, env: TrimCommand.TrimEnvironment) {
    endMs > startMs && env.sourceReadable && env.engineSucceeded && env.outputExists
  }

  /** The first check of `trimAudio` that fails, in the order it makes
      them. */
  function FirstTrimError(startMs: int, endMs: int, env: TrimCommand.TrimEnvironment)
    : TrimCommand.TrimError
  {
    if endMs <= startMs then TrimCommand.InvalidRange
    else if !env.sourceReadable then TrimCommand.SourceUnavailable
    else if !env.engineSucceeded then TrimCommand.EngineFailed(env.engineLog)
    else TrimCommand.OutputMissing
  }

  class AudioCutterViewModel {
    var uiState: AudioUiState
    var hasMediaPlayer: bool
    /** Whether the position-polling job is running; `stopPlayback`
        cancels it (the job reference itself is left in place). */
    var positionPolling: bool

    /** The session invariant every handler keeps: the speed stays within
        the tempo limits, both ends of the selection are `Long` values and
        the end never passes the duration, a picked file lasts at least a
        second, only a picked file is processed, and the preview only plays
        with a player. */
    ghost predicate Valid()
      reads this
    {
      && MIN_SPEED <= uiState.speed <= MAX_SPEED
      && IsLong(uiState.startMs) && LONG_MIN <= uiState.endMs
      && uiState.endMs <= uiState.durationMs <= LONG_MAX
      && (uiState.uri.Some? ==> uiState.durationMs >= MIN_DURATION_MS)
      && (uiState.isProcessing ==> uiState.uri.Some?)
      && (uiState.isPlaying ==> hasMediaPlayer)
    }

    constructor()
      ensures uiState == DefaultState() && !hasMediaPlayer && !positionPolling
      ensures Valid()
    {
      uiState := DefaultState();
      hasMediaPlayer := false;
      positionPolling := false;
    }

    /** `onAudioPicked`: `loadedDurationMs` and `fileName` are what the
        metadata retriever and the display-name query returned. The
        selection becomes the whole file and the per-file fields are
        reset; the waveform load it then starts is `LoadWaveform`. */
    method OnAudioPicked(uri: Uri, loadedDurationMs: int, fileName: string)
      requires Valid() && IsLong(loadedDurationMs)
      modifies this`uiState
      ensures Valid()
      ensures uiState == old(uiState).(
                uri := Some(uri), fileName := fileName,
                durationMs := Max(loadedDurationMs, MIN_DURATION_MS),
                startMs := 0, endMs := Max(loadedDurationMs, MIN_DURATION_MS),
                trimmedOutput := None, waveform := [], playbackPositionMs := 0,
                message := Some("File ready: " + fileName), speed := 1.0)
    {
      var safeDuration := Max(loadedDurationMs, MIN_DURATION_MS);
      uiState := uiState.(
        uri := Some(uri), fileName := fileName, durationMs := safeDuration,
        startMs := 0, endMs := safeDuration, trimmedOutput := None, waveform := [],
        playbackPositionMs := 0, message := Some("File ready: " + fileName), speed := 1.0);
    }

    /** `onRangeChange`: both ends are truncated to whole milliseconds; only
        the end is capped at the duration. A range inside `[0, duration]`
        gives an ordered selection inside it. */
    method OnRangeChange(start: real, end: real)
      requires Valid()
      modifies this`uiState
      ensures Valid()
      ensures uiState == old(uiState).(startMs := TruncToLong(start),
                                        endMs := Min(TruncToLong(end), old(uiState).durationMs))
      ensures 0.0 <= start <= end <= uiState.durationMs as real
              ==> 0 <= uiState.startMs <= uiState.endMs <= uiState.durationMs
    {
      var s := TruncToLong(start);
      var e := Min(TruncToLong(end), uiState.durationMs);
      if 0.0 <= start <= end <= uiState.durationMs as real {
        TruncMonotone(start, end, uiState.durationMs);
      }
      uiState := uiState.(startMs := s, endMs := e);
    }

    /** The start of `trim`: nothing happens without a file or while a trim
        runs; otherwise the session is marked busy and the request carries
        the selection and settings as they are now. */
    method Trim() returns (req: Option<TrimRequest>)
      requires Valid()
      modifies this`uiState
      ensures Valid()
      ensures old(uiState).uri.None? || old(uiState).isProcessing
              ==> req.None? && uiState == old(uiState)
      ensures old(uiState).uri.Some? && !old(uiState).isProcessing ==>
              && req == Some(TrimRequest(old(uiState).uri.value, old(uiState).startMs,
                                         old(uiState).endMs, old(uiState).outputFormat,
                                         old(uiState).quality, old(uiState).speed))
              && uiState == old(uiState).(isProcessing := true, message := Some("Trimming..."))
    {
      if uiState.uri.None? || uiState.isProcessing {
        return None;
      }
      req := Some(TrimRequest(uiState.uri.value, uiState.startMs, uiState.endMs,
                              uiState.outputFormat, uiState.quality, uiState.speed));
      uiState := uiState.(isProcessing := true, message := Some("Trimming..."));
    }

    /** The success branch of `trim`: the output is recorded, the preview
        position returns to the selection start, and the interstitial banner
        is due. */
    method OnTrimSucceeded(output: Uri, friendlyPath: string)
      requires Valid()
      modifies this`uiState
      ensures Valid() && !uiState.isProcessing
      ensures uiState == old(uiState).(
                isProcessing := false, trimmedOutput := Some(output),
                playbackPositionMs := old(uiState).startMs, lastSavedPath := Some(friendlyPath),
                showFullScreenBanner := true, showResultDialog := false,
                message := Some("Saved to " + friendlyPath))
    {
      uiState := uiState.(
        isProcessing := false, trimmedOutput := Some(output),
        playbackPositionMs := uiState.startMs, lastSavedPath := Some(friendlyPath),
        showFullScreenBanner := true, showResultDialog := false,
        message := Some("Saved to " + friendlyPath));
    }

    /** The failure branch of `trim`: only the busy flag and the message
        change. */
    method OnTrimFailed(errorText: string)
      requires Valid()
      modifies this`uiState
      ensures Valid() && !uiState.isProcessing
      ensures uiState == old(uiState).(isProcessing := false,
                                        message := Some("Error: " + errorText))
    {
      uiState := uiState.(isProcessing := false, message := Some("Error: " + errorText));
    }

    /** `trim` from start to finish with no other event in between: the
        processor runs on the captured request in the given environment,
        and its outcome is reported through the success or failure branch.
        `friendlyPath` is the output's path under the music directory. */
    method RunTrim(env: TrimCommand.TrimEnvironment, friendlyPath: string)
      returns (engineArgs: Option<seq<string>>)
      requires Valid()
      modifies this`uiState
      ensures Valid()
      ensures old(uiState).uri.None? || old(uiState).isProcessing
              ==> uiState == old(uiState) && engineArgs.None?
      ensures old(uiState).uri.Some? && !old(uiState).isProcessing ==>
              && !uiState.isProcessing
              && (engineArgs.Some? <==> old(uiState).endMs > old(uiState).startMs && env.sourceReadable)
              && (engineArgs.Some? ==>
                    engineArgs.value
                    == TrimCommand.TrimArgumentList(old(uiState).startMs, old(uiState).endMs,
                                                    env.inputCopyPath, env.outputPath,
                                                    old(uiState).outputFormat, old(uiState).quality,
                                                    old(uiState).speed))
              && (TrimSucceeds(old(uiState).startMs, old(uiState).endMs, env) ==>
                    uiState == old(uiState).(
                      isProcessing := false, trimmedOutput := Some(env.outputPath),
                      playbackPositionMs := old(uiState).startMs,
                      lastSavedPath := Some(friendlyPath),
                      showFullScreenBanner := true, showResultDialog := false,
                      message := Some("Saved to " + friendlyPath)))
              && (!TrimSucceeds(old(uiState).startMs, old(uiState).endMs, env) ==>
                    uiState == old(uiState).(
                      isProcessing := false,
                      message := Some("Error: " + ErrorText(
                        FirstTrimError(old(uiState).startMs, old(uiState).endMs, env)))))
    {
      var req := Trim();
      if req.None? {
        return None;
      }
      var r := req.value;
      var outcome := TrimCommand.TrimAudio(r.startMs, r.endMs, r.format, r.quality, r.speed, env);
      engineArgs := outcome.engineArgs;
      match outcome.result {
        case Success(output) =>
          OnTrimSucceeded(output, friendlyPath);
        case Failure(e) =>
          OnTrimFailed(ErrorText(e));
      }
    }

    method UpdateFormat(format: OutputFormat)
      requires Valid()
      modifies this`uiState
      ensures Valid()
      ensures uiState == old(uiState).(outputFormat := format)
    {
      uiState := uiState.(outputFormat := format);
    }

    method UpdateQuality(preset: QualityPreset)
      requires Valid()
      modifies this`uiState
      ensures Valid()
      ensures uiState == old(uiState).(quality := preset)
    {
      uiState := uiState.(quality := preset);
    }

    /** `updateSpeed`: the stored speed is always the requested one clamped
        into `[0.1, 4]`; a playing preview's rate is outside this model. */
    method UpdateSpeed(speed: real)
      requires Valid()
      modifies this`uiState
      ensures Valid()
      ensures uiState == old(uiState).(speed := ClampSpeed(speed))
      ensures MIN_SPEED <= speed <= MAX_SPEED ==> uiState.speed == speed
    {
      uiState := uiState.(speed := ClampSpeed(speed));
    }

    method OnFullScreenBannerFinished()
      requires Valid()
      modifies this`uiState
      ensures Valid()
      ensures uiState == old(uiState).(showFullScreenBanner := false, showResultDialog := false)
    {
      uiState := uiState.(showFullScreenBanner := false, showResultDialog := false);
    }

    method DismissResultDialog()
      requires Valid()
      modifies this`uiState
      ensures Valid()
      ensures uiState == old(uiState).(showResultDialog := false)
    {
      uiState := uiState.(showResultDialog := false);
    }

    /** `clearMessage`: the message ends up absent, and a state without a
        message is left exactly as it was, so clearing twice is clearing
        once. */
    method ClearMessage()
      requires Valid()
      modifies this`uiState
      ensures Valid()
      ensures uiState == old(uiState).(message := None)
      ensures old(uiState).message.None? ==> uiState == old(uiState)
    {
      if uiState.message.Some? {
        uiState := uiState.(message := None);
      }
    }

    /** `stopPlayback`: whatever the player did, it is released, polling
        stops, and the preview position returns to the selection start. */
    method StopPlayback()
      requires Valid()
      modifies this
      ensures Valid()
      ensures !hasMediaPlayer && !positionPolling
      ensures uiState == old(uiState).(isPlaying := false, playbackPositionMs := old(uiState).startMs)
    {
      hasMediaPlayer := false;
      positionPolling := false;
      uiState := uiState.(isPlaying := false, playbackPositionMs := uiState.startMs);
    }

    /** The completion of `loadWaveform`: an empty result is stored with a
        notice, any other result is stored as is. */
    method OnWaveformLoaded(wave: seq<real>)
      requires Valid()
      modifies this`uiState
      ensures Valid()
      ensures wave == [] ==> uiState == old(uiState).(
                waveform := [], message := Some("Waveform not available for this file"))
      ensures wave != [] ==> uiState == old(uiState).(waveform := wave)
    {
      if wave == [] {
        uiState := uiState.(waveform := wave, message := Some("Waveform not available for this file"));
      } else {
        uiState := uiState.(waveform := wave);
      }
    }

    /** `loadWaveform` with the default bucket count: any failure of the
        generator reads as an empty waveform. */
    method LoadWaveform(sourceReadable: bool, engineSucceeded: bool, engineLog: string,
                        pcm: seq<Waveform.Byte>)
      requires Valid()
      modifies this`uiState
      ensures Valid()
      ensures (!sourceReadable || !engineSucceeded || pcm == []) ==> uiState == old(uiState).(
                waveform := [], message := Some("Waveform not available for this file"))
      ensures sourceReadable && engineSucceeded && pcm != [] ==>
              && uiState == old(uiState).(waveform := uiState.waveform)
              && Waveform.IsEnvelope(uiState.waveform, Waveform.Amplitudes(pcm),
                                     Waveform.DEFAULT_BUCKETS)
    {
      var generated := Waveform.GenerateWaveform(sourceReadable, engineSucceeded, engineLog,
                                                 pcm, Waveform.DEFAULT_BUCKETS);
      var wave := if generated.Success? then generated.value else [];
      OnWaveformLoaded(wave);
    }
  }

  /** Truncating both ends of an ordered range inside `[0, limit]` keeps it
      ordered and inside. */
  lemma TruncMonotone(start: real, end: real, limit: int)
    requires 0.0 <= start <= end <= limit as real && limit <= LONG_MAX
    ensures 0 <= TruncToLong(start) <= TruncToLong(end) <= limit
  {
    assert start.Floor <= end.Floor <= limit;
  }
}
