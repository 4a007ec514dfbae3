# Audio Cutter: a verified model of the trim, waveform, session and preference logic

Audio Cutter is an Android app. The user picks an audio file, selects a range on a waveform or by typing `mm:ss` times, and chooses an output container, a quality preset and a playback speed. The app then has FFmpeg cut the clip. This project models in Dafny the deterministic logic inside that glue and proves what it promises:

- **Trim command** (`command.dfy`, module `TrimCommand`).
  - The range check.
  - The seek and duration in seconds, written with three decimals.
  - The per-container codec arguments.
  - The `atempo` chain that splits a speed into stages the engine accepts.
  - The ordered argument list, joined into one command line with space-quoting.

  The engine run is a parameter; its effects are out of scope.
- **Waveform** (`waveform.dfy`, module `Waveform`). Decoding signed 16-bit little-endian PCM bytes into amplitudes, and the block-averaging loop that reduces them to at most 160 display values.
- **Session** (`session.dfy`, module `Session`). The view model as a class. It holds one immutable `AudioUiState` record that every event replaces with an updated copy, plus whether a preview player exists and whether its position polling is running.
- **Screen helpers** (`time_input.dfy`, module `Screen`).
  - `formatTime` and the text-field rendering.
  - The `mm:ss(.cc)` parser.
  - The clamps the range slider, the two time fields and the speed slider apply before calling the view model.
- **Preferences** (`preferences.dfy`, module `Preferences`). The theme-mode codec and the remembered theme and onboarding flag, written through a key/value store modelled as a `map`.

Shared support:
- `numerics.dfy` holds the JVM arithmetic the code relies on: `Long` wrap-around, truncating division, `Math.round`, saturating conversions and `coerceIn`.
- `decimal.dfy` holds decimal text, both printing and parsing.
- `formats.dfy` holds the two enums and the speed clamp.
- `wrappers.dfy` holds `Option` and `Result`.

`Double` and `Float` values are modelled as exact reals. `%.3f` and `%.2f` are modelled as rounding the exact value half away from zero, then printing a fixed number of digits.

Facts about the code that the model keeps:
- The trim path uses the fixed `codecArgs` table for every format. It has no encoder-capability probing and no codec fallback.
- An MP3 trim goes through the engine's `libmp3lame` codec.
- After a trim, the code checks that the output file exists. It does not check its size.
- The tempo chain takes factors of 2.0 while the factor is above 2.0, then factors of 0.5 while it is below 0.5, each time dividing the factor by the stage (so a 0.5 stage doubles it). Speed 0.2 therefore gives the stages `[0.5, 0.5, 0.8]`. This is `TrimCommand.TempoExamples`.
- `endMs - startMs` in `trimAudio` is a `Long` subtraction, so a difference beyond `Long.MAX_VALUE` wraps. `TrimCommand.DurationWrapExample` shows a wrapped difference written as `0.100`.
- `generateWaveform` throws when the engine fails. The view model turns that failure into an empty waveform (`LoadWaveform`).
- A bucket count of 0 divides by zero, and a negative one yields a single bucket. The app always passes 160.

## Model

| member | source | states |
|---|---|---|
| TrimCommand.Quote | app/src/main/java/com/workwavestudio/audiocutter/AudioTrimProcessor.kt:144 | An argument without a space is kept; one with a space gains a double quote at each end |
| TrimCommand.Join | app/src/main/java/com/workwavestudio/audiocutter/AudioTrimProcessor.kt:50 | No parts give the empty text; otherwise the text starts with the first part and ends with the last |
| TrimCommand.CommandLine | app/src/main/java/com/workwavestudio/audiocutter/AudioTrimProcessor.kt:50 | When no argument holds a space, the line is the arguments joined by single spaces |
| TrimCommand.CommandLineReadsBack | app/src/main/java/com/workwavestudio/audiocutter/AudioTrimProcessor.kt:144 | Quoting every argument that holds a space and joining with single spaces gives a line that splits back (on unquoted spaces) into exactly the argument list, provided no argument is empty or holds a double quote |
| TrimCommand.CodecArgs | app/src/main/java/com/workwavestudio/audiocutter/AudioTrimProcessor.kt:117-126 | Always `-c:a <encoder>`; `-b:a` present iff the container is lossy (M4A, MP3, OGG) and then followed by the preset's rate; `-movflags` present iff M4A; 6, 4 or 2 arguments |
| TrimCommand.BitrateReadsBack | app/src/main/java/com/workwavestudio/audiocutter/AudioTrimProcessor.kt:118 | The bit-rate argument is the preset's kbps (320/192/128) in decimal followed by `k` |
| TrimCommand.SeekTextExact | app/src/main/java/com/workwavestudio/audiocutter/AudioTrimProcessor.kt:34 | The seek text is `max(0, startMs)` milliseconds written as seconds with three decimals, and it parses back to exactly the seek in seconds |
| TrimCommand.DurationTextExact | app/src/main/java/com/workwavestudio/audiocutter/AudioTrimProcessor.kt:33 | The duration text is `max(100, endMs - startMs)` milliseconds written with three decimals, the difference taken as a wrapping `Long` subtraction; when the exact difference fits a `Long` it is that difference; the text parses back to exactly the duration in seconds |
| Decimal.FixedText | app/src/main/java/com/workwavestudio/audiocutter/AudioTrimProcessor.kt:143 | `%.<d>f` text has its point `d` places from the end and starts with a minus sign exactly for a negative value |
| Decimal.ParseFixedText | app/src/main/java/com/workwavestudio/audiocutter/AudioTrimProcessor.kt:143 | A non-negative value with at most `d` decimals is written exactly by `%.<d>f` and parses back to itself |
| Decimal.FixedTextReadsBack | app/src/main/java/com/workwavestudio/audiocutter/AudioTrimProcessor.kt:143 | Any `%.<d>f` text parses back to the value rounded half away from zero to `d` decimals, with its sign |
| TrimCommand.FormatFixedExamples | app/src/main/java/com/workwavestudio/audiocutter/AudioTrimProcessor.kt:143 | 2000, 5000 and 100 thousandths print as "2.000", "5.000" and "0.100" |
| TrimCommand.DurationWrapExample | app/src/main/java/com/workwavestudio/audiocutter/AudioTrimProcessor.kt:33 | A start of -9·10^18 ms and an end of 9·10^18 ms, whose `Long` difference wraps, give the duration text "0.100" |
| TrimCommand.TrimExample | app/src/main/java/com/workwavestudio/audiocutter/AudioTrimProcessor.kt:33-39 | A 2000..7000 ms range at speed 1.0 seeks "2.000", lasts "5.000" and has no tempo stage |
| TrimCommand.StagesFrom | app/src/main/java/com/workwavestudio/audiocutter/AudioTrimProcessor.kt:150-159 | For a positive factor the halving/doubling loops give at least one stage, each in [0.5, 2.0] |
| TrimCommand.StagesProduct | app/src/main/java/com/workwavestudio/audiocutter/AudioTrimProcessor.kt:150-159 | The stages multiply back to the factor |
| TrimCommand.StagesFromChain | app/src/main/java/com/workwavestudio/audiocutter/AudioTrimProcessor.kt:150-159 | A factor already in [0.5, 2.0] is a single stage; above 2 the leading stages are all 2.0 and the last exceeds 1; below 0.5 the leading stages are all 0.5 and the last is under 1 |
| TrimCommand.AtempoStages | app/src/main/java/com/workwavestudio/audiocutter/AudioTrimProcessor.kt:147-159 | No stage iff the clamped speed is within 0.01 of 1; otherwise the stages multiply to the clamped speed and each lies in [0.5, 2.0] |
| TrimCommand.AtempoStagesChain | app/src/main/java/com/workwavestudio/audiocutter/AudioTrimProcessor.kt:147-159 | No stage iff the clamped speed is within 0.01 of 1; otherwise every stage is in [0.5, 2.0], their product is the clamped speed, and the leading stages are all 2.0 or all 0.5 |
| TrimCommand.StageText | app/src/main/java/com/workwavestudio/audiocutter/AudioTrimProcessor.kt:160 | Each stage text is `atempo=` followed by a number with its point two places from the end, the number starting with a minus sign exactly for a negative factor |
| TrimCommand.StageTextReadsBack | app/src/main/java/com/workwavestudio/audiocutter/AudioTrimProcessor.kt:160 | After `atempo=` the stage text reads back as the factor rounded half away from zero to two decimals |
| TrimCommand.ChainText | app/src/main/java/com/workwavestudio/audiocutter/AudioTrimProcessor.kt:160 | The filter text is empty iff there are no stages |
| TrimCommand.BuildAtempoFilters | app/src/main/java/com/workwavestudio/audiocutter/AudioTrimProcessor.kt:146-161 | The two loops produce the text of the stage chain above, and the result is empty iff the clamped speed is within 0.01 of 1 |
| TrimCommand.TempoExamples | app/src/main/java/com/workwavestudio/audiocutter/AudioTrimProcessor.kt:150-159 | Speed 3.0 gives [2.0, 1.5], 0.25 gives [0.5, 0.5], 0.2 gives [0.5, 0.5, 0.8] |
| TrimCommand.TrimAudio | app/src/main/java/com/workwavestudio/audiocutter/AudioTrimProcessor.kt:26-61 | `end <= start` fails with the range error before the source is opened or any command runs; an unreadable source fails before the engine runs; otherwise the engine gets exactly the ordered argument list (seek, duration, input, `-vn`, filter iff a chain, codec args, `-y`, output), and the result is the output path, the engine's log on failure, or "output not created" |
| TrimCommand.TrimArgumentList | app/src/main/java/com/workwavestudio/audiocutter/AudioTrimProcessor.kt:33-48 | `-ss` with the seek text `max(0, startMs)` ms, `-t` with `max(100, endMs - startMs)` ms (wrapping `Long` difference), `-i` with the input, `-vn`, then `-filter:a` followed by the tempo stage chain exactly when the clamped speed is not within 0.01 of 1, the codec arguments, `-y` and the output, in that order; the list holds 9 arguments plus the filter pair and the codec arguments |
| TrimCommand.TrimCommandReadsBack | app/src/main/java/com/workwavestudio/audiocutter/AudioTrimProcessor.kt:37-50 | When neither path holds a double quote and both are non-empty, the command line reads back as exactly the trim argument list |
| Waveform.ToShort | app/src/main/java/com/workwavestudio/audiocutter/AudioTrimProcessor.kt:93 | `toShort()` lands in [-32768, 32767] and keeps values already in range |
| Waveform.Samples | app/src/main/java/com/workwavestudio/audiocutter/AudioTrimProcessor.kt:87-95 | One sample per two bytes, rounded up, each in the 16-bit range |
| Waveform.SampleAt | app/src/main/java/com/workwavestudio/audiocutter/AudioTrimProcessor.kt:89-94 | Sample k is `(b[2k+1] << 8) or (b[2k] and 0xFF)` as a Short, or 0 for a lone trailing byte |
| Waveform.SamplesOfEncoding | app/src/main/java/com/workwavestudio/audiocutter/AudioTrimProcessor.kt:92-93 | Decoding reads back every 16-bit sample written little-endian |
| Waveform.Amplitudes | app/src/main/java/com/workwavestudio/audiocutter/AudioTrimProcessor.kt:96 | One amplitude per sample, each between 0 and 32768/32767 |
| Waveform.Bucket | app/src/main/java/com/workwavestudio/audiocutter/AudioTrimProcessor.kt:107-108 | A display value lies in [0, 1] |
| Waveform.BucketIsAverage | app/src/main/java/com/workwavestudio/audiocutter/AudioTrimProcessor.kt:107-108 | For amplitudes in [0, 1] the clamp changes nothing: the value is the plain average of its slice |
| Waveform.IsEnvelope | app/src/main/java/com/workwavestudio/audiocutter/AudioTrimProcessor.kt:101-113 | Every value of an envelope lies in [0, 1] |
| Waveform.Downsample | app/src/main/java/com/workwavestudio/audiocutter/AudioTrimProcessor.kt:101-113 | No samples give an empty result; a zero bucket count fails (division by zero); otherwise bucket k is the clamped average of samples [k·step, min((k+1)·step, n)) with step = max(1, n / buckets), there are between 1 and max(buckets, 1) buckets, and fewer only when the samples ran out |
| Waveform.EnvelopeBounds | app/src/main/java/com/workwavestudio/audiocutter/AudioTrimProcessor.kt:103-112 | Every value is in [0, 1]; at most `buckets` values; exactly `buckets` once there are at least that many samples; one value for a negative count |
| Waveform.EnvelopeLength | app/src/main/java/com/workwavestudio/audiocutter/AudioTrimProcessor.kt:103-112 | The length is min(max(buckets, 1), ceil(n / step)) |
| Waveform.GenerateWaveform | app/src/main/java/com/workwavestudio/audiocutter/AudioTrimProcessor.kt:64-114 | An unreadable source or an engine failure is reported; an empty decode gives an empty waveform; otherwise the result is the non-empty envelope of the decoded amplitudes |
| Session.DefaultState | app/src/main/java/com/workwavestudio/audiocutter/AudioCutterViewModel.kt:36-54 | No file, not busy, not playing, no message, MP3 at High quality, speed 1.0, all times 0 |
| Session.AudioCutterViewModel.constructor | app/src/main/java/com/workwavestudio/audiocutter/AudioCutterViewModel.kt:60-64 | Starts from the default state with no player and no position polling running, and the session invariant holds |
| Session.AudioCutterViewModel.OnAudioPicked | app/src/main/java/com/workwavestudio/audiocutter/AudioCutterViewModel.kt:66-87 | The duration becomes max(loaded, 1000); the selection becomes the whole file; position and speed are reset; output and waveform are cleared; the message is "File ready: <name>"; format, quality and the other fields are unchanged |
| Session.AudioCutterViewModel.OnRangeChange | app/src/main/java/com/workwavestudio/audiocutter/AudioCutterViewModel.kt:89-96 | The start is the truncated range start, unclamped; the end is min(truncated end, duration); nothing else changes; a range inside [0, duration] gives 0 <= start <= end <= duration |
| Numerics.TruncToLong | app/src/main/java/com/workwavestudio/audiocutter/AudioCutterViewModel.kt:90-91 | `Float.toLong()` gives a `Long`; a non-negative value in range truncates to the whole number just below or at it, and a non-negative value never gives a negative one |
| Session.TruncMonotone | app/src/main/java/com/workwavestudio/audiocutter/AudioCutterViewModel.kt:90-91 | Truncating an ordered range inside [0, limit] keeps it ordered and inside |
| Session.AudioCutterViewModel.Trim | app/src/main/java/com/workwavestudio/audiocutter/AudioCutterViewModel.kt:98-107 | Without a file, or while busy, nothing changes and nothing starts; otherwise the session becomes busy with "Trimming..." and the request carries the current selection, format, quality and speed |
| Session.AudioCutterViewModel.OnTrimSucceeded | app/src/main/java/com/workwavestudio/audiocutter/AudioCutterViewModel.kt:114-126 | Not busy; output and saved path recorded; position back at the selection start; banner shown and dialog hidden; "Saved to <path>" |
| Session.AudioCutterViewModel.OnTrimFailed | app/src/main/java/com/workwavestudio/audiocutter/AudioCutterViewModel.kt:127-132 | Only the busy flag (now false) and the message ("Error: ...") change |
| Session.AudioCutterViewModel.RunTrim | app/src/main/java/com/workwavestudio/audiocutter/AudioCutterViewModel.kt:98-134 | A started trim invokes the engine iff the range is valid and the source is readable, with exactly the trim argument list for the captured settings; it ends not busy, in the success state when the processor delivers an output, and otherwise with the processor's first error as the message |
| Session.AudioCutterViewModel.UpdateFormat | app/src/main/java/com/workwavestudio/audiocutter/AudioCutterViewModel.kt:136-138 | Only the output format changes |
| Session.AudioCutterViewModel.UpdateQuality | app/src/main/java/com/workwavestudio/audiocutter/AudioCutterViewModel.kt:140-142 | Only the quality changes |
| Formats.ClampSpeed | app/src/main/java/com/workwavestudio/audiocutter/AudioCutterViewModel.kt:145 | The speed lands in [0.1, 4]; a speed in range is kept, one below becomes 0.1 and one above becomes 4 |
| Session.AudioCutterViewModel.UpdateSpeed | app/src/main/java/com/workwavestudio/audiocutter/AudioCutterViewModel.kt:144-156 | Only the speed changes, to the request clamped into [0.1, 4]; an in-range request is stored as is |
| Session.AudioCutterViewModel.OnFullScreenBannerFinished | app/src/main/java/com/workwavestudio/audiocutter/AudioCutterViewModel.kt:158-163 | Both the banner and the result dialog are cleared, nothing else |
| Session.AudioCutterViewModel.DismissResultDialog | app/src/main/java/com/workwavestudio/audiocutter/AudioCutterViewModel.kt:165-167 | Only the result dialog is cleared |
| Session.AudioCutterViewModel.ClearMessage | app/src/main/java/com/workwavestudio/audiocutter/AudioCutterViewModel.kt:240-244 | The message ends absent and nothing else changes; a state without a message is left exactly as it was |
| Session.AudioCutterViewModel.StopPlayback | app/src/main/java/com/workwavestudio/audiocutter/AudioCutterViewModel.kt:246-256 | Player released, position polling cancelled, not playing, position back at the selection start, nothing else changed |
| Session.AudioCutterViewModel.OnWaveformLoaded | app/src/main/java/com/workwavestudio/audiocutter/AudioCutterViewModel.kt:178-182 | An empty waveform is stored with "Waveform not available for this file"; any other is stored alone |
| Session.AudioCutterViewModel.LoadWaveform | app/src/main/java/com/workwavestudio/audiocutter/AudioCutterViewModel.kt:169-184 | Any generator failure, or an empty decode, leaves an empty waveform and the notice; otherwise only the waveform changes, to the envelope of the decoded samples at 160 buckets |
| Screen.FormatTime | app/src/main/java/com/workwavestudio/audiocutter/ui/AudioCutterScreen.kt:826-831 | Minutes, `:`, and two-digit seconds; the seconds are below 60; minutes·60 + seconds is the whole seconds, never negative; anything under one second prints "00:00" |
| Screen.FormatToTimeInput | app/src/main/java/com/workwavestudio/audiocutter/ui/AudioCutterScreen.kt:435-440 | Before the first `:` stand at least two digits spelling the whole minutes of the time (never negative), and the text ends in two fraction digits |
| Screen.SnapFormatTime | app/src/main/java/com/workwavestudio/audiocutter/ui/AudioCutterScreen.kt:826-831 | The text `formatTime` shows parses back as its whole seconds in milliseconds |
| Screen.SnapTimeInput | app/src/main/java/com/workwavestudio/audiocutter/ui/AudioCutterScreen.kt:435-450 | The `MM:SS.cc` text the fields show parses back to a multiple of 10 ms within 5 ms of the time shown |
| Screen.TrimStart | app/src/main/java/com/workwavestudio/audiocutter/ui/AudioCutterScreen.kt:442 | A suffix of the input that does not start with whitespace, everything dropped being whitespace |
| Screen.TrimEnd | app/src/main/java/com/workwavestudio/audiocutter/ui/AudioCutterScreen.kt:442 | A prefix of the input that does not end with whitespace, everything dropped being whitespace |
| Decimal.ParseLong | app/src/main/java/com/workwavestudio/audiocutter/ui/AudioCutterScreen.kt:445 | `toLongOrNull`: any value read fits a `Long` |
| Decimal.ParseDecimal | app/src/main/java/com/workwavestudio/audiocutter/ui/AudioCutterScreen.kt:446 | `toDoubleOrNull`: empty text never reads, and a value is negative only after a minus sign |
| Screen.ParseClock | app/src/main/java/com/workwavestudio/audiocutter/ui/AudioCutterScreen.kt:442-446 | Any minute count read fits a `Long` |
| Screen.ParseClockAt | app/src/main/java/com/workwavestudio/audiocutter/ui/AudioCutterScreen.kt:442-446 | With the first `:` of the cleaned text at k: a time iff no other `:` follows, the part before parses as a `Long` and the part after as a number, and then those are its parts |
| Screen.ParseClockNoColon | app/src/main/java/com/workwavestudio/audiocutter/ui/AudioCutterScreen.kt:443-444 | Cleaned text without `:` never reads as a time |
| Screen.ParseClockOf | app/src/main/java/com/workwavestudio/audiocutter/ui/AudioCutterScreen.kt:442-446 | Minute digits, `:` and a decimal text read back part by part |
| Screen.SnapSeconds | app/src/main/java/com/workwavestudio/audiocutter/ui/AudioCutterScreen.kt:447-449 | A negative total is refused; otherwise the result is non-negative, a multiple of 10 and within 5 ms of the exact time; every total that fits a `Long` is accepted |
| Screen.SnapToMs | app/src/main/java/com/workwavestudio/audiocutter/ui/AudioCutterScreen.kt:441-450 | Corrected `snapToMsFromInput`: null unless the text parses; null for a negative total; any result is non-negative, a multiple of 10, and within 5 ms of minutes·60 + seconds; no result is invented by overflow |
| Screen.SnapToMsAsWritten | app/src/main/java/com/workwavestudio/audiocutter/ui/AudioCutterScreen.kt:441-450 | The code as written: results are `Long` values and exist only for text that parses |
| Screen.SnapClockAsWritten | app/src/main/java/com/workwavestudio/audiocutter/ui/AudioCutterScreen.kt:447-449 | The as-written arithmetic yields only `Long` values |
| Screen.SnapAsWrittenAgrees | app/src/main/java/com/workwavestudio/audiocutter/ui/AudioCutterScreen.kt:447-449 | Where `minutes * 60` fits and the corrected result exists, the code as written gives the same result |
| Screen.SnapOverflowsToNegative | app/src/main/java/com/workwavestudio/audiocutter/ui/AudioCutterScreen.kt:449 | "200000000000000:00" reads as -6446744073709551616 ms as written; the corrected reading refuses it |
| Screen.SnapMinutesWrap | app/src/main/java/com/workwavestudio/audiocutter/ui/AudioCutterScreen.kt:447 | "307445734561825861:00" reads as 44000 ms as written; the corrected reading refuses it |
| Screen.ClampTypedStart | app/src/main/java/com/workwavestudio/audiocutter/ui/AudioCutterScreen.kt:505-506 | A typed start lands in [0, min(limit, end)] and is kept when already there |
| Screen.ClampTypedEnd | app/src/main/java/com/workwavestudio/audiocutter/ui/AudioCutterScreen.kt:521-522 | A typed end lands in [start, limit] and is kept when already there |
| Screen.MaxRange | app/src/main/java/com/workwavestudio/audiocutter/ui/AudioCutterScreen.kt:434 | The slider bound is positive |
| Screen.ClampSliderRange | app/src/main/java/com/workwavestudio/audiocutter/ui/AudioCutterScreen.kt:486-490 | The result satisfies 0 <= start <= end <= maxRange; a range already inside is unchanged |
| Screen.OnStartTyped | app/src/main/java/com/workwavestudio/audiocutter/ui/AudioCutterScreen.kt:501-509 | Text that `snapToMsFromInput` as written rejects changes nothing; otherwise only the start changes, to its as-written reading clamped into [0, min(duration, end)], and 0 <= start <= end |
| Screen.OnEndTyped | app/src/main/java/com/workwavestudio/audiocutter/ui/AudioCutterScreen.kt:517-525 | Text that `snapToMsFromInput` as written rejects changes nothing; otherwise only the end changes, to its as-written reading clamped into [start, duration], and 0 <= start <= end <= duration |
| Screen.OnSliderMoved | app/src/main/java/com/workwavestudio/audiocutter/ui/AudioCutterScreen.kt:486-490 | The view model receives the clamped range; with a known duration the selection ends ordered and inside it |
| Screen.SnapSpeed | app/src/main/java/com/workwavestudio/audiocutter/ui/AudioCutterScreen.kt:580-581 | The speed is in [0.1, 4] and a whole number of tenths |
| Screen.SnapSpeedStable | app/src/main/java/com/workwavestudio/audiocutter/ui/AudioCutterScreen.kt:579-582 | A snapped speed is unchanged by the view model's clamp and by snapping again; a raw speed in range moves by at most 0.05 |
| Screen.OnSpeedSliderMoved | app/src/main/java/com/workwavestudio/audiocutter/ui/AudioCutterScreen.kt:579-582 | The view model stores exactly the snapped speed, nothing else |
| Preferences.FirstWithValue | app/src/main/java/com/workwavestudio/audiocutter/AppPreferences.kt:23 | A found mode is in the list and has the value; no result means no mode in the list has it |
| Preferences.FromValue | app/src/main/java/com/workwavestudio/audiocutter/AppPreferences.kt:22-24 | LIGHT iff "light", DARK iff "dark", SYSTEM for anything else including absence |
| Preferences.FromValueOfValue | app/src/main/java/com/workwavestudio/audiocutter/AppPreferences.kt:16-24 | `fromValue(m.value) == m` for every mode |
| Preferences.ValuesDistinct | app/src/main/java/com/workwavestudio/audiocutter/AppPreferences.kt:17-19 | Two modes with the same stored string are the same mode |
| Preferences.LoadedTheme | app/src/main/java/com/workwavestudio/audiocutter/AppPreferences.kt:41-43 | An absent theme key loads as SYSTEM |
| Preferences.LoadedOnboarding | app/src/main/java/com/workwavestudio/audiocutter/AppPreferences.kt:44-46 | An absent onboarding key loads as false |
| Preferences.LoadEmpty | app/src/main/java/com/workwavestudio/audiocutter/AppPreferences.kt:41-46 | An empty store loads as SYSTEM, not onboarded |
| Preferences.ReloadAfterSetTheme | app/src/main/java/com/workwavestudio/audiocutter/AppPreferences.kt:48-51 | After storing a mode's value, reloading yields that mode and the onboarding flag is unchanged |
| Preferences.ReloadAfterSetOnboarding | app/src/main/java/com/workwavestudio/audiocutter/AppPreferences.kt:52-55 | After storing the flag, reloading yields it and the theme is unchanged |
| Preferences.AppPreferencesState.constructor | app/src/main/java/com/workwavestudio/audiocutter/AppPreferences.kt:35-46 | The remembered values are what the store loads as |
| Preferences.AppPreferencesState.SetThemeMode | app/src/main/java/com/workwavestudio/audiocutter/AppPreferences.kt:48-51 | The mode is remembered, its value is stored under "theme_mode", the flag is untouched, and reloading still agrees with the remembered values |
| Preferences.AppPreferencesState.SetOnboardingSeen | app/src/main/java/com/workwavestudio/audiocutter/AppPreferences.kt:52-55 | The flag is remembered and stored under "onboarding_seen", the theme is untouched, and reloading still agrees |

## Left out

- FFmpegKit execution, the scratch copy of the source (`copyToCache`), temporary and output file creation and deletion, and the clock that names the output. The processor takes the engine's outcome, the paths and whether the source opens as parameters (`TrimEnvironment`; the arguments of `GenerateWaveform`).
- The waveform command's own argument list (`-ac 1 -ar 8000 -f s16le`). Only its output bytes are an input to the model.
- TrimCommand.CommandLineReadsBack: the reference tokenizer knows only double quotes and spaces. It says nothing about arguments that are empty or hold a `"`, which the code passes through unescaped.
- Floating point throughout. Speeds, seconds and amplitudes are exact reals, so the tempo stages, `%.3f`, `%.2f` and `average()` carry no binary rounding, and `Long.toFloat()` keeps every millisecond (a `Float` is exact only up to 2^24). `NaN` and infinities are not modelled.
- Screen.SnapToMs and Screen.SnapToMsAsWritten: `toDoubleOrNull` is modelled for plain decimal text only (optional sign, digits, optional point). Whitespace and control characters (up to U+0020) around the number, exponents, `NaN`/`Infinity`, hexadecimal and type-suffixed forms read as no number here, so `"1: 30"` reads as no time although the code reads it as 90000 ms. Likewise `"0:NaN"` reads as no time here, while in the code the `NaN` seconds pass the `totalSeconds < 0` check and reach `roundToLong()`, which throws on `NaN`. `toLongOrNull` digits are ASCII only. `minutes * 60` is converted to a `Double` without rounding.
- Screen.FormatTime: `"%02d:%02d"` is formatted with the default locale, which can print non-ASCII digits. The model always prints ASCII digits.
- Screen.FormatToTimeInput: the `%05.2f` seconds use the same exact-real rounding. The `Float` division `(totalMs % 60000) / 1000f` is taken as exact.
- The media player: preview playback (`togglePlayback`), the 100 ms position polling, the preview auto-stop timer, and the playback-rate update inside `updateSpeed`. Only `stopPlayback`'s effect on the state and on the player and polling flags is modelled.
- `loadDurationMs` and `readDisplayName`, which query Android media metadata and content providers. Their results are parameters of `OnAudioPicked`.
- The coroutine scheduling of `trim` and `loadWaveform`. The start and completion of each are separate methods so other events can interleave. `RunTrim` is the uninterrupted case. The friendly output path, built from the music directory and the output's file name, is a parameter.
- Session.AudioCutterViewModel.OnRangeChange: the `Float` range is given as reals. `Float.toLong()` is modelled as truncation that saturates at the `Long` bounds.
- `coerceIn` with an empty range throws. The clamp functions and the screen handlers require a non-empty range instead; the screen only calls them with one.
- Preferences: the store's asynchronous `apply()`, `PREFS_NAME` file selection, and the `ClassCastException` a wrong-typed entry would raise. The last is excluded by the `WellTyped` requirement.
- Encoder-capability probing, codec fallback and the MP3 route through the native LAME encoder (`LameMp3Encoder.kt`, `lame_jni.cpp`) do not exist in the trim path modelled here, so they are not modelled.
- `OutputFormat.extension` and the labels of the two enums. The extension only names the output file, whose path is a parameter, and the labels are display text.
- The Compose UI tree, waveform drawing, ads, theme, navigation and splash screen.

## Findings

| source | as written | input that shows it | evidently intended | confidence | as-written member | corrected member |
|---|---|---|---|---|---|---|
| app/src/main/java/com/workwavestudio/audiocutter/ui/AudioCutterScreen.kt:449 | `(totalSeconds * 100).roundToLong() * 10` is a `Long` product that wraps past `Long.MAX_VALUE` | "200000000000000:00": 1.2e18 centiseconds; times 10 wraps to -6446744073709551616 ms (every `Double` here is exact) | A typed time too large for a millisecond `Long` is refused (null), never turned into a negative time | high (not executed) | Screen.SnapOverflowsToNegative | Screen.SnapToMs |
| app/src/main/java/com/workwavestudio/audiocutter/ui/AudioCutterScreen.kt:447 | `minutes * 60` is a `Long` product that wraps before the seconds are added | "307445734561825861:00": 2^64 + 44 seconds wraps to 44, read as 44000 ms | The same text is refused rather than read as a small unrelated time | high (not executed) | Screen.SnapMinutesWrap | Screen.SnapToMs |
