# ZK-Attendance core in Dafny

This is a Dafny model of the parts of the ZK-Attendance system that decide whether a student was
present.

- **Beacon broadcaster.** An iPad broadcaster advertises a Bluetooth LE beacon named
  "ZK-Attendance". Its 128-bit service UUID keeps the first 8 bytes of the fixed base
  `D4F56A24-9CDE-4B12-ABCD-000000000000`. The last 8 bytes are a random nonce, and it is
  re-advertised every 30 seconds.
- **Scanner.** A phone scanner keeps only advertisements with that name and that 8-byte prefix.
  It extracts the nonce and publishes it only when it differs from the last nonce it published.
- **Attendance screens.** Two screens on the phone classify 2-second motion windows (100 samples,
  hop 50) with a variance-ratio gate and a random forest. They smooth the label over the last two
  windows. When a fresh nonce arrives while the smoothed state is "WITH USER", they request a
  proof. They sample the state every 20 s after a 5 s delay, and give a strict-majority verdict
  after 180 s.
- **Prover screen.** The prover screen (`ContentView`) hex-encodes the nonce and sends it to the
  Mac verifier's `/prove`. That endpoint splits it into two 32-bit circuit inputs. The screen then
  maps the `/prove` and `/verify` replies to the text it shows.
- **Training side.** The training-data extractor cuts recordings into the same 100-row windows
  with a 50-row hop. It writes a 14-feature row plus the file's label.

Modules:

| module | file | covers |
|---|---|---|
| `Common` | `common.dfy` | bytes, `Option`, 8-byte nonces |
| `Hex` | `hex.dfy` | `%02x`/`%02X` hex digits, pair decoding, big-endian values |
| `Uuid` | `uuid.dfy` | the 36-character UUID text form (`UUID(uuidString:)`, `uuidString`) |
| `Beacon` | `beacon.dfy` | the broadcaster's constants, the dynamic UUID loop, the `BeaconBroadcaster` class |
| `Scanner` | `scanner.dfy` | the advertisement filter, the nonce extraction, the `BLEScanner` class |
| `Verifier` | `verifier.js` model in `verifier.dfy` | `/prove` validation and circuit input, `/verify` |
| `Presence` | `presence.dfy` | the pure logic both screens share: window, gate and forest outcome, hysteresis, majority, timers |
| `AttendanceScreen` | `attendance_view.dfy` | the `AttendanceView` class |
| `ProverScreen` | `content_view.dfy` | the `ContentView` class, the nonce hand-off, the reply mapping |
| `FeatureLayout` | `features.dfy` | feature names and order, on both the Swift and the Python side; window extraction |

How the model is set up:

- **State as classes.** The screens' `@State` properties and the Bluetooth objects' fields become
  class fields. Each callback (motion update, timer firing, nonce published, HTTP reply) becomes a
  method, called in the order the run loop would deliver them.
- **Clocks.** Clock readings are `now: real` parameters.
- **Parameters for what cannot be seen.** The random nonce, and everything the model cannot see
  (the forest's prediction, the gate's floating-point ratio test), are parameters or
  function-typed constants.
- **Timers.** Timers are a value of type `Presence.Schedule`: how many `asyncAfter` closures are
  pending, which repeating sampling timers are live, and which attendance timer is live.

Behaviour of the code worth noting:

- **Beacon time.** `lastBeaconTime` moves only when the scanner publishes a nonce, and the scanner
  drops repeats (`AttendanceView.swift:88-89`, `BLEScanner.swift:71-73`). So repeated observations
  of the same nonce do not keep the phone "in range".
- **Recorded state.** `AttendanceView` records the smoothed state into the per-window bucket, not
  the raw forest label (`AttendanceView.swift:193`).
- **ContentView never records.** `ContentView` never appends to `instantStates`, so each of its
  samples is false and its verdict is always "❌ Attendance absent"
  (`ProverScreen.ContentView.AttendanceTimerFires`).
- **Timers left running.** `asyncAfter` cannot be cancelled. Pressing the button twice within 5 s
  therefore leaves a repeating sampling timer that nothing invalidates
  (`Presence.OrphanSamplingTimer`).
- **White space in BigInt.** JavaScript's `BigInt('0x' + h)` ignores trailing white space in `h`
  and throws on any other non-hex character. `/prove` therefore accepts some 16-character
  strings that are not 16 hex digits, and answers 500 on others.

## Model

| member | source | states |
|---|---|---|
| `Hex.Encode` | ios/DataLogger/ProverApp/ContentView.swift:257 | the `%02x` join gives two characters per byte |
| `Hex.EncodeAppend` | ios/DataLogger/ProverApp/ContentView.swift:257 | hex-encoding a concatenation is the concatenation of the encodings |
| `Hex.EncodeAt` | ios/DataLogger/ProverApp/ContentView.swift:257 | characters 2i and 2i+1 of the encoding are the two-digit group of byte i |
| `Hex.EncodeDigits` | ios/DataLogger/ProverApp/ContentView.swift:257 | every character of the encoding is a hex digit, and a lower-case one for `%02x` |
| `Hex.DecodeEncode` | ios/DataLogger/ProverApp/ContentView.swift:257 | decoding the digit pairs of the encoding gives back the bytes, so the encoding is injective |
| `Hex.ValueEncode` | mac/verifier.js:27-28 | the number the hex encoding denotes is the big-endian value of the bytes |
| `Hex.BigEndianBound` | mac/verifier.js:23-28 | the big-endian value of n bytes is below 256^n |
| `Hex.ValueBound` | mac/verifier.js:27-28 | the value of n hex digits is below 16^n |
| `Uuid.Parse` | ios/DataLogger/ProverApp/BLEScanner.swift:55 | parsing succeeds exactly on well-formed 36-character text (hyphens at 8, 13, 18 and 23, hex digits elsewhere) and then yields 16 bytes |
| `Uuid.Format` | ios/BeaconBroadcaster/BeaconBroadcaster/BeaconBroadcaster.swift:49 | `uuidString` of 16 bytes is 36 characters long |
| `Uuid.ParseFormat` | ios/BeaconBroadcaster/BeaconBroadcaster/BeaconBroadcaster.swift:49 | the `uuidString` of any 16 bytes is well formed and parses back to the same bytes |
| `Uuid.FormatUpper` | ios/BeaconBroadcaster/BeaconBroadcaster/BeaconBroadcaster.swift:49 | `uuidString` uses only hyphens, digits and upper-case A–F |
| `Beacon.BaseParses` | ios/BeaconBroadcaster/BeaconBroadcaster/BeaconBroadcaster.swift:36 | the base UUID text parses (so the force-unwrap never traps) to the base bytes |
| `Beacon.BaseText` | ios/BeaconBroadcaster/BeaconBroadcaster/BeaconBroadcaster.swift:12 | the base bytes print back as exactly the base UUID text |
| `Beacon.ParseBase` | ios/BeaconBroadcaster/BeaconBroadcaster/BeaconBroadcaster.swift:34-39 | the copy loop fills the 16-byte buffer with the base UUID's bytes |
| `Beacon.BuildDynamicUuid` | ios/BeaconBroadcaster/BeaconBroadcaster/BeaconBroadcaster.swift:34-48 | the result is 16 bytes: the base's first 8 bytes followed by the nonce |
| `Beacon.DynamicBytesLayout` | ios/BeaconBroadcaster/BeaconBroadcaster/BeaconBroadcaster.swift:41 | the advertised bytes keep the base prefix, and byte 8+i is nonce byte i |
| `Beacon.BeaconAdvertisement` | ios/BeaconBroadcaster/BeaconBroadcaster/BeaconBroadcaster.swift:49-55 | the advertisement carries the name "ZK-Attendance" and a single service UUID, whose text parses to the base prefix followed by the nonce |
| `Beacon.BeaconBroadcaster.constructor` | ios/BeaconBroadcaster/BeaconBroadcaster/BeaconBroadcaster.swift:14-17 | a new broadcaster has issued no radio command and advertises nothing |
| `Beacon.BeaconBroadcaster.Advertise` | ios/BeaconBroadcaster/BeaconBroadcaster/BeaconBroadcaster.swift:27-59 | appends stop then start with the advertisement for the new nonce, which is then the one on air; no timer is added |
| `Beacon.BeaconBroadcaster.DidUpdateState` | ios/BeaconBroadcaster/BeaconBroadcaster/BeaconBroadcaster.swift:19-25 | any state but powered-on changes nothing; powered-on advertises once and adds one 30 s repeating timer |
| `Beacon.BeaconBroadcaster.RepeatTimerFires` | ios/BeaconBroadcaster/BeaconBroadcaster/BeaconBroadcaster.swift:22-24 | a live repeating timer re-advertises with a new nonce |
| `Scanner.ExtractNonce` | ios/DataLogger/ProverApp/BLEScanner.swift:47-68 | a nonce is extracted only from an advertisement named "ZK-Attendance" whose first service UUID parses to the base prefix followed by that nonce |
| `Scanner.ExtractNonceComplete` | ios/DataLogger/ProverApp/BLEScanner.swift:47-68 | every such advertisement yields its nonce (the converse of the above) |
| `Scanner.OnlyFirstUuid` | ios/DataLogger/ProverApp/BLEScanner.swift:53-54 | service UUIDs after the first are ignored |
| `Scanner.BasePrefixAgrees` | ios/DataLogger/ProverApp/BLEScanner.swift:11 | the scanner's 8-byte prefix equals the first 8 bytes of the broadcaster's base UUID |
| `Scanner.BroadcastAccepted` | ios/DataLogger/ProverApp/BLEScanner.swift:47-68 | the scanner extracts exactly the nonce that the broadcaster put into its advertisement |
| `Scanner.Observe` | ios/DataLogger/ProverApp/BLEScanner.swift:65-79 | an event is published only for an extracted nonce that differs from the last one, and is suppressed otherwise |
| `Scanner.RepeatSuppressed` | ios/DataLogger/ProverApp/BLEScanner.swift:71-73 | seeing the same advertisement straight after it was processed publishes nothing |
| `Scanner.AlternationPublishesEach` | ios/DataLogger/ProverApp/BLEScanner.swift:17 | only the last published nonce is remembered, so a then b then a again publishes all three |
| `Scanner.BLEScanner.constructor` | ios/DataLogger/ProverApp/BLEScanner.swift:17-22 | a new scanner has no last nonce, has published nothing and is not scanning |
| `Scanner.BLEScanner.Start` | ios/DataLogger/ProverApp/BLEScanner.swift:24-30 | scanning starts, nothing else changes |
| `Scanner.BLEScanner.DidUpdateState` | ios/DataLogger/ProverApp/BLEScanner.swift:32-38 | scanning starts exactly on powered-on |
| `Scanner.BLEScanner.DidDiscover` | ios/DataLogger/ProverApp/BLEScanner.swift:40-80 | the byte-copy loop and the checks publish `Observe`'s event and remember the nonce; the published list grows by that event only |
| `Verifier.TrimEnd` | mac/verifier.js:27-28 | the longest prefix that does not end in JavaScript white space, with only white space removed |
| `Verifier.HexBigInt` | mac/verifier.js:27-28 | `BigInt('0x' + h)`: when it succeeds, its value is below 16^\|h\| |
| `Verifier.DecimalString` | mac/verifier.js:27-28 | `toString()` produces a non-empty string of decimal digits |
| `Verifier.DecimalRoundTrip` | mac/verifier.js:27-28 | the decimal string reads back as the number and has no leading zero |
| `Verifier.Halves` | mac/verifier.js:23-24 | the two 8-character slices that sit side by side to form the string |
| `Verifier.Prove` | mac/verifier.js:15-41 | 400 with the fixed error exactly when `nonceHex` is not a 16-character string; for a 16-character string, the circuit input exactly when both halves convert, holding the two halves' values as decimal strings, and 500 exactly when either half does not |
| `Verifier.CircuitInputBound` | mac/verifier.js:27-31 | both circuit inputs are below 2^32 |
| `Verifier.NonHexHalfFails` | mac/verifier.js:38-40 | a character that is neither hex nor white space anywhere in the string makes `/prove` answer 500 |
| `Verifier.TrailingSpaceIgnored` | mac/verifier.js:27-28 | white space at the end of the first half is accepted and ignored |
| `Verifier.TrimSpace` | mac/verifier.js:27-28 | trimming hex digits followed by white space leaves the digits |
| `Verifier.Verify` | mac/verifier.js:44-53 | always status 200; `verified` is true exactly when `groth16.verify` resolved to true, and false when it threw |
| `Presence.Recent` | ios/DataLogger/ProverApp/AttendanceView.swift:119-126 | the buffer is the last min(n, 100) rows received |
| `Presence.Slide` | ios/DataLogger/ProverApp/AttendanceView.swift:119-126 | after appending a row the buffer holds the last min(n+1, 100) rows of the old buffer plus the new row |
| `Presence.SlideRecent` | ios/DataLogger/ProverApp/AttendanceView.swift:119-126 | appending then trimming to 100 keeps the buffer equal to the last 100 rows of everything received |
| `Presence.ClassifySchedule` | ios/DataLogger/ProverApp/AttendanceView.swift:127-129 | a window is classified exactly when at least 100 rows have arrived and their count is a multiple of 50 |
| `Presence.GateFailureSkipsForest` | ios/DataLogger/ProverApp/AttendanceView.swift:150-153 | a failed ratio gate gives the label false (not with user), whatever the forest would say |
| `Presence.Classify` | ios/DataLogger/ProverApp/AttendanceView.swift:150-183 | a failed gate gives "not with user"; the error path is taken exactly when the gate passes and the forest throws; otherwise the forest's label is used |
| `Presence.Push` | ios/DataLogger/ProverApp/AttendanceView.swift:187-188 | the history keeps two slots: the newer old label, then the new label |
| `Presence.StateText` | ios/DataLogger/ProverApp/AttendanceView.swift:189-191 | "LEFT BEHIND" exactly when both remembered labels are false, "WITH USER" exactly otherwise |
| `Presence.PushAllLastTwo` | ios/DataLogger/ProverApp/AttendanceView.swift:186-188 | after any run of labels the history is the last two of the initial history followed by the labels |
| `Presence.LeftBehindIffTwoFalse` | ios/DataLogger/ProverApp/AttendanceView.swift:186-191 | from a fresh capture, "LEFT BEHIND" shows exactly when the last two labels (at least two) were false |
| `Presence.SingleFalseTolerated` | ios/DataLogger/ProverApp/AttendanceView.swift:189-191 | a single false label after a true one still shows "WITH USER" |
| `Presence.SingleTrueRestores` | ios/DataLogger/ProverApp/AttendanceView.swift:189-191 | one true label restores "WITH USER" |
| `Presence.CountTrue` | ios/DataLogger/ProverApp/AttendanceView.swift:204 | the present count never exceeds the number of states |
| `Presence.CountTrueMultiset` | ios/DataLogger/ProverApp/AttendanceView.swift:204-205 | the present and absent counts are the multiplicities of true and false |
| `Presence.MajorityIff` | ios/DataLogger/ProverApp/AttendanceView.swift:204-206 | a sample is present exactly when strictly more states are true than false; a tie is absent |
| `Presence.MajorityPermutation` | ios/DataLogger/ProverApp/AttendanceView.swift:204-206 | the sample does not depend on the order of the states |
| `Presence.Verdict` | ios/DataLogger/ProverApp/AttendanceView.swift:230-234 | "✅ Attendance confirmed!" exactly when strictly more samples are present than absent, "❌ Attendance absent" exactly otherwise |
| `Presence.AllAbsentVerdict` | ios/DataLogger/ProverApp/ContentView.swift:240-244 | all-absent samples, including none at all, give "❌ Attendance absent" |
| `Presence.NoSecondProof` | ios/DataLogger/ProverApp/AttendanceView.swift:90-93 | after a proof is requested for a nonce, the same nonce never triggers another, while any other nonce does whenever the state is "WITH USER" |
| `Presence.ScheduleSteps` | ios/DataLogger/ProverApp/AttendanceView.swift:213-238 | restarting, the first-sample closure and the attendance timer each keep the timer bookkeeping consistent; after a restart the only live attendance timer is the new one, and after it fires none is |
| `Presence.SingleRunStops` | ios/DataLogger/ProverApp/AttendanceView.swift:219-229 | in a single run, press then first sample then attendance timer, no sampling timer stays live |
| `Presence.OrphanSamplingTimer` | ios/DataLogger/ProverApp/AttendanceView.swift:219-225 | two presses before the first sample leave a repeating sampling timer live after the verdict |
| `AttendanceScreen.AttendanceView.constructor` | ios/DataLogger/ProverApp/AttendanceView.swift:10-38 | the initial values of the screen's state |
| `AttendanceScreen.AttendanceView.StartContinuousCapture` | ios/DataLogger/ProverApp/AttendanceView.swift:105-116 | buffer, counter, history and recorded states are reset; capture runs exactly when motion hardware is available, and the text says which |
| `AttendanceScreen.AttendanceView.MotionUpdate` | ios/DataLogger/ProverApp/AttendanceView.swift:117-130 | an update with no data, or while not capturing, changes nothing; otherwise the row slides into the window and, when due, the window is classified |
| `AttendanceScreen.AttendanceView.ClassifyWindow` | ios/DataLogger/ProverApp/AttendanceView.swift:133-184 | the gate and forest outcome either pushes a label (history, text, recorded smoothed state) or shows "Error" and leaves history and states alone |
| `AttendanceScreen.AttendanceView.PushResult` | ios/DataLogger/ProverApp/AttendanceView.swift:186-194 | the label shifts into the two-slot history, the text is its smoothed state, and that state is recorded |
| `AttendanceScreen.AttendanceView.SampleOnce` | ios/DataLogger/ProverApp/AttendanceView.swift:202-211 | appends the strict majority of the recorded states, then clears them |
| `AttendanceScreen.AttendanceView.StartSampling` | ios/DataLogger/ProverApp/AttendanceView.swift:213-227 | clears samples and verdict, invalidates the old timers and schedules the new ones |
| `AttendanceScreen.AttendanceView.FirstSampleFires` | ios/DataLogger/ProverApp/AttendanceView.swift:219-225 | takes one sample and starts a repeating sampling timer |
| `AttendanceScreen.AttendanceView.SamplingTimerFires` | ios/DataLogger/ProverApp/AttendanceView.swift:221-224 | takes one sample |
| `AttendanceScreen.AttendanceView.AttendanceTimerFires` | ios/DataLogger/ProverApp/AttendanceView.swift:227-238 | stops sampling, shows the majority verdict of the samples and records it with the session once |
| `AttendanceScreen.AttendanceView.OnNonce` | ios/DataLogger/ProverApp/AttendanceView.swift:88-97 | the beacon time moves; a proof is requested exactly when the text is "WITH USER" and the nonce differs from the last one sent |
| `AttendanceScreen.AttendanceView.RangeTick` | ios/DataLogger/ProverApp/AttendanceView.swift:83-86 | out of range exactly when more than 35 s have passed since the last beacon time |
| `AttendanceScreen.AttendanceView.PressStart` | ios/DataLogger/ProverApp/AttendanceView.swift:69-73 | the capture restarts, the beacon time is reset and sampling restarts |
| `ProverScreen.NonceHex` | ios/DataLogger/ProverApp/ContentView.swift:257 | 16 lower-case hex digits that decode back to the nonce |
| `ProverScreen.NonceHexGroups` | ios/DataLogger/ProverApp/ContentView.swift:257 | nonce byte i is characters 2i and 2i+1, high nibble first |
| `ProverScreen.HexBigIntOfDigits` | mac/verifier.js:27-28 | on plain hex digits `BigInt('0x' + h)` is the digits' value |
| `ProverScreen.ProveOfDigits` | mac/verifier.js:15-31 | a 16-character all-hex string reaches the circuit with the two halves' values |
| `ProverScreen.NonceHexCircuitInput` | mac/verifier.js:18-31 | what the app sends always passes `/prove`'s check, and the circuit gets the big-endian values of nonce bytes 0–3 and 4–7, both below 2^32 |
| `ProverScreen.AfterProve` | ios/DataLogger/ProverApp/ContentView.swift:267-296 | `/verify` is called exactly when `/prove` returned a decodable proof, with that proof; otherwise the transport, no-data or decode message is shown |
| `ProverScreen.VerifyMessage` | ios/DataLogger/ProverApp/ContentView.swift:299-318 | confirmed exactly on `verified: true`, "Invalid proof" exactly on `verified: false`, "Bad verify response" exactly on no data, undecodable data or a missing key, and the error text on a transport error |
| `ProverScreen.ServerVerifyOutcome` | mac/verifier.js:44-53 | the verifier's reply is never a bad response for the app: confirmed exactly when the proof verified |
| `ProverScreen.ContentView.constructor` | ios/DataLogger/ProverApp/ContentView.swift:12-53 | the initial values of the screen's state |
| `ProverScreen.ContentView.StartContinuousCapture` | ios/DataLogger/ProverApp/ContentView.swift:111-136 | like the attendance screen, but the recorded states are not cleared |
| `ProverScreen.ContentView.MotionUpdate` | ios/DataLogger/ProverApp/ContentView.swift:122-135 | the same window slide and hop schedule as the attendance screen |
| `ProverScreen.ContentView.ClassifyWindow` | ios/DataLogger/ProverApp/ContentView.swift:138-192 | the same gate and forest outcome, pushing a label or showing "Error" |
| `ProverScreen.ContentView.PushResult` | ios/DataLogger/ProverApp/ContentView.swift:194-199 | shifts the history and shows the smoothed state; records nothing |
| `ProverScreen.ContentView.SampleOnce` | ios/DataLogger/ProverApp/ContentView.swift:200-215 | every sample is absent, because nothing is ever recorded |
| `ProverScreen.ContentView.StartSampling` | ios/DataLogger/ProverApp/ContentView.swift:218-237 | clears samples and verdict and restarts the timers |
| `ProverScreen.ContentView.FirstSampleFires` | ios/DataLogger/ProverApp/ContentView.swift:226-234 | takes one (absent) sample and starts a repeating timer |
| `ProverScreen.ContentView.SamplingTimerFires` | ios/DataLogger/ProverApp/ContentView.swift:230-233 | takes one (absent) sample |
| `ProverScreen.ContentView.AttendanceTimerFires` | ios/DataLogger/ProverApp/ContentView.swift:237-250 | the verdict is the majority verdict and is always "❌ Attendance absent"; nothing is recorded |
| `ProverScreen.ContentView.OnNonce` | ios/DataLogger/ProverApp/ContentView.swift:96-104 | the same gate as the attendance screen; a passing nonce is sent to `/prove` as its lower-case hex |
| `ProverScreen.ContentView.OnProveReply` | ios/DataLogger/ProverApp/ContentView.swift:267-296 | shows the failure message, or sends the decoded proof to `/verify` |
| `ProverScreen.ContentView.OnVerifyReply` | ios/DataLogger/ProverApp/ContentView.swift:299-318 | the proof text becomes the mapped verify message |
| `ProverScreen.ContentView.RangeTick` | ios/DataLogger/ProverApp/ContentView.swift:91-94 | out of range exactly when more than 35 s have passed since the last beacon time |
| `ProverScreen.ContentView.PressStart` | ios/DataLogger/ProverApp/ContentView.swift:77-82 | capture restarts, the scanner is started, the beacon time is reset and sampling restarts |
| `FeatureLayout.HeaderLayout` | dataset/extract_window_features.py:26-28 | header column i < 12 is channel i/2, mean at even i and variance at odd i; columns 12 and 13 are the magnitude's mean and variance |
| `FeatureLayout.BuildHeader` | dataset/extract_window_features.py:24-29 | the header loop builds 15 names: the 14 feature names in `HeaderLayout` order, then "label" |
| `FeatureLayout.HeaderStep` | dataset/extract_window_features.py:27 | one iteration of the loop extends the header by channel k's mean and variance names |
| `FeatureLayout.HeaderMagStep` | dataset/extract_window_features.py:28 | the magnitude names complete the 14 feature columns |
| `FeatureLayout.WindowFeatures` | dataset/extract_window_features.py:12-21 | `window_features` as written: the six means, then the six variances, then the magnitude's mean and variance |
| `FeatureLayout.HeaderMismatch` | dataset/extract_window_features.py:16-27 | the value at position i belongs to the header's column i exactly at positions 0, 11, 12 and 13 |
| `FeatureLayout.AxVarColumnHoldsAyMean` | dataset/extract_window_features.py:16-27 | the column named "ax_var" holds the mean of ay |
| `FeatureLayout.PerChannel` | ios/DataLogger/ProverApp/AttendanceView.swift:159-165 | the per-channel loop gives two values per channel |
| `FeatureLayout.PerChannelAt` | ios/DataLogger/ProverApp/AttendanceView.swift:159-165 | value 2k is channel k's mean and value 2k+1 its variance |
| `FeatureLayout.InterleavedFeatures` | ios/DataLogger/ProverApp/AttendanceView.swift:159-166 | the interleaved layout has 14 values |
| `FeatureLayout.InterleavedMatchesHeader` | ios/DataLogger/ProverApp/AttendanceView.swift:159-166 | every value of the interleaved layout sits under its own header column |
| `FeatureLayout.BuildSwiftFeatures` | ios/DataLogger/ProverApp/ContentView.swift:167-174 | the loop builds exactly the interleaved layout |
| `FeatureLayout.PredictionArgumentsMatch` | ios/DataLogger/ProverApp/ContentView.swift:177-185 | the forest is called with 14 named arguments, and each name's value is the feature of that header column |
| `FeatureLayout.PredictionArgumentName` | ios/DataLogger/ProverApp/AttendanceView.swift:169-177 | argument k is `feats[k]` under the header's k-th name |
| `FeatureLayout.LastIndex` | dataset/extract_window_features.py:32 | the last position of a character, or none when it is absent |
| `FeatureLayout.Basename` | dataset/extract_window_features.py:32 | the base name contains no '/' |
| `FeatureLayout.Stem` | dataset/extract_window_features.py:32 | `splitext(...)[0]` is a prefix of the name. It is the whole name, or the name cut at its last '.'. The name is cut exactly when some character other than '.' comes before a '.' |
| `FeatureLayout.LabelOfCsv` | dataset/extract_window_features.py:31-32 | for `raw/<name>.csv`, where the name has no '/' and is not all dots, the label is the name |
| `FeatureLayout.BasenameAfterSlash` | dataset/extract_window_features.py:32 | the base name of `dir/file` is `file` |
| `FeatureLayout.StemOfCsv` | dataset/extract_window_features.py:32 | `splitext` removes exactly the ".csv" extension |
| `FeatureLayout.LastIndexInSuffix` | dataset/extract_window_features.py:32 | a suffix without the character does not move its last position |
| `FeatureLayout.WindowCount` | dataset/extract_window_features.py:36 | `range(0, N - 100 + 1, 50)` has no start below 100 rows; otherwise its last start 50(r−1) still fits a full window and the next one would not |
| `FeatureLayout.ExtractRows` | dataset/extract_window_features.py:35-39 | one row per window start 0, 50, 100, … that leaves a full 100-row window; row k holds the features of rows 50k..50k+100 and the file's label |

## Left out

- Floating point. The means, variances, magnitudes and the variance-ratio gate are not
  modelled. The gate is an abstract predicate on a window. The random forest (`PresenceRF`,
  CoreML) is an abstract function that either gives a label or throws.
- Cryptography. snarkjs `groth16.fullProve` and `groth16.verify` are outside the model. `/prove`
  ends at the circuit input it would hand to `fullProve`, and `/verify` takes their outcome as a
  parameter.
- Framework plumbing. CoreBluetooth, CoreMotion, URLSession, `Timer`, `DispatchQueue` and Combine
  are not modelled. Their callbacks become method calls, and the hops to the main queue are not
  modelled.
- Timer delays. Only the order in which timers fire is modelled, not the 5 s, 20 s, 30 s and
  180 s delays. Scheduling is not checked against real time.
- Randomness. `SecRandomCopyBytes` is not modelled: each new nonce is a parameter.
- Swift `Int` overflow. The sample counter is unbounded here. In the app, `+=` on `Int` traps
  on overflow, so it would crash (not wrap) after 2^63 − 1 motion updates.
- JavaScript string length. JavaScript strings are modelled as sequences of Unicode
  characters. `.length` and `.slice` count UTF-16 code units, so they agree with the model only
  for text without characters beyond U+FFFF. Text holding lone surrogates cannot be represented.
- CBUUID text. A `CBUUID`'s `uuidString` is taken to be the UUID's own upper-case text form.
- JSON. Encoding and decoding are not modelled. Replies arrive already classified (`ProveReply`,
  `VerifyReply`), the proof is opaque text, and Foundation's `localizedDescription` texts are
  parameters.
- AttendanceView.generateAndSendProof: its body is empty. Only the request it receives (the
  nonce) is recorded.
- ContentView.verifyOnServer (`ContentView.swift:330-348`): it is never called.
- Other files. ProofGenerator.swift, mac/server.js, the login and session code, the history
  views, the Mac broadcaster (main.swift), the DataLogger recording app and the SwiftUI layout
  are not part of this model. `session.recordAttendance` is modelled only as the list of
  statuses it receives.
- Debug logging. The `print` statements, including their hex rendering of the nonce, are not
  modelled.
- Python I/O. The pandas CSV reading and writing, and the order and hidden-file rules of
  `glob`, are not modelled. `ExtractRows` treats one file and takes the feature function as a
  parameter.
- FeatureLayout.LabelOfCsv: the label is proved only for names with no '/' and not made of dots
  alone, which are the names `glob("raw/*.csv")` can return apart from hidden files.
- Training. The training step itself (train_rf.py) is not modelled. Only how it takes columns by
  name (`dataset/train_rf.py:25-28`) matters for the finding below.

## Findings

| source | as written | input that shows it | evidently intended | confidence | as-written member | corrected member |
|---|---|---|---|---|---|---|
| dataset/extract_window_features.py:16-17 | `window_features` returns the six means, then the six variances. The header on line 27 names the columns mean and variance interleaved per channel, so ten of the fourteen columns are mislabelled. The apps pass the interleaved values by header name (`AttendanceView.swift:169-177`), so the served feature order differs from the order the forest was trained on. | any window: column "ax_var" (position 1) holds the mean of ay, and column "ay_mean" (position 2) holds the mean of az | each channel's mean followed by its variance, matching the header and the apps | not executed | `FeatureLayout.HeaderMismatch` | `FeatureLayout.InterleavedMatchesHeader` |
