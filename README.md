# AudioRecorderApp, modelled in Dafny

AudioRecorderApp is a SwiftUI app. A user logs in, and the app then opens a recording session and an upload job on its back end (`https://app.cagnea.com`). The user records audio to `.m4a` files while a live waveform is drawn. They can play, select and delete recordings, and are meant to upload a selected one (see Findings) as a multipart form with seven metadata fields and a SHA-256 checksum.

This project models the logic of the app behind that UI:

- **Audio service** (`audio_service.dfy`): `AudioPlayer` and `AudioRecorder` are classes whose methods update their fields. The player covers play, pause, stop, seek and the progress tick. The recorder covers start, stop, the meter tick and its bounded meter history. Meter normalisation is a pure function.
- **Waveform** (`waveform_view.dfy`): downsamples the meter history into bar values, over `real`. Then comes the per-bar cap, height, offset and width.
- **Authentication and upload client** (`auth_service.dfy`):
  - the `{success, data}` envelope checks of login, session creation and job creation;
  - the lowercase-hex checksum text;
  - the multipart body, built append by append in a loop and proved equal to a byte layout;
  - the upload's status check and the progress delegate's guard.
- **POST client** (`api_service.dfy`): the error descriptions, the request `post` builds, and how it classifies the outcome of an exchange.
- **Login view model** (`login_screen_model.dfy`): a class whose `Login` runs the three dependent calls. It returns the calls it made and updates the six published fields.
- **Upload screen** (`upload_screen.dfy`): the four-field state machine of `startUpload`, cut at its `await`, and the Retry trigger.
- **Recording screen** (`recording_screen.dfy`):
  - the recordings list, a filter and a descending sort proved sorted and a permutation;
  - the `m:ss` duration text, with a parse-back round trip;
  - the date fallback;
  - the Record, Play, row, delete and upload handlers as methods of a class that owns a recorder and a player.
- `basics.dfy` holds what the modules share: `Option`/`Result`, bytes, decimal text, UTF-8, file URLs with `pathExtension` and the base name. `models.dfy` holds the JSON records.

Every effect outside the program becomes an input:

- audio hardware results;
- timer firings, as explicit method calls;
- transport outcomes;
- JSON decoding;
- directory listings;
- SHA-256;
- the UUID;
- the ISO 8601 time stamp;
- dictionary iteration order, as any permutation of the seven keys.

The model follows the code in these places:

- The upload screen treats an upload response with `success: false` as a success.
- A deleted file that is playing is removed first and the player stopped afterwards.
- Upload progress is reported as sent, neither clamped nor forced to be non-decreasing.
- A failed login step shows one fixed message, not that step's error.

## Model

| member | source | states |
|---|---|---|
| Basics.ReplaceChar | AudioRecorderApp/Services/AudioService.swift:165 | `replacingOccurrences(of:with:)` for one character: same length, every occurrence replaced, every other character kept |
| Basics.Decimal | AudioRecorderApp/Services/AuthService.swift:112 | the interpolated `Int` is a non-empty digit string with no leading zero |
| Basics.DecimalRoundTrip | AudioRecorderApp/Services/AuthService.swift:112 | the numeral reads back as the number it was made from |
| Basics.Pad2 | AudioRecorderApp/Views/RecordingScreen.swift:274 | `%02d` gives at least two digits, exactly two below 100 |
| Basics.Pad2RoundTrip | AudioRecorderApp/Views/RecordingScreen.swift:274 | the zero-padded numeral reads back as its number |
| Basics.EncodeChar | AudioRecorderApp/Services/AuthService.swift:179-183 | a character's UTF-8 form is 1 to 4 bytes, one byte exactly for ASCII; the lead byte announces the length; continuation bytes are 0x80-0xBF |
| Basics.EncodeCharDecodes | AudioRecorderApp/Services/AuthService.swift:179-183 | decoding a character's UTF-8 bytes gives its code point back |
| Basics.Utf8 | AudioRecorderApp/Services/AuthService.swift:179-183 | `string.data(using: .utf8)` never fails and gives one to four bytes per character |
| Basics.Utf8RoundTrip | AudioRecorderApp/Services/AuthService.swift:179-183 | UTF-8 bytes of a string decode back to that string |
| Basics.DecodeUtf8Canonical | AudioRecorderApp/Services/AuthService.swift:179-183 | the decoder accepts only canonical UTF-8 (continuation bytes in 0x80-0xBF, no overlong form, no surrogate, nothing past U+10FFFF): bytes that decode to a string are that string's encoding |
| Basics.Utf8Injective | AudioRecorderApp/Services/AuthService.swift:179-183 | different strings never append the same bytes |
| Basics.Utf8Append | AudioRecorderApp/Services/AuthService.swift:179-183 | appending two strings one after the other appends the bytes of their concatenation |
| Basics.Utf8Ascii | AudioRecorderApp/Services/AuthService.swift:104-106 | ASCII text such as the delimiter lines is one byte per character, byte = code |
| Basics.PathExtension | AudioRecorderApp/Views/RecordingScreen.swift:243 | `pathExtension` holds no dot: the text after the last dot of the name |
| Basics.BaseName | AudioRecorderApp/Views/RecordingScreen.swift:260 | the name is the base name, a dot and the extension, or the whole name when it has no dot |
| Basics.SplitDottedName | AudioRecorderApp/Views/RecordingScreen.swift:243 | a name `<base>.<ext>` with a non-empty base and a dot-free extension has exactly that extension and base name |
| ApiService.ErrorDescription | AudioRecorderApp/Services/ApiService.swift:22-40 | every case has a description; `serverError(m)` is described as exactly `m`, the others by non-empty fixed texts |
| ApiService.FixedDescriptionsDistinct | AudioRecorderApp/Services/ApiService.swift:22-40 | the six payload-free cases have six different descriptions |
| ApiService.MakeRequest | AudioRecorderApp/Services/ApiService.swift:60-69 | method and body as given, 15 second time-out, JSON content type and accept, `Authorization: Bearer <token>` exactly when a token is given, no other header |
| ApiService.Exchange | AudioRecorderApp/Services/ApiService.swift:79-96 | the exchange yields a value iff a 2xx HTTP response decodes; a transport error passes through as is, a non-HTTP response is `invalidResponse`, a bad status is a `serverError`, and a bad body a decoding error |
| ApiService.Catch | AudioRecorderApp/Services/ApiService.swift:98-104 | `requestTimeout` exactly for a timed-out URL error and `decodingError` exactly for a decoding error; everything else, every `ApiError` included, becomes `unknownError` |
| ApiService.Post | AudioRecorderApp/Services/ApiService.swift:54-105 | no request without a URL and an encoded body; `invalidURL` iff the URL does not parse; an encoding failure is `unknownError`; success iff a 2xx response decodes, giving the decoded value; time-out, decoding and every other failure classified; `serverError` and `invalidResponse` never come out |
| ApiService.ServerErrorSwallowed | AudioRecorderApp/Services/ApiService.swift:79-104 | a 500 makes the `do` block throw `serverError("Server returned status code 500")`, yet `post` throws `unknownError` |
| ApiService.PostIntended | AudioRecorderApp/Services/ApiService.swift:79-104 | with the do block's own errors passed on: same request and same successes as `post`, a non-HTTP response is `invalidResponse`, a bad status is `serverError` with its code, a time-out is `requestTimeout` |
| AudioService.Normalize | AudioRecorderApp/Services/AudioService.swift:232-237 | the level is in [0, 1]; 0 at or below -60 dB, 1 at or above 0 dB, and (db + 60) / 60 in between |
| AudioService.NormalizeMonotone | AudioRecorderApp/Services/AudioService.swift:232-237 | a louder reading never gives a lower level |
| AudioService.Trim | AudioRecorderApp/Services/AudioService.swift:217-219 | `removeFirst(count - max)` keeps the newest `min(count, max)` entries, in order |
| AudioService.TrimAppend | AudioRecorderApp/Services/AudioService.swift:215-219 | trimming after every append equals trimming once after the append |
| AudioService.Levels | AudioRecorderApp/Services/AudioService.swift:213-214 | one normalised level per power reading, in order |
| AudioService.FeedIsTrimmedAppend | AudioRecorderApp/Services/AudioService.swift:208-220 | any number of meter ticks leave the newest `max` entries of the old history followed by the new levels, oldest evicted first |
| AudioService.FeedBounds | AudioRecorderApp/Services/AudioService.swift:208-220 | the history never exceeds `max` entries and stays within [0, 1] |
| AudioService.AudioPlayer.constructor | AudioRecorderApp/Services/AudioService.swift:23-31 | not playing, progress 0, no player, no timer, no current URL |
| AudioService.AudioPlayer.IsPaused | AudioRecorderApp/Services/AudioService.swift:108-110 | under the player invariant a paused player still holds its file and its progress timer is off |
| AudioService.AudioPlayer.PlayingURL | AudioRecorderApp/Services/AudioService.swift:112 | under the player invariant the reported URL is set exactly when a player is open, and is that player's file |
| AudioService.AudioPlayer.Play | AudioRecorderApp/Services/AudioService.swift:33-58 | `play(nil)` changes nothing; the playing URL again pauses; otherwise stop first, then playing that URL from progress 0 if it opens, or stopped with no URL if it does not |
| AudioService.AudioPlayer.StartUpdatingProgress | AudioRecorderApp/Services/AudioService.swift:85-89 | the progress timer is live |
| AudioService.AudioPlayer.StopUpdatingProgress | AudioRecorderApp/Services/AudioService.swift:103-106 | the progress timer is gone |
| AudioService.AudioPlayer.Pause | AudioRecorderApp/Services/AudioService.swift:61-65 | only the playing flag and the timer change; progress, player and URL kept; paused iff a player exists and 0 < progress < 1 |
| AudioService.AudioPlayer.Stop | AudioRecorderApp/Services/AudioService.swift:68-75 | not playing, progress 0, no timer, no player, no URL, not paused |
| AudioService.AudioPlayer.Seek | AudioRecorderApp/Services/AudioService.swift:78-82 | no effect without a player of positive duration; otherwise progress is the requested fraction, unclamped, and the position is fraction × duration |
| AudioService.AudioPlayer.ProgressTick | AudioRecorderApp/Services/AudioService.swift:90-100 | no effect without a live timer; while the device plays, progress = currentTime / duration (0 for a zero duration); once it stops, not playing and no timer |
| AudioService.RecordingUrl | AudioRecorderApp/Services/AudioService.swift:158-166 | the file goes in `<support>/Recordings`, named by the stamp with no ':' left, followed by ".m4a" |
| AudioService.RecordingUrlIsM4a | AudioRecorderApp/Services/AudioService.swift:165-166 | a recorder file has extension `m4a` and the colon-free stamp as base name |
| AudioService.AudioRecorder.constructor | AudioRecorderApp/Services/AudioService.swift:123-136 | not recording, level 0, empty history, no recorder, no file URL |
| AudioService.AudioRecorder.Start | AudioRecorderApp/Services/AudioService.swift:151-188 | recording only when every step succeeds; the file URL is replaced as soon as the directory exists, even when the encoder then fails; the meter readings are kept |
| AudioService.AudioRecorder.StartMetering | AudioRecorderApp/Services/AudioService.swift:202-206 | the meter timer is live |
| AudioService.AudioRecorder.StopMetering | AudioRecorderApp/Services/AudioService.swift:224-229 | no meter timer, level 0, empty history |
| AudioService.AudioRecorder.Stop | AudioRecorderApp/Services/AudioService.swift:191-197 | not recording, no recorder, level 0, empty history; the file URL is kept |
| AudioService.AudioRecorder.MeterTick | AudioRecorderApp/Services/AudioService.swift:208-220 | nothing changes unless a recorder exists and records; otherwise level = normalize(power) and history = (old history + [level]) trimmed to its newest 80 |
| WaveformView.SafeBarCount | AudioRecorderApp/Extensions/WaveformView.swift:28 | at least one bar, and the asked count when that is positive |
| WaveformView.ChunkSize | AudioRecorderApp/Extensions/WaveformView.swift:36 | at least 1: count / n with at least n samples, 1 otherwise |
| WaveformView.BarValues | AudioRecorderApp/Extensions/WaveformView.swift:39-45 | exactly `max(1, barCount)` values for any history, bar i being the bucket of [i·c, min(i·c + c, count)) |
| WaveformView.BucketRangesOrdered | AudioRecorderApp/Extensions/WaveformView.swift:40-41 | a full bucket ends where the next one starts, consecutive starts are c apart, and an earlier bucket ends at or before a later one starts |
| WaveformView.BucketsCover | AudioRecorderApp/Extensions/WaveformView.swift:36-41 | every sample below min(n·c, count) is in exactly the bucket k / c |
| WaveformView.TailUnread | AudioRecorderApp/Extensions/WaveformView.swift:36-41 | no sample at or beyond n·c is in any bucket |
| WaveformView.EmptyHistory | AudioRecorderApp/Extensions/WaveformView.swift:42 | an empty history gives n zeros |
| WaveformView.FullBuckets | AudioRecorderApp/Extensions/WaveformView.swift:36-41 | with at least n samples every bucket holds exactly c samples |
| WaveformView.FewSamples | AudioRecorderApp/Extensions/WaveformView.swift:36-44 | with fewer samples than bars, bar i is sample i, or 0 past the samples |
| WaveformView.OneSamplePerBar | AudioRecorderApp/Extensions/WaveformView.swift:36-44 | with n to 2n - 1 samples the bars are the first n samples (30 values in 24 bars use the first 24) |
| WaveformView.UsedCount | AudioRecorderApp/Extensions/WaveformView.swift:36-41 | the buckets cover at most the samples there are |
| WaveformView.BarsIgnoreTail | AudioRecorderApp/Extensions/WaveformView.swift:36-44 | two histories of equal length that agree on their first min(n·c, count) samples give the same bars |
| WaveformView.SumBounds | AudioRecorderApp/Extensions/WaveformView.swift:44 | the `reduce(0, +)` of samples in [lo, hi] lies in [lo·len, hi·len] |
| WaveformView.MeanBounds | AudioRecorderApp/Extensions/WaveformView.swift:44 | a bucket mean lies within the samples' bounds |
| WaveformView.BarsInUnitRange | AudioRecorderApp/Extensions/WaveformView.swift:39-45 | samples in [0, 1] give bars in [0, 1] |
| WaveformView.Extent | AudioRecorderApp/Extensions/WaveformView.swift:24-25 | a non-finite or negative view size counts as 0; a finite non-negative one is kept |
| WaveformView.Capped | AudioRecorderApp/Extensions/WaveformView.swift:51-53 | the displayed fraction is in [0.07, 1], equals the value inside that range, 0.07 below it or when non-finite, 1 above |
| WaveformView.BarHeight | AudioRecorderApp/Extensions/WaveformView.swift:54 | a bar is between 0 and the view's height |
| WaveformView.BarHeightIsFraction | AudioRecorderApp/Extensions/WaveformView.swift:54 | the outer clamp never bites: the height is the capped fraction of the view height, so at least 7 % of it |
| WaveformView.YOffset | AudioRecorderApp/Extensions/WaveformView.swift:56 | the offset is non-negative and leaves equal space above and below the bar |
| WaveformView.BarWidth | AudioRecorderApp/Extensions/WaveformView.swift:31-33 | the width left after the one-point gaps, shared out over the bars; 0 when the gaps take it all |
| AuthService.CreateJobPathNamesSession | AudioRecorderApp/Services/AuthService.swift:57 | the job path is `/api/v1/session/`, the session id, then `/create-job` |
| AuthService.FlowCallsDistinct | AudioRecorderApp/Services/AuthService.swift:14-70 | the login, session and job calls go to three different paths; only the login call has no bearer token and it carries the given credentials; the later two carry the given token |
| AuthService.Login | AudioRecorderApp/Services/AuthService.swift:14-35 | post errors rethrown unchanged; `invalidCredentials` exactly when `success` is false or `data` is nil; otherwise the session in `data` |
| AuthService.CreateSession | AudioRecorderApp/Services/AuthService.swift:39-52 | post errors rethrown; `serverError("server return failed")` exactly when `success` is false; otherwise `data` |
| AuthService.CreateUploadJob | AudioRecorderApp/Services/AuthService.swift:56-71 | post errors rethrown; `serverError("Failed to create upload job")` exactly when `success` is false or `data` is nil; otherwise `data` |
| AuthService.HexDigit | AudioRecorderApp/Services/AuthService.swift:94 | a nibble prints as a lowercase hex digit |
| AuthService.Checksum | AudioRecorderApp/Services/AuthService.swift:94 | two lowercase hex digits per digest byte |
| AuthService.HexValue | AudioRecorderApp/Services/AuthService.swift:94 | a character has a nibble value iff it is a lowercase hex digit, and that value prints back as the character |
| AuthService.ChecksumRoundTrip | AudioRecorderApp/Services/AuthService.swift:94 | the checksum text reads back as the digest |
| AuthService.ChecksumInjective | AudioRecorderApp/Services/AuthService.swift:94 | different digests never give the same checksum |
| AuthService.Sha256ChecksumLength | AudioRecorderApp/Services/AuthService.swift:94 | a 32-byte SHA-256 digest gives 64 characters |
| AuthService.OrderedKeysPresent | AudioRecorderApp/Services/AuthService.swift:111-121 | any iteration order of the dictionary visits only keys it holds |
| AuthService.Fields | AudioRecorderApp/Services/AuthService.swift:111-119 | the metadata dictionary has exactly the seven keys |
| AuthService.SizeFieldIsLength | AudioRecorderApp/Services/AuthService.swift:112 | `size` is a decimal numeral that reads back as the length of the embedded, hashed buffer |
| AuthService.AppendString | AudioRecorderApp/Services/AuthService.swift:179-183 | `Data.append(String)` keeps the existing bytes as a prefix, and the bytes after them decode as UTF-8 to exactly the appended string; since only canonical UTF-8 decodes (`Basics.DecodeUtf8Canonical`), those bytes are the string's UTF-8 encoding |
| AuthService.BuildBody | AudioRecorderApp/Services/AuthService.swift:98-127 | the appends, including the loop over the dictionary, build exactly the multipart byte layout: file-part header, file bytes, line break, one part per key in iteration order, closing delimiter |
| AuthService.HeaderStep | AudioRecorderApp/Services/AuthService.swift:104-108 | the file part's appends give its header, the file bytes and the line break |
| AuthService.PartStep | AudioRecorderApp/Services/AuthService.swift:121-125 | one loop iteration adds exactly the part of the next key |
| AuthService.AppendPartStep | AudioRecorderApp/Services/AuthService.swift:122-124 | the three appends of an iteration are the bytes of one metadata part |
| AuthService.BodyFraming | AudioRecorderApp/Services/AuthService.swift:104-127 | the body starts with `--Boundary-<uuid>\r\n` and ends with `--Boundary-<uuid>--\r\n` |
| AuthService.BodyEmbedsFile | AudioRecorderApp/Services/AuthService.swift:104-107 | the file bytes appear verbatim right after the file part's header |
| AuthService.FieldPartsAppend | AudioRecorderApp/Services/AuthService.swift:121-125 | the metadata text of two key runs is the text of one followed by the text of the other |
| AuthService.FieldPartsSplit | AudioRecorderApp/Services/AuthService.swift:121-125 | the metadata text is the parts before key j, the part of key j, and the parts after |
| AuthService.BodyHasField | AudioRecorderApp/Services/AuthService.swift:121-125 | each key's part `--B\r\nContent-Disposition: form-data; name="k"\r\n\r\nv\r\n` is a contiguous run of body bytes at its position in the order |
| AuthService.CheckUploadResponse | AudioRecorderApp/Services/AuthService.swift:142-153 | the body is returned iff the response is HTTP with a 2xx status; every other response is `badServerResponse` |
| AuthService.UploadUrl | AudioRecorderApp/Services/AuthService.swift:88-90 | the upload URL is the fixed prefix, the session id, `/upload/`, then the job id, each readable back at its place |
| AuthService.UploadHeaders | AudioRecorderApp/Services/AuthService.swift:130-133 | exactly two header fields: `Authorization: Bearer <token>` and a multipart content type ending in the boundary |
| AuthService.UploadFile | AudioRecorderApp/Services/AuthService.swift:81-154 | a bad URL or an unreadable file stops before any request; otherwise one POST to the upload URL with the bearer and multipart headers and the multipart body of that file; then the transport error or the status check |
| AuthService.ProgressReport | AudioRecorderApp/Services/AuthService.swift:169-172 | no report when the expected total is not positive; otherwise the unclamped ratio sent / expected |
| AuthService.ProgressReportBounds | AudioRecorderApp/Services/AuthService.swift:169-170 | while the bytes sent stay within the total, the report is in [0, 1], grows with the bytes sent and is 1 when all are sent |
| LoginScreenModel.LoginScreenModel.constructor | AudioRecorderApp/ViewModels/LoginScreenModel.swift:14-26 | not loading, not logged in, no error, empty ids and token |
| LoginScreenModel.LoginScreenModel.Login | AudioRecorderApp/ViewModels/LoginScreenModel.swift:28-54 | every call goes out while loading with the error cleared; loading ends on every exit; session creation only after login succeeds and job creation only after the session, with the session id and the login token; token and session id kept once obtained; full success leaves logged in, no error and the job id; any failure leaves logged out, " Unknown Err occured" and the job id untouched |
| LoginScreenModel.LoginScreenModel.Fail | AudioRecorderApp/ViewModels/LoginScreenModel.swift:47-50 | the catch logs out and shows the one fixed message |
| UploadScreen.SuccessMessage | AudioRecorderApp/Views/UploadScreen.swift:93-97 | the success text is the heading, the job id, the file label and the original file name, and each part reads back at its place |
| UploadScreen.FailureMessage | AudioRecorderApp/Views/UploadScreen.swift:104-110 | the failure text is the fixed prefix followed by exactly the error description |
| UploadScreen.MessagesDistinct | AudioRecorderApp/Views/UploadScreen.swift:62-110 | the ready, uploading, success and failure texts are pairwise different |
| UploadScreen.UploadScreen.constructor | AudioRecorderApp/Views/UploadScreen.swift:10-19 | "Ready to upload", not uploading, progress 0, no retry |
| UploadScreen.UploadScreen.StartUpload | AudioRecorderApp/Views/UploadScreen.swift:61-79 | uploading, progress 0, no retry, "Uploading...", and the upload of this screen's file with its ids and token |
| UploadScreen.UploadScreen.Retry | AudioRecorderApp/Views/UploadScreen.swift:39-43 | only after a failure; the whole of `startUpload` again, progress restarting from 0 |
| UploadScreen.UploadScreen.OnProgress | AudioRecorderApp/Views/UploadScreen.swift:75-79 | the reported fraction replaces the shown one, unclamped |
| UploadScreen.UploadScreen.UploadReturned | AudioRecorderApp/Views/UploadScreen.swift:82-110 | success only when the upload returns and the body decodes, then the job id and original name are shown without retry; any error shows "Upload failed: " and its description, with retry; never left uploading |
| RecordingScreen.Less | AudioRecorderApp/Views/RecordingScreen.swift:243 | names in order are different, and a proper prefix sorts before the longer name |
| RecordingScreen.LessIrreflexive | AudioRecorderApp/Views/RecordingScreen.swift:243 | no name sorts before itself |
| RecordingScreen.LessAsymmetric | AudioRecorderApp/Views/RecordingScreen.swift:243 | two names are never each before the other |
| RecordingScreen.LessTransitive | AudioRecorderApp/Views/RecordingScreen.swift:243 | the name order is transitive |
| RecordingScreen.LessTotal | AudioRecorderApp/Views/RecordingScreen.swift:243 | two different names are ordered one way or the other |
| RecordingScreen.NotLessTransitive | AudioRecorderApp/Views/RecordingScreen.swift:243 | "not before" is transitive, so the descending order is consistent |
| RecordingScreen.M4aOnly | AudioRecorderApp/Views/RecordingScreen.swift:243 | a file is kept iff its extension is `m4a`, and nothing is added |
| RecordingScreen.Insert | AudioRecorderApp/Views/RecordingScreen.swift:243 | inserting into a descending list keeps it descending and adds exactly the one element |
| RecordingScreen.SortByNameDescending | AudioRecorderApp/Views/RecordingScreen.swift:243 | the sort's result is descending by name and a permutation of its input |
| RecordingScreen.RecordingsList | AudioRecorderApp/Views/RecordingScreen.swift:237-244 | [] when the directory cannot be found or listed; otherwise a permutation of the `m4a` files, newest name first, containing exactly the listed `m4a` files |
| RecordingScreen.RecordingIsListed | AudioRecorderApp/Views/RecordingScreen.swift:242-243 | a file the recorder wrote, once listed, appears in the recordings list |
| RecordingScreen.RoundedSeconds | AudioRecorderApp/Views/RecordingScreen.swift:271 | `Int(seconds.rounded())` is within half a second of the duration, halves rounded up |
| RecordingScreen.MinSec | AudioRecorderApp/Views/RecordingScreen.swift:272-274 | `%d:%02d` gives minutes, a colon and then exactly two characters |
| RecordingScreen.MinSecRoundTrip | AudioRecorderApp/Views/RecordingScreen.swift:272-274 | the text reads back as minutes m and seconds ss < 60 with m·60 + ss = s |
| RecordingScreen.MinSecInjective | AudioRecorderApp/Views/RecordingScreen.swift:272-274 | different second counts never show the same text |
| RecordingScreen.AudioDurationString | AudioRecorderApp/Views/RecordingScreen.swift:265-279 | "—" when loading fails or the duration is non-finite or not positive; otherwise `m:ss` of the rounded seconds |
| RecordingScreen.DurationTextIsNearest | AudioRecorderApp/Views/RecordingScreen.swift:270-274 | a shown duration reads back as a second count within half a second of the real one |
| RecordingScreen.NoDurationIsNotTime | AudioRecorderApp/Views/RecordingScreen.swift:270 | the dash never reads as a duration |
| RecordingScreen.FriendlyDate | AudioRecorderApp/Views/RecordingScreen.swift:253-262 | the creation date when it can be read; otherwise the base name with every "T" a space and every other character kept |
| RecordingScreen.FriendlyDateOfRecording | AudioRecorderApp/Views/RecordingScreen.swift:260-261 | for a recorder file the fallback is the time stamp with ':' as '-' and 'T' as a space |
| RecordingScreen.DeleteRemovesAll | AudioRecorderApp/Views/RecordingScreen.swift:153-159 | every chosen row's file is removed, in row order |
| RecordingScreen.DeleteStopsOnce | AudioRecorderApp/Views/RecordingScreen.swift:153-159 | the player is stopped once if it was bound to a deleted file and never otherwise; afterwards it is bound to nothing in that case and unchanged otherwise |
| RecordingScreen.DeleteRemovesBeforeStopping | AudioRecorderApp/Views/RecordingScreen.swift:155-157 | a stop always comes right after the removal of the file the player was bound to |
| RecordingScreen.RecordingScreen.constructor | AudioRecorderApp/Views/RecordingScreen.swift:18-25 | a fresh recorder and player, no recordings, no alert, no selection, no navigation |
| RecordingScreen.RecordingScreen.Appear | AudioRecorderApp/Views/RecordingScreen.swift:209-214 | the list is loaded on appearance |
| RecordingScreen.RecordingScreen.PermissionAnswered | AudioRecorderApp/Views/RecordingScreen.swift:210-212 | the alert is raised exactly when permission is refused |
| RecordingScreen.RecordingScreen.OnRecordingChanged | AudioRecorderApp/Views/RecordingScreen.swift:215-221 | recording becoming active stops the player; recording ending refreshes the list |
| RecordingScreen.RecordingScreen.RecordTapped | AudioRecorderApp/Views/RecordingScreen.swift:85-93 | while recording: the recorder stops with meter level 0 and an empty history, keeps its file, the list refreshes and the player is untouched; otherwise the player is stopped at progress 0, the recorder starts as `start()` allows, and its meter level and history are kept |
| RecordingScreen.RecordingScreen.PlayTapped | AudioRecorderApp/Views/RecordingScreen.swift:97-103 | enabled only when not recording and a file exists; pauses the recorder's file, keeping its progress, when it is what plays; otherwise plays it from progress 0 if it opens |
| RecordingScreen.RecordingScreen.RowTapped | AudioRecorderApp/Views/RecordingScreen.swift:130-133 | tapping a row selects it |
| RecordingScreen.RecordingScreen.RowPlayTapped | AudioRecorderApp/Views/RecordingScreen.swift:135-140 | pauses the row's file when it is playing, keeping its progress; otherwise plays it from 0 if it opens |
| RecordingScreen.RecordingScreen.Delete | AudioRecorderApp/Views/RecordingScreen.swift:152-161 | the effects are: each chosen file removed, then a stop if the player was bound to it; a player bound to a deleted file ends stopped, unbound and at progress 0, any other player is left untouched; then the list is refreshed |
| RecordingScreen.RecordingScreen.UploadTapped | AudioRecorderApp/Views/RecordingScreen.swift:174-199 | as written: shown only with a selection; opens an upload of the recorder's last file with the login model's session id, job id and token, traps when there is none, and uploads the selected file exactly when it is that file |
| RecordingScreen.RecordingScreen.UploadTappedIntended | AudioRecorderApp/Views/RecordingScreen.swift:174-199 | corrected: opens an upload of the selected recording with the login model's session id, job id and token |
| RecordingScreen.UploadTrapsBeforeRecording | AudioRecorderApp/Views/RecordingScreen.swift:192-199 | on a fresh screen with a row selected, "Upload Selected" traps |
| RecordingScreen.UploadSendsRecorderFile | AudioRecorderApp/Views/RecordingScreen.swift:192-199 | after recording one file and selecting another, "Upload Selected" uploads the recorded file, not the selected one |

## Left out

- Hardware. AVFoundation (`AVAudioSession`, `AVAudioPlayer`, `AVAudioRecorder`, `AVURLAsset`) and microphone permission are inputs: whether opening succeeds, durations, positions, power readings and the permission answer. The system sounds and haptics are not part of this model.
- Timers and threading. The Combine timers, `DispatchQueue.main.async` and async suspension are left out. Each timer is a `bool` field, and each firing or callback is a separate, sequential method call. `Login` runs its three awaits back to back with no interleaving.
- Transport, JSON and files. URLSession, `JSONEncoder`/`JSONDecoder` and `FileManager` (directory lookup and creation, listing, reading, removal) are inputs. File removal errors are ignored, as `try?` does.
- CryptoKit SHA-256 and `UUID()`. The digest is a function parameter and the UUID string is a parameter.
- Date formatting. `ISO8601DateFormatter` and `DateFormatter` are left out. The stamp and the formatted creation date are input strings.
- Floating point. `Float`, `Double` and `CGFloat` are `real`, and NaN and infinities appear as the explicit `NonFinite` case where the code tests `isFinite`. Elsewhere, IEEE rounding, overflow and NaN propagation are not modelled.
- AudioService.Normalize: `Float` arithmetic is real arithmetic here.
- RecordingScreen.RoundedSeconds: the trap of `Int(...)` on a duration too large for `Int` is not modelled.
- `Int` is unbounded throughout. The `Int64` byte counts of the progress delegate and the decimal `size` field do not wrap.
- Strings. Swift compares `String` by Unicode canonical equivalence. Here a string is a sequence of scalar values compared lexicographically, which agrees with Swift for the ASCII names the recorder writes.
- `Data.append(String)` skips a string `data(using: .utf8)` cannot encode. Every Swift string is valid Unicode, so that branch cannot happen and `AppendString` always appends.
- Dictionary order. The metadata dictionary's iteration order is a parameter that `IsFieldOrder` constrains to a permutation of the seven keys. `Lookup`'s empty default is never reached.
- `pathExtension`. It is modelled as the text after the last dot of the name, when that dot is not the first character. Foundation's remaining rules, for names ending in a dot or containing other separators, are not part of this model.
- RecordingScreen.SortByNameDescending: Swift's `sorted(by:)` is not stable, and an insertion sort stands for it. The contract states only what `sorted` promises: a permutation, in descending order. Names in one directory are unique anyway.
- UploadScreen.UploadScreen.UploadReturned: it shows success whenever the response decodes and ignores its `success` flag. That is what the code does.
- Logging. The `print` calls of the services and screens write to the console only and are left out.
- UI. Layout, theming, the rocket animation of the login screen, and the navigation in ContentView and AudioRecorderAppApp are not part of this model. `LoginScreen.swift` only calls `login`.
- The JSON records. Only the fields the logic reads are transcribed from ApiModels.swift, Session.swift and User.swift.

## Findings

| source | as written | input that shows it | evidently intended | confidence | as-written member | corrected member |
|---|---|---|---|---|---|---|
| AudioRecorderApp/Services/ApiService.swift:79-104 | the `serverError` and `invalidResponse` thrown inside the second `do` are caught by its final `catch` and rethrown as `unknownError` | an HTTP 500 response: `post` throws `unknownError` ("Unknown Error!!") instead of `serverError("Server returned status code 500")` | a bad status surfaces as `serverError` with its code, and a non-HTTP response as `invalidResponse` | high, not executed | ApiService.ServerErrorSwallowed | ApiService.PostIntended |
| AudioRecorderApp/Views/RecordingScreen.swift:192-199 | "Upload Selected" opens an upload of `rec.fileURL!`, the recorder's last file, not of `selectedRecording` | select a listed recording before recording anything since launch: the force unwrap traps (`UploadTrapsBeforeRecording`); or record file B, then select A: B is uploaded (`UploadSendsRecorderFile`) | the selected recording is uploaded | high, not executed | RecordingScreen.RecordingScreen.UploadTapped | RecordingScreen.RecordingScreen.UploadTappedIntended |

The screens are modelled as written: `RecordingScreen.RecordingScreen.UploadTapped` opens the upload of the recorder's last file, and `ApiService.Post` swallows the error kinds. The corrected members, `ApiService.PostIntended` and `RecordingScreen.RecordingScreen.UploadTappedIntended`, stand beside them with the intended behaviour proved. The authentication calls such as `AuthService.Login` take what `post` threw as an input, so none of them depends on the swallowed error kind. `LoginScreenModel.Login` shows one fixed message for any failure.
