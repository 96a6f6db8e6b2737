# ffmpeg-kit session and callback core, modelled in Dafny

FFmpeg Kit wraps the FFmpeg engine for Linux, Android and React Native. Every
binding has the same bookkeeping around a run of the engine:

- **sessions**: an id drawn from a global generator, a state machine
  (Created, Running, then Completed or Failed), timestamps, a return code, a
  failure text, and the logs and statistics delivered to the session;
- **the session history**: a list and an id map kept together, bounded by
  `sessionHistorySize`, evicting the oldest session first;
- **the slot table**: 1000 native slots indexed by `id % 1000`, each idle (0),
  active (1) or cancel-requested (2), plus a parallel counter of messages queued
  but not yet delivered;
- **the callback queue**: the engine's log and statistics hooks append records;
  the callback thread removes them in order. C++ keeps them in a `std::list`.
  The Android native code keeps them in a linked list with head and tail pointers;
- **the pure decisions**: the level filter and the five log-redirection
  strategies, `parseArguments` and `argumentsToString`, return-code
  classification, level values and names, package-name detection, and the
  extension of a Storage Access Framework display name.

Layout:

- Code that updates state becomes classes whose methods have `modifies`
  clauses: `Sessions.Session`, `History.SessionHistory`, `Slots.SessionSlots`,
  `CallbackQueue.LinkedCallbackQueue`, `Config.KitConfig` (the C++ globals) and
  `AndroidNative.NativeKit` (the Android native globals).
- Loops in the source are methods with loop invariants, each proved against a
  specification function.
- Pure code becomes functions and lemmas.
- Each queue, slot or history operation is one atomic step. The callback
  thread is one `DispatchOne` step at a time.
- Callbacks are presence flags. The engine run is a parameter (`Engine.EngineRun`)
  whose exit code follows `Engine.ExitCode`.
- Times are integers in nanoseconds since the epoch, where 0 means unset.

Where bindings differ, each variant is modelled with its own name:

- level names (`Levels.LogLevelToString` vs `Levels.LevelToString`);
- the absent-arguments text (`"null"` vs `"undefined"`);
- argv[0] (`"ffmpeg"` vs `"ffmpeg-kit"`);
- the byte signedness of the log sanitizer (`LogLines.SanitizeByteAsWritten` and
  `LogLines.FullLineAsWritten` for the C++ code as written, `LogLines.SanitizeByte`
  and `LogLines.FullLine` for the unsigned reading that Android uses and that the
  model's C++ callback also uses; see Findings).

## Model

| member | source | states |
|---|---|---|
| Levels.Value | android/ffmpeg-kit-android-lib/src/main/java/com/arthenica/ffmpegkit/Level.java:31-80 | every level's value is a listed value, and `from` maps it back to that level |
| Levels.From | android/ffmpeg-kit-android-lib/src/main/java/com/arthenica/ffmpegkit/Level.java:90-112 | any value no level carries maps to TRACE |
| Levels.FromListed | android/ffmpeg-kit-android-lib/src/main/java/com/arthenica/ffmpegkit/Level.java:90-121 | for a listed value v, `from(v).getValue() == v` |
| Levels.ValueIncreasing | android/ffmpeg-kit-android-lib/src/main/java/com/arthenica/ffmpegkit/Level.java:31-80 | values strictly increase in declaration order, from STDERR (-16) to TRACE (56) |
| Levels.ValueInjective | android/ffmpeg-kit-android-lib/src/main/java/com/arthenica/ffmpegkit/Level.java:31-80 | two levels with the same value are the same level |
| Levels.LogLevelToString | linux/src/FFmpegKitConfig.cpp:1184-1198 | the name of each of the ten levels, QUIET included; "" for any other value |
| Levels.LevelToString | react-native/src/index.js:2339-2363 | the names of the nine levels other than QUIET; "" exactly for QUIET and unknown values |
| Levels.LevelNamesAgreeExceptQuiet | react-native/src/index.js:2339-2363 | the two naming functions agree on every value except QUIET, which only C++ names |
| Levels.Name | linux/src/FFmpegKitConfig.cpp:1184-1198 | the upper-case name of each level; no contract of its own, and `LogLevelToString` and `LevelToString` are proved to return it on the listed values |
| ReturnCodes.IsSuccess | linux/src/ReturnCode.cpp:22-24 | true iff a return code is present and its value is 0; false for a missing code |
| ReturnCodes.IsCancel | linux/src/ReturnCode.cpp:26-28 | true iff a return code is present and its value is 255; false for a missing code |
| ReturnCodes.ExactlyOneClass | linux/src/ReturnCode.cpp:37-47 | success iff 0, cancel iff 255, error iff neither, and exactly one of the three holds |
| ReturnCodes.ReturnCode.IsValueSuccess | linux/src/ReturnCode.cpp:37-39 | `isValueSuccess`, value 0; no contract of its own, and `ExactlyOneClass` proves it excludes the other two classes |
| ReturnCodes.ReturnCode.IsValueError | linux/src/ReturnCode.cpp:41-43 | `isValueError`, neither 0 nor 255; no contract of its own, and `ExactlyOneClass` proves it holds exactly when the other two do not |
| ReturnCodes.ReturnCode.IsValueCancel | linux/src/ReturnCode.cpp:45-47 | `isValueCancel`, value 255; no contract of its own, and `ExactlyOneClass` proves it excludes the other two classes |
| Packages.GetExternalLibraries | linux/src/Packages.cpp:200-249 | the loop yields exactly the supported libraries whose "enable-" or "enable-lib" name occurs in the build configuration |
| Packages.PackageName | linux/src/Packages.cpp:25-198 | the result is always one of the nine package names |
| Packages.PackageNameCharacterization | linux/src/Packages.cpp:25-198 | each named package is returned iff its required libraries are present and the key libraries that select it (speex, fribidi, xvid, gnutls) are as it expects |
| Packages.SingleKeyLibraryPackages | linux/src/Packages.cpp:42-51 | with speex only the result is "audio" or "custom"; with fribidi only it is "video" or "custom" |
| Arguments.ParseArguments | linux/src/FFmpegKitConfig.cpp:1366-1415 | the character loop computes the parse defined by the quote and space rules, and never emits an empty argument |
| Arguments.Step | linux/src/FFmpegKitConfig.cpp:1373-1412 | one character of the loop: at most one argument is emitted, only the current one when it is not empty, and the current argument then starts over |
| Arguments.Parse | linux/src/FFmpegKitConfig.cpp:1366-1415 | the scan with the pending argument kept when not empty; no contract of its own, and `ParseArguments` is proved to compute it and `NoEmptyArgument` that it has no empty argument |
| Arguments.NoEmptyArgument | linux/src/FFmpegKitConfig.cpp:1385-1412 | no parsed argument is empty |
| Arguments.RunKeepsNoneEmpty | linux/src/FFmpegKitConfig.cpp:1382-1408 | a parsing step only ever emits non-empty arguments |
| Arguments.RunAppend | linux/src/FFmpegKitConfig.cpp:1373-1408 | parsing a concatenation is parsing the second part from the state the first part leaves |
| Arguments.RunPlain | linux/src/FFmpegKitConfig.cpp:1405-1407 | outside quotes, a word with no space or quote is appended to the current argument |
| Arguments.RunInSingleQuotes | linux/src/FFmpegKitConfig.cpp:1382-1404 | inside single quotes, spaces and double quotes are kept as ordinary characters |
| Arguments.RunInDoubleQuotes | linux/src/FFmpegKitConfig.cpp:1382-1404 | inside double quotes, spaces, single quotes and backslash-escaped double quotes are kept |
| Arguments.RunGap | linux/src/FFmpegKitConfig.cpp:1382-1388 | a run of spaces outside quotes ends the current argument, and emits nothing if it is empty |
| Arguments.RunJoin | linux/src/FFmpegKitConfig.cpp:1373-1408 | parsing the single-space join of plain words leaves all but the last emitted and the last current |
| Arguments.JoinEndsWithLast | linux/src/FFmpegKitConfig.cpp:1417-1432 | the join of a non-empty list is at least as long as its last argument |
| Arguments.ParseJoinRoundTrip | linux/src/FFmpegKitConfig.cpp:1366-1432 | parsing the single-space join of non-empty unquoted words gives the words back |
| Arguments.RunSegment | linux/src/FFmpegKitConfig.cpp:1373-1408 | one rendered argument segment (plain, single-quoted, double-quoted with escapes) parses to its text |
| Arguments.SpacesAreSpaces | linux/src/FFmpegKitConfig.cpp:1382-1388 | the separator of n spaces is n space characters |
| Arguments.ParseSegments | linux/src/FFmpegKitConfig.cpp:1373-1412 | a command rendered from well-formed segments parses to the arguments the segments describe |
| Arguments.ParseWellFormed | linux/src/FFmpegKitConfig.cpp:1366-1415 | any command made of plain, single-quoted and double-quoted (escaped) segments separated by spaces parses to exactly those arguments |
| Arguments.ArgumentsToString | linux/src/FFmpegKitConfig.cpp:1417-1432 | the absent list gives the absent text ("null" in C++ and Java, "undefined" in React Native); otherwise the loop computes the single-space join |
| Arguments.SpacesExample | android/ffmpeg-kit-android-lib/src/test/java/com/arthenica/ffmpegkit/FFmpegKitTest.java:621-736 | repeated, leading and trailing spaces are dropped |
| Arguments.SingleQuotesExample | android/ffmpeg-kit-android-lib/src/test/java/com/arthenica/ffmpegkit/FFmpegKitTest.java:621-736 | a single-quoted span with a space is one argument, without its quotes |
| Arguments.SingleQuoteInsideDoubleQuotesExample | android/ffmpeg-kit-android-lib/src/test/java/com/arthenica/ffmpegkit/FFmpegKitTest.java:621-736 | single quotes inside double quotes are kept |
| Arguments.DoubleQuoteInsideSingleQuotesExample | android/ffmpeg-kit-android-lib/src/test/java/com/arthenica/ffmpegkit/FFmpegKitTest.java:621-736 | a double quote inside single quotes is kept |
| Arguments.EscapedDoubleQuoteExample | android/ffmpeg-kit-android-lib/src/test/java/com/arthenica/ffmpegkit/FFmpegKitTest.java:621-736 | a backslash-escaped double quote does not close the quoted span and is kept with its backslash |
| LogLines.SanitizeByte | android/ffmpeg-kit-android-lib/src/main/cpp/ffmpegkit.c:192-198 | a byte is replaced by '?' iff it is a control byte (below 0x08, 0x0E to 0x1F) and not '?' already; the result is never such a control byte |
| LogLines.SignedChar | linux/src/FFmpegKitConfig.cpp:349-355 | the signed reading of a byte is negative exactly for bytes from 0x80 |
| LogLines.SanitizeByteAsWritten | linux/src/FFmpegKitConfig.cpp:349-355 | with signed `char`, every byte from 0x80 becomes '?'; below 0x80 it agrees with the unsigned reading |
| LogLines.CStringLength | android/ffmpeg-kit-android-lib/src/main/cpp/ffmpegkit.c:192-198 | the position of the first zero byte, or the whole length |
| LogLines.Text | android/ffmpeg-kit-android-lib/src/main/cpp/ffmpegkit.c:470-471 | the text a `%s` reads: the bytes before the first zero |
| LogLines.SanitizeLine | android/ffmpeg-kit-android-lib/src/main/cpp/ffmpegkit.c:192-198 | sanitizing keeps the buffer length |
| LogLines.Sanitize | android/ffmpeg-kit-android-lib/src/main/cpp/ffmpegkit.c:192-198 | the in-place loop leaves the buffer equal to its sanitized line: each byte up to the first zero is sanitized, and the rest is untouched |
| LogLines.SanitizeKeepsLength | android/ffmpeg-kit-android-lib/src/main/cpp/ffmpegkit.c:192-198 | the C string length is the same after sanitizing |
| LogLines.CStringLengthExact | android/ffmpeg-kit-android-lib/src/main/cpp/ffmpegkit.c:192-198 | the C string length is the unique position of the first zero |
| LogLines.SanitizeClean | android/ffmpeg-kit-android-lib/src/main/cpp/ffmpegkit.c:192-198 | a sanitized text holds no replaced control byte, and sanitizing is idempotent |
| LogLines.SanitizeKeepsText | android/ffmpeg-kit-android-lib/src/main/cpp/ffmpegkit.c:192-198 | backspace to carriage return and all bytes from 0x20 are kept |
| LogLines.SignedSanitizeReplacesUtf8 | linux/src/FFmpegKitConfig.cpp:349-355 | the signed-char version replaces both bytes of the UTF-8 encoding of é, which the unsigned version keeps |
| LogLines.SanitizeTextAsWritten | linux/src/FFmpegKitConfig.cpp:349-355 | the text keeps its C string length, and after the signed-`char` test it holds no zero, no replaced control byte and no byte from 0x80 on |
| LogLines.FullLineAsWritten | linux/src/FFmpegKitConfig.cpp:475-511 | the line the C++ callback builds as written has no zero byte and no byte from 0x80 on |
| LogLines.FullLineAsWrittenReplacesUtf8 | linux/src/FFmpegKitConfig.cpp:475-511 | a line holding the UTF-8 bytes of é is queued as "??" as written and unchanged with unsigned bytes |
| LogLines.FullLine | android/ffmpeg-kit-android-lib/src/main/cpp/ffmpegkit.c:463-470 | the joined line of the four sanitized parts holds no zero byte and no replaced control byte |
| LogLines.FullLineEmpty | android/ffmpeg-kit-android-lib/src/main/cpp/ffmpegkit.c:470-474 | the joined line is empty iff every part is empty as a C string (then nothing is queued) |
| LogLines.MaskLevel | android/ffmpeg-kit-android-lib/src/main/cpp/ffmpegkit.c:451-453 | a non-negative level is reduced modulo 256; a negative one is kept |
| LogRedirection.Code | linux/src/LogRedirectionStrategy.h:20-32 | strategy codes are 0 to 4, and looking a code up gives its strategy back |
| LogRedirection.StrategyFrom | react-native/src/index.js:16-22 | a code names a strategy iff it is 0 to 4 |
| LogRedirection.QuietDropsAllButStderr | linux/src/FFmpegKitConfig.cpp:536-540 | with the active level QUIET, a message is dropped iff its level is not STDERR |
| LogRedirection.Dropped | linux/src/FFmpegKitConfig.cpp:536-540 | the level filter; no contract of its own, and `QuietDropsAllButStderr`, `StderrAlwaysForwarded` and `FilterMonotone` state what it drops |
| LogRedirection.StderrAlwaysForwarded | linux/src/FFmpegKitConfig.cpp:536-540 | STDERR output is never dropped |
| LogRedirection.FilterMonotone | linux/src/FFmpegKitConfig.cpp:537 | outside QUIET a message passes iff its level is at most the active level, so raising the active level drops nothing that passed |
| LogRedirection.CallbacksOnlySuppress | linux/src/FFmpegKitConfig.cpp:573-598 | defining a callback never turns printing on; with no callback every strategy but NEVER prints |
| LogRedirection.StrategyMatrix | linux/src/FFmpegKitConfig.cpp:573-598 | ALWAYS prints and NEVER does not under every combination; each of the other three looks only at the callback it names |
| LogRedirection.ShouldPrint | linux/src/FFmpegKitConfig.cpp:573-598 | the strategy switch; no contract of its own, and `StrategyMatrix` and `CallbacksOnlySuppress` state each case |
| LogRedirection.EffectiveStrategy | linux/src/FFmpegKitConfig.cpp:534-544 | a kept session's strategy replaces the global one |
| LogRedirection.NeverPrintedWhenQuietOrDropped | linux/src/FFmpegKitConfig.cpp:600-609 | a QUIET-level message is never printed, and a dropped one never is |
| LogRedirection.QuietMessageForwarded | linux/src/FFmpegKitConfig.cpp:537 | above QUIET a QUIET-level message still passes the filter (it is forwarded, not printed) |
| LogRedirection.CppPrintedLine | linux/src/FFmpegKitConfig.cpp:600-609 | a line is printed iff the message passes the filter, the strategy prints and the level is not QUIET; it is the level name, ": " and the message |
| LogRedirection.AndroidPriority | android/ffmpeg-kit-android-lib/src/main/java/com/arthenica/ffmpegkit/FFmpegKitConfig.java:289-320 | QUIET prints nothing; ERROR, FATAL and PANIC print at error priority; DEBUG and TRACE at debug priority |
| LogRedirection.AndroidPrintsAllButQuiet | android/ffmpeg-kit-android-lib/src/main/java/com/arthenica/ffmpegkit/FFmpegKitConfig.java:218-321 | every value prints except QUIET's, and an unlisted value prints at debug priority (as TRACE) |
| LogRedirection.NumericShouldPrint | react-native/src/index.js:1784-1810 | an unknown strategy code prints |
| LogRedirection.NumericAgreesWithStrategy | react-native/src/index.js:1784-1810 | on the five known codes the React Native switch agrees with the strategy matrix |
| LogRedirection.NumericEffectiveStrategy | react-native/src/index.js:1757-1759 | the session's code, when defined, replaces the global one |
| LogRedirection.NumericPrintedText | react-native/src/index.js:1741-1822 | the console receives the bare message iff it passes the filter, the strategy prints and the level is not QUIET |
| LogRedirection.BindingsPrintTheSameMessages | react-native/src/index.js:1741-1822 | for every known strategy React Native prints exactly the messages C++ prints |
| Saf.LastIndexOf | android/ffmpeg-kit-android-lib/src/main/java/com/arthenica/ffmpegkit/FFmpegKitConfig.java:943-955 | -1 iff the character is absent; otherwise its last position |
| Saf.TakeToken | android/ffmpeg-kit-android-lib/src/main/java/com/arthenica/ffmpegkit/FFmpegKitConfig.java:943-955 | the longest prefix without a space or dot |
| Saf.NextToken | android/ffmpeg-kit-android-lib/src/main/java/com/arthenica/ffmpegkit/FFmpegKitConfig.java:943-955 | no token iff only spaces and dots remain; a token has neither |
| Saf.ExtractExtension | android/ffmpeg-kit-android-lib/src/main/java/com/arthenica/ffmpegkit/FFmpegKitConfig.java:943-955 | the extension is never empty and has no space or dot |
| Saf.ExtensionAfterLastDot | android/ffmpeg-kit-android-lib/src/main/java/com/arthenica/ffmpegkit/FFmpegKitConfig.java:943-955 | when the last dot is followed by a run of non-delimiters and then a space or the end, that run is the extension |
| Saf.TakeTokenOf | android/ffmpeg-kit-android-lib/src/main/java/com/arthenica/ffmpegkit/FFmpegKitConfig.java:943-955 | a token ends exactly at the first delimiter |
| Saf.NumberedCopy | android/ffmpeg-kit-android-lib/src/test/java/com/arthenica/ffmpegkit/FFmpegKitConfigTest.java:158-169 | "video.mp4 (2)" gives "mp4" |
| Saf.NumberedCopyWithSpaces | android/ffmpeg-kit-android-lib/src/test/java/com/arthenica/ffmpegkit/FFmpegKitConfigTest.java:158-169 | "video file name.mp3 (2)" gives "mp3" |
| Saf.PlainName | android/ffmpeg-kit-android-lib/src/test/java/com/arthenica/ffmpegkit/FFmpegKitConfigTest.java:158-169 | "file.mp4" gives "mp4" |
| Saf.PlainNameWithSpace | android/ffmpeg-kit-android-lib/src/test/java/com/arthenica/ffmpegkit/FFmpegKitConfigTest.java:158-169 | "file name.mp4" gives "mp4" |
| Saf.NoDotNoSpace | android/ffmpeg-kit-android-lib/src/main/java/com/arthenica/ffmpegkit/FFmpegKitConfig.java:943-955 | with no dot the whole name is tokenised, so a name with no dot and no space is its own extension |
| Saf.AllDelimitersRaw | android/ffmpeg-kit-android-lib/src/main/java/com/arthenica/ffmpegkit/FFmpegKitConfig.java:943-955 | a name of only spaces and dots has no token and gives "raw" |
| NativeEventValues.ValidDate | react-native/src/index.js:1727-1733 | no date iff the time is absent or at most 0; otherwise the date of that time |
| NativeEventValues.OptionalNumericParameter | react-native/src/index.js:1723-1725 | an absent value gives -1, and a present one (0 included) is itself |
| Sessions.StateCode | linux/src/FFmpegKitConfig.cpp:1356-1364 | state codes are 0 to 3 |
| Sessions.SessionStateToString | linux/src/FFmpegKitConfig.cpp:1356-1364 | every state has a non-empty name |
| Sessions.SessionStateCodeToString | react-native/src/index.js:1378-1391 | "" iff the code is not 0 to 3 |
| Sessions.StateNamesAgree | react-native/src/index.js:1378-1391 | the React Native and C++ names of a state coincide, and distinct states have distinct names |
| Sessions.LogsTextAppend | linux/src/AbstractSession.cpp:128-136 | the text of concatenated log lists is the concatenation of their texts |
| Sessions.LogsTextSingle | linux/src/AbstractSession.cpp:128-136 | the text of one log is its message |
| Sessions.NanosToMillis | linux/src/AbstractSession.cpp:78-87 | whole milliseconds, truncated toward zero |
| Sessions.SessionIdGenerator.constructor | linux/src/AbstractSession.cpp:32 | the generator starts at 1 with nothing issued |
| Sessions.SessionIdGenerator.Issue | linux/src/AbstractSession.cpp:32-45 | the id issued is greater than every earlier id and is recorded as issued |
| Sessions.Session.constructor | linux/src/AbstractSession.cpp:36-45 | a new session has a fresh id greater than all earlier ones, state Created, no return code, no fail text, unset times and no logs or statistics |
| Sessions.Session.ExactlyOneKind | linux/src/FFmpegSession.cpp:99-109 | a session is of exactly one kind |
| Sessions.Session.IsFFmpeg | linux/src/FFmpegSession.cpp:99-101 | true for an FFmpeg session; no contract of its own, and `ExactlyOneKind` proves the kinds exclude each other |
| Sessions.Session.IsFFprobe | linux/src/FFmpegSession.cpp:103-105 | true for an FFprobe session; no contract of its own, and `ExactlyOneKind` proves the kinds exclude each other |
| Sessions.Session.IsMediaInformation | linux/src/FFmpegSession.cpp:107-109 | true for a media-information session; no contract of its own, and `ExactlyOneKind` proves the kinds exclude each other |
| Sessions.Session.StartRunning | linux/src/AbstractSession.cpp:166-169 | state Running and the start time set; everything else unchanged |
| Sessions.Session.Complete | linux/src/AbstractSession.cpp:171-175 | the return code stored, state Completed and the end time set; fail text, start time, logs and statistics unchanged; no guard on the prior state |
| Sessions.Session.Fail | linux/src/AbstractSession.cpp:177-181 | the fail text stored, state Failed and the end time set; return code, start time, logs and statistics unchanged; no guard on the prior state |
| Sessions.Session.AddLog | linux/src/AbstractSession.cpp:162-164 | the log appended at the end, so the logs text grows by its message; state, times, return code, failure text and statistics unchanged |
| Sessions.Session.AddStatistics | linux/src/FFmpegSession.cpp:95-97 | the entry appended at the end, becoming the last received; state, times, return code, failure text and logs unchanged |
| Sessions.Session.LastReceivedStatistics | linux/src/FFmpegSession.cpp:87-93 | none iff there are no statistics; otherwise the most recently added entry |
| Sessions.Session.GetLogsAsString | linux/src/AbstractSession.cpp:128-136 | the loop returns the concatenation of the messages in the order they were added |
| Sessions.Session.Duration | linux/src/AbstractSession.cpp:78-87 | 0 unless both start and end are set; otherwise end minus start in whole milliseconds |
| Sessions.Session.Command | linux/src/AbstractSession.cpp:93-95 | the arguments joined by single spaces; for plain words, parsing it gives the arguments back |
| Sessions.Session.Cancel | linux/src/AbstractSession.cpp:198-202 | only a running session forwards to cancel. A non-zero id marks its slot cancel-requested, with no signal and the other slots unchanged. Id 0 raises a signal and leaves every slot alone. A session that is not running changes nothing |
| Sessions.Session.MessagesInTransmit | linux/src/AbstractSession.cpp:158-160 | `thereAreAsynchronousMessagesInTransmit`, the session's slot counter is non-zero; no contract of its own, and the balance kept by `Config.KitConfig.Push` and `DispatchOne` relates it to the queued records |
| Slots.SlotOf | linux/src/FFmpegKitConfig.cpp:414-416 | the slot is below 1000 and congruent to the id modulo 1000 |
| Slots.SharedSlot | linux/src/FFmpegKitConfig.cpp:414-452 | two ids share a slot iff they differ by a multiple of 1000 |
| Slots.SessionSlots.constructor | linux/src/FFmpegKitConfig.cpp:65-66 | every slot idle and every counter zero |
| Slots.SessionSlots.MessagesInTransmit | linux/src/FFmpegKitConfig.cpp:1352-1354 | the counter of the id's slot, the same for every id sharing it |
| Slots.SessionSlots.CancelRequested | linux/src/FFmpegKitConfig.cpp:446-452 | whether the id's slot holds the cancel mark 2; no contract of its own, and `CancelSession`, `RegisterSessionId` and `RemoveSession` state it for every id sharing the slot |
| Slots.SessionSlots.Store | android/ffmpeg-kit-android-lib/src/main/cpp/ffmpegkit.c:361-363 | the id's slot holds the mark; other slots unchanged |
| Slots.SessionSlots.RegisterSessionId | linux/src/FFmpegKitConfig.cpp:414-416 | the slot becomes active (1), so no id sharing it reports a cancel request; other slots unchanged |
| Slots.SessionSlots.RemoveSession | linux/src/FFmpegKitConfig.cpp:423-425 | the slot becomes idle (0) with no cancel request; other slots unchanged |
| Slots.SessionSlots.CancelSession | linux/src/FFmpegKitConfig.cpp:436-438 | the slot becomes cancel-requested (2), and every id sharing it reports a cancel request; other slots unchanged |
| Slots.SessionSlots.CancelOperation | android/ffmpeg-kit-android-lib/src/main/cpp/fftools_ffmpeg.c:1506-1512 | id 0 raises a signal and leaves the slots alone; any other id requests cancellation of its slot |
| Slots.SessionSlots.ResetMessagesInTransmit | linux/src/FFmpegKitConfig.cpp:463-465 | the id's counter becomes 0; other counters unchanged |
| Slots.SessionSlots.IncrementInTransit | linux/src/FFmpegKitConfig.cpp:363-377 | the id's counter grows by one; other counters unchanged |
| Slots.SessionSlots.DecrementInTransit | android/ffmpeg-kit-android-lib/src/main/cpp/ffmpegkit.c:548 | the id's counter shrinks by one; other counters unchanged |
| CallbackQueue.PendingAppend | linux/src/FFmpegKitConfig.cpp:363-393 | appending a record adds one to the queued count of its slot and nothing to the others |
| CallbackQueue.Node.constructor | android/ffmpeg-kit-android-lib/src/main/cpp/ffmpegkit.c:279-285 | a new node carries its record and has no next node |
| CallbackQueue.LinkedCallbackQueue.constructor | android/ffmpeg-kit-android-lib/src/main/cpp/ffmpegkit.c:288-304 | the queue starts empty with head and tail NULL |
| CallbackQueue.LinkedCallbackQueue.Enqueue | android/ffmpeg-kit-android-lib/src/main/cpp/ffmpegkit.c:288-304 | the record is appended at the end; the new node is the tail with next NULL, and the head is non-NULL (unchanged if it was set) |
| CallbackQueue.LinkedCallbackQueue.Remove | android/ffmpeg-kit-android-lib/src/main/cpp/ffmpegkit.c:368-395 | NULL when empty; otherwise the old head with the oldest record, leaving the rest in order; taking the only node sets head and tail to NULL |
| History.Window | linux/src/FFmpegKitConfig.cpp:155-163 | the newest min(n, length) elements, in order |
| History.WindowKeepsNewest | linux/src/FFmpegKitConfig.cpp:165-183 | after adding, the new element is the last one kept and the others are the newest of the old ones, in order |
| History.WindowOfWindow | linux/src/FFmpegKitConfig.cpp:1204-1215 | shrinking the bound twice is shrinking it once to the smaller bound |
| History.OfKind | linux/src/FFmpegKitConfig.cpp:1272-1324 | exactly the sessions of the kind, each from the list |
| History.OfKindAppend | linux/src/FFmpegKitConfig.cpp:1272-1324 | filtering by kind keeps history order |
| History.KindsPartition | linux/src/FFmpegKitConfig.cpp:1272-1324 | the three kind filters split the history |
| History.InState | linux/src/FFmpegKitConfig.cpp:1326-1342 | exactly the sessions in the state, each from the list |
| History.InStateAppend | linux/src/FFmpegKitConfig.cpp:1326-1342 | filtering by state keeps history order |
| History.FrontIsNotNewest | linux/src/FFmpegKitConfig.cpp:1229-1234 | once two sessions are kept, the front element is not the one created last |
| History.PopFrontIndexed | linux/src/FFmpegKitConfig.cpp:155-163 | evicting the front from both the list and the map keeps them in step |
| History.PushBackIndexed | linux/src/FFmpegKitConfig.cpp:165-183 | adding a new id to both the list and the map keeps them in step |
| History.SessionHistory.constructor | linux/src/FFmpegKitConfig.cpp:770-790 | an empty history with size 10 |
| History.SessionHistory.DeleteExpiredSessions | linux/src/FFmpegKitConfig.cpp:155-163 | the loop leaves the newest `sessionHistorySize` sessions, evicted from both the list and the map |
| History.SessionHistory.Add | linux/src/FFmpegKitConfig.cpp:165-183 | a known id changes nothing; otherwise the session is appended, indexed and the oldest evicted down to the bound |
| History.SessionHistory.SetSessionHistorySize | linux/src/FFmpegKitConfig.cpp:1204-1215 | fails for 1000 or more and ignores 0 or less, both without change; otherwise sets the size and evicts down to it |
| History.SessionHistory.GetSession | linux/src/FFmpegKitConfig.cpp:1217-1227 | found iff an id is kept, and then the kept session with that id |
| History.SessionHistory.GetLastSession | android/ffmpeg-kit-android-lib/src/main/java/com/arthenica/ffmpegkit/FFmpegKitConfig.java:1152-1160 | the last list element, or none when the history is empty |
| History.SessionHistory.GetLastSessionAsWritten | linux/src/FFmpegKitConfig.cpp:1229-1234 | the C++ version returns the front, the oldest kept session |
| History.SessionHistory.GetLastCompletedSession | linux/src/FFmpegKitConfig.cpp:1236-1249 | the reverse scan returns the newest Completed session, or none iff none is Completed |
| History.SessionHistory.GetSessions | linux/src/FFmpegKitConfig.cpp:1251-1260 | the sessions in history order |
| History.SessionHistory.ClearSessions | linux/src/FFmpegKitConfig.cpp:1262-1270 | list and map emptied, the size kept |
| History.SessionHistory.GetSessionsOfKind | linux/src/FFmpegKitConfig.cpp:1272-1324 | the loop returns exactly the sessions of the kind, in history order |
| History.SessionHistory.GetSessionsByState | linux/src/FFmpegKitConfig.cpp:1326-1342 | the loop returns exactly the sessions in the state, in history order |
| Engine.BuildArgv | linux/src/FFmpegKitConfig.cpp:697-708 | argc is n+1, argv[0] is the program name and the arguments follow in order |
| Engine.ExitCode | android/ffmpeg-kit-android-lib/src/main/cpp/fftools_ffmpeg.c:2520-2533 | a run past setup returns 255 when signalled or cancelled; a finished run whose error rate was exceeded returns 69; AVERROR_EXIT is never returned |
| Engine.SetupFailureNotCancelled | android/ffmpeg-kit-android-lib/src/main/cpp/fftools_ffmpeg.c:2487-2533 | a run that fails its setup keeps its code even when cancelled |
| Engine.RaiseOn | android/ffmpeg-kit-android-lib/src/main/cpp/fftools_ffmpeg.c:309-322 | `sigterm_handler` raises only the calling thread's count; every other thread's count is unchanged |
| Engine.OtherThreadSignalNotSeen | android/ffmpeg-kit-android-lib/src/main/cpp/fftools_ffmpeg.c:2517-2533 | a signal raised on a thread other than the engine's does not change the exit code |
| Engine.CancelFromOtherThreadIgnored | android/ffmpeg-kit-android-lib/src/main/cpp/fftools_ffmpeg.c:1506-1509 | `cancel()` from another thread during a clean run with code 0 leaves the code 0, not 255 |
| Config.BytesToText | linux/src/FFmpegKitConfig.cpp:531 | the message text has the bytes of the record, one character each |
| Config.SessionStrategy | linux/src/FFmpegKitConfig.cpp:542-544 | a strategy iff the session is kept |
| Config.KitConfig.constructor | linux/src/FFmpegKitConfig.cpp:770-790 | empty history of size 10, empty queue, the default strategy, no callbacks, level INFO |
| Config.KitConfig.CreateFFmpegSession | linux/src/FFmpegSession.cpp:27-49 | a new Created FFmpeg session with the global strategy unless one is given, with the freshest id, appended to the history as its last element; the history bound is unchanged |
| Config.KitConfig.LogCallbackDataAdd | linux/src/FFmpegKitConfig.cpp:363-377 | the record of the running session is appended, and its counter grows by one; queue and counters stay balanced |
| Config.KitConfig.StatisticsCallbackDataAdd | linux/src/FFmpegKitConfig.cpp:379-393 | the same for a statistics record; the running id, active level, global strategy and global callback unchanged |
| Config.KitConfig.Push | linux/src/FFmpegKitConfig.cpp:363-393 | append and counter increment keep every slot's counter minus its queued records unchanged |
| Config.KitConfig.CallbackDataRemove | linux/src/FFmpegKitConfig.cpp:395-407 | the oldest record and the rest in order, or none when empty |
| Config.KitConfig.LogCallbackFunction | linux/src/FFmpegKitConfig.cpp:475-511 | a filtered message or an empty line queues nothing; otherwise the masked level and the line sanitized with unsigned bytes are queued |
| Config.KitConfig.ProcessLog | linux/src/FFmpegKitConfig.cpp:528-610 | the printed line is the one the filter, the session's or global strategy and the callbacks decide; a kept session receives the log first, and only its logs change; no other session changes |
| Config.KitConfig.ProcessStatistics | linux/src/FFmpegKitConfig.cpp:612-641 | a kept FFmpeg session receives the entry, and only its statistics change; nothing else changes |
| Config.KitConfig.DispatchOne | linux/src/FFmpegKitConfig.cpp:643-689 | the oldest record is removed and its slot's counter decremented, keeping the balance. A log record prints the `CppPrintedLine` of its level, strategy and callbacks, and when it passes the filter a kept session's logs grow by it. Only the receiving session's logs change for a log record. A statistics record reaches a kept FFmpeg session, and only its statistics change. No other session changes, and an empty queue changes nothing |
| Config.KitConfig.CancelAll | linux/src/FFmpegKit.cpp:68-75 | cancel with id 0 raises a signal and leaves the slots alone |
| Config.KitConfig.CancelAllDuringRun | linux/src/FFmpegKit.cpp:68-75 | with the signal count shared, a `cancel()` between the start and the end of a run past setup makes it return 255; a setup failure keeps its code |
| Config.KitConfig.Cancel | linux/src/FFmpegKit.cpp:77-79 | a non-zero id gets a cancel request without a signal, the other slots unchanged; id 0 raises a signal and leaves every slot alone |
| Config.KitConfig.ExecuteBegin | linux/src/FFmpegKitConfig.cpp:691-716 | argv is "ffmpeg" then the arguments; the level is reset, the session becomes the running one, its slot active with no cancel request and its counter zero; every other slot's mark and counter, the global strategy and the callbacks unchanged |
| Config.KitConfig.ExecuteEnd | linux/src/FFmpegKitConfig.cpp:716-729 | the exit code follows the engine contract, 255 after a cancel request past setup; the slot is idle afterwards and every other slot's mark unchanged |
| Config.KitConfig.FFmpegExecute | linux/src/FFmpegKitConfig.cpp:1012-1022 | the session runs and ends Completed with the exit code, or Failed with the exception text, with the slot still active; the other of return code and failure text, the logs, the statistics and every other slot unchanged |
| AndroidNative.NativeKit.constructor | android/ffmpeg-kit-android-lib/src/main/cpp/ffmpegkit.c:288-304 | empty queue with NULL pointers, idle slots and zero counters |
| AndroidNative.NativeKit.Push | android/ffmpeg-kit-android-lib/src/main/cpp/ffmpegkit.c:288-309 | the tail insertion and counter increment keep the queue and counters balanced |
| AndroidNative.NativeKit.LogCallbackDataAdd | android/ffmpeg-kit-android-lib/src/main/cpp/ffmpegkit.c:276-310 | the log record of the running session becomes the tail, and its counter grows by one |
| AndroidNative.NativeKit.StatisticsCallbackDataAdd | android/ffmpeg-kit-android-lib/src/main/cpp/ffmpegkit.c:315-350 | the statistics record of the running session becomes the tail, and its counter grows by one |
| AndroidNative.NativeKit.LogCallbackFunction | android/ffmpeg-kit-android-lib/src/main/cpp/ffmpegkit.c:446-481 | a filtered message or an empty line queues nothing; otherwise the masked level and the (unsigned) sanitized line are queued |
| AndroidNative.NativeKit.DispatchOne | android/ffmpeg-kit-android-lib/src/main/cpp/ffmpegkit.c:517-555 | records are forwarded in enqueue order, each decrementing its slot's counter; nothing happens on an empty queue |
| AndroidNative.NativeKit.Cancel | android/ffmpeg-kit-android-lib/src/main/cpp/fftools_ffmpeg.c:1506-1512 | id 0 raises a signal and leaves every slot alone; any other id gets a cancel request without a signal, the other slots unchanged |
| AndroidNative.NativeKit.NativeExecuteBegin | android/ffmpeg-kit-android-lib/src/main/cpp/ffmpegkit.c:783-820 | argv is "ffmpeg-kit" then the arguments (only the name for a null array); the level is reset, the id registered and its counter zero; every other slot's mark and counter unchanged |
| AndroidNative.NativeKit.NativeExecuteEnd | android/ffmpeg-kit-android-lib/src/main/cpp/ffmpegkit.c:822-826 | the exit code follows the engine contract, and the id's slot is always idle afterwards; every other slot's mark unchanged |

## Left out

- Threads, mutexes, condition variables, timed waits and
  `waitForAsynchronousMessagesInTransmit`. Every queue, slot and history
  operation is one atomic step, and no interleaving inside a step is modelled.
- The Android log cases for ERROR, FATAL and PANIC are modelled only this far:
  `LogRedirection.AndroidPriority` picks the priority of the Java `log()`. The
  JNI upcalls and the actual `android.util.Log` calls are platform I/O.
- Floating-point statistics fields (fps, quality, time, bitrate, speed) and
  `forward_report`: records keep only their integer fields.
- `avutil_log_format_line` (va_list formatting, AVBPrint): its four parts are
  inputs to `LogCallbackFunction`.
- The FFprobe and media-information execute paths, and the MediaInformation
  JSON model: thin wrappers over the same steps and over JSON parsers.
- Font, pipe, environment and signal-ignore setup, Android SAF descriptors,
  camera and ABI detection: platform glue.
- The engine itself: it is `Engine.EngineRun` plus the exit-code contract.
  Signals raised by `cancel_operation(0)` are a counter in `Slots.SessionSlots`.
- The Java, Flutter and React Native duplicates of the session and history code
  are modelled once. The Android history (`FFmpegKitConfig.java` 1086-1179)
  follows the same `History.SessionHistory`. Only `getLastSession`, where the
  bindings differ, has two versions.
- Slot operations require id >= 0. Ids come from a generator starting at 1. C's
  and C++'s `%` on a negative id would index out of the array.
- 32-bit and 64-bit wrap-around of the id generator and of the counters: the
  model uses unbounded integers.
- Arguments.ParseArguments: the exact command lines of the binding's tests are
  too long to evaluate literally. They are covered by
  `Arguments.ParseWellFormed`, whose segments describe each of those command
  shapes, and by five short examples with the same quoting features.
- Sessions.Session.Command: a parse round-trip is stated only for plain words.
  Quoted arguments do not round-trip through a space join.
- Config.KitConfig.FFmpegExecute: the engine call is modelled as finishing (or
  throwing) within the step. A cancellation of a non-zero id arriving during the
  run can still be modelled by calling `ExecuteBegin`, `Cancel` and `ExecuteEnd`
  in turn, because the slot table is process-wide.
- Config.KitConfig.CancelAll: `signals` in `Slots.SessionSlots` stands for the
  engine thread's own `received_nb_signals`, which is `__thread`
  (`fftools_ffmpeg.c` 309-310). `cancel_operation(0)` raises the calling thread's
  count, so a `cancel()` from any other thread does not reach the engine. The
  model treats the count as shared, the intended behaviour; the per-thread
  reading is `Engine.RaiseOn` (see Findings). The same holds for
  `AndroidNative.NativeKit.Cancel` and `Config.KitConfig.Cancel` with id 0.
  `Sessions.Session.Cancel` never passes id 0, since generator-issued ids start at 1.
- `globalSessionId` is also `__thread` (`ffmpegkit.c` 109, `FFmpegKitConfig.cpp`
  97). The model keeps one value, the engine thread's. A message logged from
  another thread carries that thread's id (0 unless it runs a session), which
  the model does not separate.
- Config.KitConfig.LogCallbackFunction: queues the line built with unsigned
  bytes (`LogLines.FullLine`), the corrected reading. The C++ code as written
  builds `LogLines.FullLineAsWritten`, in which every byte from 0x80 on is '?'
  (see Findings).
- Arguments.ArgumentsToString: React Native's `argumentsToString(null)` throws a
  TypeError, since only `undefined` is tested before `forEach` (`index.js`
  1457-1470). The model gives the absent text for every missing list.
- Arguments.ArgumentsToString: Java appends "null" for a null element of the
  array (`StringBuilder.append`). The model's elements are always strings.
- Getters and setters that only read or write one field are the fields themselves.
- `validDate` returns a JavaScript `Date`. `NativeEventValues.ValidDate` keeps
  the milliseconds it is built from.
- The Android native argv for a Java array holding a null element is undefined
  in the C code (argv slots stay uninitialised). `NativeExecuteBegin` takes
  arguments as non-null strings.

## Findings

| source | as written | input that shows it | evidently intended | confidence | as-written member | corrected member |
|---|---|---|---|---|---|---|
| linux/src/FFmpegKitConfig.cpp:1229-1234 | `getLastSession` returns the front of the history list, which is the oldest kept session (and is undefined on an empty list) | two sessions created in turn: the first one is returned | the last session created, as the header documents and the Java binding returns (`FFmpegKitConfig.java` 1152-1160), with none for an empty history | high (not executed) | History.SessionHistory.GetLastSessionAsWritten, History.FrontIsNotNewest | History.SessionHistory.GetLastSession |
| linux/src/FFmpegKitConfig.cpp:349-355 | `avutil_log_sanitize` takes `char *`, compares `*line < 0x08` on a signed `char`, and so rewrites every byte from 0x80 to '?' | the UTF-8 bytes C3 A9 (é) in a log line become "??" | only control bytes are replaced, as in the Android version, which reads the line as `uint8_t` (`ffmpegkit.c` 192-198) | medium: holds where `char` is signed (x86-64), not executed | LogLines.SanitizeByteAsWritten, LogLines.SignedSanitizeReplacesUtf8, LogLines.FullLineAsWritten, LogLines.FullLineAsWrittenReplacesUtf8 | LogLines.SanitizeByte, LogLines.Sanitize, LogLines.FullLine |
| android/ffmpeg-kit-android-lib/src/main/cpp/fftools_ffmpeg.c:309-322 | `received_nb_signals` is `__thread`, and `cancel_operation(0)` runs `sigterm_handler` on the calling thread, so `cancel()` only raises the caller's own count | `cancel()` from the app thread while another thread runs a session that transcodes cleanly: the engine's count stays 0 and the run returns 0, not 255 | every ongoing session is cancelled, as the comment in `FFmpegKit.cpp` 70-73 says | medium (not executed) | Engine.RaiseOn, Engine.OtherThreadSignalNotSeen, Engine.CancelFromOtherThreadIgnored | Config.KitConfig.CancelAll, Config.KitConfig.CancelAllDuringRun |
