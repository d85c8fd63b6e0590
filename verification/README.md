# supernova_log logger core, modelled in Dafny

This project models the core of the `Logger_C` singleton of the supernova_log
library:

- the severity filter of `LogWrite`;
- its `%`-token format-template renderer;
- the sink dispatch and fatal-abort policy of `FlushOut`;
- the file gating of `Init`;
- the configuration setters and getters, the stream map and `GetInstance`;
- the rendering of severity names and time stamps;
- the ECMA-48 Select Graphic Rendition serialiser of `TextColor_C`.

The model is functional. The logger is an immutable record. A write returns
the new record together with a `Dispatch`: the line appended to the file,
the line written to a console stream, and whether the process aborted.
Streams and the log file are represented only by the lines written to them.
Whether the operating system lets a file be opened is an input to `Init`.
The wall-clock reading and its `ctime` text are an input to each call.

Files:

- `wrappers.dfy`: `Option`.
- `decimal.dfy`: decimal rendering and parsing of integers; division that truncates toward zero.
- `attributes.dfy`: severity levels, time-stamp modes, log types.
- `renderer.dfy`: the template renderer, a loop implementation of it, and the C-string scan as written.
- `text_color.dfy`: display attributes, colour codes, SGR serialisation and its parser.
- `logger.dfy`: the logger record, setters and getters, `Init`, `FlushOut`, `LogWrite`, runs of calls, the singleton.

Severity levels and time-stamp modes are carried as integer codes. Both are
scoped enums, so a value of either type can hold any integer of the
underlying type. The named values are datatypes with a `Code()` and a
partial inverse (`SeverityOf`, `TimeStampModeOf`).

Text is byte text. The program keeps its template, file name, function
name and message in `std::string`s and scans the template one byte at a
time, so every Dafny `char` in this model stands for one byte, with a value
from 0 to 255. A character that UTF-8 encodes in several bytes is several
`char`s here, and the renderer treats each of those bytes as the program
does.

A level missing from the logger's stream map stands for the null stream
pointer that the map lookup in `FlushOut` would find.

## Model

| member | source | states |
|---|---|---|
| Attributes.SeverityOf | src/log/src/logging_attributes.h:42-49 | a code names a severity exactly when it is 0..5, and the severity found has that code |
| Attributes.SeverityOrder | src/log/src/logging_attributes.h:42-49 | TRACE = 0 < DEBUG < INFO < WARN < ERROR < FATAL = 5; distinct severities have distinct codes |
| Attributes.SeverityName | src/log/src/logging_attributes.h:60-88 | the corrected operator: the upper-case name of a named level, "??" for any other code (its contract is `SeverityNameRoundTrip`) |
| Attributes.SeverityNameRoundTrip | src/log/src/logging_attributes.h:60-88 | parsing the rendered name gives back the named severity; the name is "??" exactly for codes outside the enumeration |
| Attributes.SeverityNamesAsTested | tests/log/logger_test.cpp:33-82 | each severity renders to its upper-case name, and, by the corrected severity operator, the out-of-range value 6 renders "??" |
| Attributes.SeverityNameAsWritten | src/log/src/logging_attributes.h:60-88 | the operator as written, with the stack depth still available; its behaviour is stated by `UnknownSeverityNeverReturns` and `KnownSeverityAsWritten` |
| Attributes.UnknownSeverityNeverReturns | src/log/src/logging_attributes.h:81-85 | as written, rendering an out-of-range severity recurses into itself and never returns, however deep the stack |
| Attributes.KnownSeverityAsWritten | src/log/src/logging_attributes.h:62-80 | for named levels the operator as written returns the same name as the corrected one |
| Attributes.TimeStampModeOf | src/log/src/logging_attributes.h:96-102 | a code names a mode exactly when it is 0..4, and the mode found has that code |
| Attributes.TimeStamp | src/log/src/logging_attributes.h:113-154 | NONE and unknown modes give ""; each epoch mode gives a decimal that parses back to the count of seconds, milliseconds or microseconds since the epoch, which by `Decimal.ParseIntExact` is exactly the shortest signed numeral of that count; DATE_TIME gives the ctime text less its last character |
| Attributes.EpochText | src/log/src/logging_attributes.h:121-138 | the epoch count text parses back to the truncated count of whole units, so by `Decimal.ParseIntExact` it is exactly the `std::to_string` text of that count |
| Attributes.TimeStampAsWritten | src/log/src/logging_attributes.h:113-154 | the time-stamp operator as written; its behaviour is stated by `MicroRendersMillis`, `UnknownModeNeverReturns` and `KnownModeAsWritten` |
| Attributes.MicroRendersMillis | src/log/src/logging_attributes.h:127-138 | as written, the microsecond mode renders the same digits as the millisecond mode, which parse to the millisecond count |
| Attributes.MicroDefectExample | src/log/src/logging_attributes.h:133-138 | 1.5 ms after the epoch, the microsecond mode shows "1" as written and "1500" once corrected |
| Attributes.UnknownModeNeverReturns | src/log/src/logging_attributes.h:145-148 | as written, rendering an out-of-range time-stamp mode recurses into itself and never returns |
| Attributes.KnownModeAsWritten | src/log/src/logging_attributes.h:119-144 | apart from the microsecond mode, the operator as written agrees with the corrected one on every named mode |
| Attributes.MicrosRefineMillis | src/log/src/logging_attributes.h:127-138 | the corrected microsecond count, truncated to thousands, is the millisecond count |
| Attributes.NoTimeStampIsEmpty | tests/log/logger_test.cpp:84-89 | mode NONE renders the empty string |
| Attributes.DateTimeStampLength | tests/log/logger_test.cpp:91-103 | with a 25-character ctime text, DATE_TIME renders its first 24 characters |
| Decimal.NatToDecimal | src/log/src/logger.cpp:147-150 | a line number prints as a non-empty digit string without leading zeros, "0" only for zero |
| Decimal.NatRoundTrip | src/log/src/logger.cpp:147-150 | parsing the printed digits gives back the number |
| Decimal.IntRoundTrip | src/log/src/logging_attributes.h:121-138 | parsing the printed signed count gives back the count |
| Decimal.ParseNatExact | src/log/src/logger.cpp:147-150 | a text parses to `n` if and only if it is the printed numeral of `n`: no padding with leading zeros |
| Decimal.ParseIntExact | src/log/src/logging_attributes.h:121-138 | a text parses to `i` if and only if it is the `std::to_string` text of `i`: no padding, no '+', no "-0" |
| Decimal.PaddedNumeralRejected | src/log/src/logging_attributes.h:121-138 | "007" and "-0", which `std::to_string` never prints, do not parse |
| Decimal.TruncDiv | src/log/src/logging_attributes.h:121-138 | converting to a coarser unit truncates toward zero, for counts before and after the epoch |
| Renderer.Expand | src/log/src/logger.cpp:138-164 | the text each token character stands for, `%L` through the corrected severity operator; stated by `TokenMeanings` |
| Renderer.Render | src/log/src/logger.cpp:131-170 | the intended rendering of a template; stated by `TokenMeanings`, `VerbatimWithoutPercent`, `RenderAppend`, `RenderEndsAtNul`, `RenderEscaped` and `RenderScan` |
| Renderer.LineTextReadsBack | src/log/src/logger.cpp:147-153 | `%C` prints "??" exactly when the line is 0, and otherwise digits that parse back to the line |
| Renderer.TokenMeanings | src/log/src/logger.cpp:138-164 | `%%`, `%T`, `%F`, `%C`, `%P`, `%L` and `%S` expand to the percent sign, time stamp, file, line, function, severity name (by the corrected severity operator) and message; any other token expands to nothing, and rendering continues after the token |
| Renderer.VerbatimWithoutPercent | src/log/src/logger.cpp:131-169 | a template without `%` and without NUL renders to itself |
| Renderer.RenderAppend | src/log/src/logger.cpp:131-170 | a template that has no NUL and does not end in an unpaired `%` renders independently of what follows it |
| Renderer.DanglingPercentEndsLine | src/log/src/logger.cpp:133-137 | in a template without NUL, a trailing unpaired `%` renders a percent sign and a line break after the rest |
| Renderer.RenderEndsAtNul | src/log/src/logger.cpp:131-170 | nothing after the first NUL of a template is rendered, whatever precedes it |
| Renderer.RenderEscaped | src/log/src/logger.cpp:138-169 | doubling every `%` of a text that has no NUL yields a template that renders to that text |
| Renderer.RenderScan | src/log/src/logger.cpp:131-170 | the character-by-character scanning loop produces the rendering |
| Renderer.DefaultFormatText | src/log/src/logger.cpp:49 | the default template `[%T] [%F:%C %P] [%L] :: %S` is its head up to the file token, the line and function tokens, and the level and message tail |
| Renderer.DefaultFormatRenders | src/log/src/logger.cpp:131-170 | with no time stamp, file a.c, line 10, function f, level INFO and message hi, the default template renders `[] [a.c:10 f] [INFO] :: hi` |
| Renderer.DefaultFormatExample | src/log/src/logger.cpp:131-170 | the same example, with the context written out |
| Renderer.MultiByteTokenSplits | src/log/src/logger.cpp:134-167 | a token character is one byte: after `%`, the lead byte of the UTF-8 `é` is an unknown token and is dropped, and its continuation byte is copied as a literal |
| Renderer.ScanCString | src/log/src/logger.cpp:131-170 | the pointer scan as written over the template's memory, None when it reads outside it; stated by `ScanAgreesWithRender`, `DanglingPercentReadsPastTerminator` and `PercentSkipsEmbeddedNul` |
| Renderer.ScanAgreesWithRender | src/log/src/logger.cpp:131-170 | on a terminated template without NUL and without a trailing unpaired `%`, the pointer scan as written stays inside the string and yields the rendering |
| Renderer.DanglingPercentReadsPastTerminator | src/log/src/logger.cpp:133-169 | as written, in a template without NUL, a trailing unpaired `%` makes the scan step past the terminator and read outside the string |
| Renderer.PercentSkipsEmbeddedNul | src/log/src/logger.cpp:133-169 | as written, the template `%`, NUL, `x` prints "%", a line break and `x`, because the scan steps over the NUL after the `%`; the intended rendering stops at the NUL |
| TextColor.DefaultTextColor | src/log/src/text_color.cpp:33-36 | the default colour has attribute code 0, foreground code 39 and background code 49 |
| TextColor.Color.BackgroundCode | src/log/src/text_color.h:53-97 | every colour's background code is its foreground code plus 10 |
| TextColor.AttributeCodeRoundTrip | src/log/src/text_color.h:105-114 | each display attribute is recovered from its code |
| TextColor.ColorCodeRoundTrip | src/log/src/text_color.h:53-97 | each colour is recovered from its foreground code and from its background code |
| TextColor.Serialize | src/log/src/text_color.cpp:58-65 | the three SGR sequences for attribute, foreground and background, each code in shortest decimal, parse back to the colour |
| TextColor.SerializeExact | src/log/src/text_color.cpp:58-65 | a text reads back as a colour if and only if it is exactly that colour's serialised text |
| TextColor.PaddedCodeRejected | src/log/src/text_color.cpp:58-65 | the default colour's text with its attribute code padded to `00`, which the stream operator never writes, does not read back as a colour |
| TextColor.SerializeInjective | src/log/src/text_color.cpp:58-65 | two colours serialise alike exactly when they are equal |
| TextColor.DefaultSerialization | src/log/src/text_color.cpp:33-65 | the default colour serialises to ESC[0m ESC[39m ESC[49m |
| Logging.Logger.IsLogSeverityLevel | src/log/src/logger.h:164-166 | whether a level passes the filter; stated by `FilterDecidesWrite` |
| Logging.Logger.SetLogSeverityLevel | src/log/src/logger.h:145-154 | the level set is the level read back; nothing else changes |
| Logging.Logger.SetTimeStampMode | src/log/src/logger.h:175-194 | the mode set is the mode read back; nothing else changes |
| Logging.Logger.SetLogType | src/log/src/logger.h:204 | the log type becomes the one given; nothing else changes |
| Logging.Logger.EnableConsoleLogging | src/log/src/logger.h:212 | the logger then writes to the console and not to the file; nothing else changes |
| Logging.Logger.EnableFileLogging | src/log/src/logger.h:220 | the logger then writes to the file and not to the console; nothing else changes |
| Logging.LastEnableWins | src/log/src/logger.h:212-220 | of the two switches the last one called decides, and neither turns on both sinks |
| Logging.Logger.SetLogFileName | src/log/src/logger.h:229-239 | the name set is the name read back; the open file and everything else stay as they were |
| Logging.Logger.SetFormat | src/log/src/logger.h:249-257 | the template set is the template read back; nothing else changes |
| Logging.Logger.SetStream | src/log/src/logger.h:266-268 | the given level maps to the given stream; every other level keeps its entry or its absence |
| Logging.Logger.WriteToStream | src/log/src/logger.h:276 | text written into the scratch stream is appended after what it already holds |
| Logging.DefaultRouting | src/log/src/logger.cpp:36-42 | the default stream map covers exactly the six named levels, TRACE to INFO on standard output and WARN to FATAL on standard error |
| Logging.NewLogger | src/log/src/logger.cpp:45-59 | a new logger has the given minimum level and log type, no open file and an empty scratch buffer |
| Logging.NewLoggerDefaults | src/log/src/logger.cpp:45-50 | the new logger's active level is INFO, its time stamps DATE_TIME, its file name supernova_log.txt, its template the default one, its stream map the default one |
| Logging.GetInstance | src/log/src/logger.h:95-100 | the first call creates a new logger and stores it; later calls return the stored one and change nothing |
| Logging.Store | src/log/src/logger.h:95-100 | a logger changed through the pointer the accessor returned is the one the process now holds |
| Logging.StoredInstanceReturned | src/log/src/logger.h:95-100 | after a change through the pointer, the accessor returns the changed logger and leaves the process as it is |
| Logging.ConfigurationPersists | src/log/src/logger.h:95-100 | a template set through the singleton is the one every later call to the accessor sees |
| Logging.InstanceIsStable | src/log/src/logger.h:95-100 | a second call returns the same logger as the first, whatever configuration it is given |
| Logging.Init | src/log/src/logger.cpp:61-84 | a file is opened only when the log type writes a file, the name is not empty, the open succeeds and none is open yet; afterwards the file sink works exactly when that happened, or when Init wrote no file and the sink already worked; a failed open or a second open leaves the stream failed; a diagnostic is printed unless a file was opened or one was already open, on standard output when the type writes no file and on standard error otherwise |
| Logging.ReinitSilencesFile | src/log/src/logger.cpp:61-93 | as written, initialising again while a file is open prints nothing and keeps the old file open, yet no later write reaches the file |
| Logging.InitIntended | src/log/src/logger.cpp:61-84 | initialising as intended: with a file log type and a name, the file sink works afterwards exactly when the new file opens, and then it is that file |
| Logging.IntendedReinitKeepsFileLogging | src/log/src/logger.cpp:61-93 | after initialising again as intended, an accepted call that renders to something is appended to the new file |
| Logging.EmptyNameNeverReachesFile | src/log/src/logger.cpp:61-93 | initialising a closed logger with an empty name leaves it closed, and no later write reaches the file |
| Logging.FlushOut | src/log/src/logger.cpp:86-119 | an empty buffer goes nowhere; otherwise the file gets it exactly when the type writes a file and one is open and not failed, the active level's stream gets it exactly when the type writes to the console and that stream is not null, and the process aborts exactly when logging is on and the active level is FATAL |
| Logging.RenderCall | src/log/src/logger.cpp:131-170 | the line a call renders to under the logger's template and time-stamp mode; stated by the renderer lemmas and `WriteKeepsRendering` |
| Logging.LogWrite | src/log/src/logger.cpp:121-174 | a write changes at most the active level and the scratch buffer |
| Logging.FlushAgainRepeats | src/log/src/logger.cpp:86-119 | a flush does not clear the scratch buffer, so flushing again after an accepted write resends its line to the same sinks |
| Logging.FilterDecidesWrite | src/log/src/logger.h:164-166 | a call the filter rejects changes nothing, writes nothing and does not abort; an accepted one becomes the active level and leaves its rendering in the scratch buffer |
| Logging.WriteRouting | src/log/src/logger.cpp:86-172 | an accepted call's rendering goes to the file and to the stream mapped to its own level under the conditions of the flush, and the process aborts exactly for a FATAL call with a non-empty rendering while logging is on |
| Logging.AbortPolicy | src/log/src/logger.cpp:86-126 | a call aborts exactly when it passes the filter, renders to something, logging is on and it is FATAL; an empty rendering writes nothing and never aborts |
| Logging.DefaultConsoleRouting | src/log/src/logger.cpp:36-42 | with the default stream map, console output of levels up to INFO goes to standard output and of higher levels to standard error |
| Logging.RedirectedLevel | src/log/src/logger.h:266-268 | a level redirected to a stream of the caller's own gets that level's console lines |
| Logging.WriteKeepsRendering | src/log/src/logger.cpp:121-174 | after a write, later calls are filtered and rendered exactly as before it |
| Logging.Run | src/log/src/logger.cpp:121-174 | a sequence of log statements run in order, stopping at the first abort; stated by `RunFileLines` and `NoFatalNoAbort` |
| Logging.RunFileLines | src/log/src/logger.cpp:86-174 | with file logging on and a working file open, a run of calls leaves in the file the non-empty renderings of the accepted calls, in order, up to and including the first FATAL one |
| Logging.ExpectedLinesFollowConfiguration | src/log/src/logger.cpp:124-170 | the expected file lines depend only on the minimum level, the template and the time-stamp mode |
| Logging.NoFatalNoAbort | src/log/src/logger.cpp:110-117 | a run of calls none of which is FATAL never aborts |

## Left out

- Logging.LogWrite: `%T` and `%L` are rendered with the corrected operators `Attributes.TimeStamp` and `Attributes.SeverityName`. The source's operators differ in two ways, both recorded under Findings. First, EPOCH_MICRO_SECONDS writes milliseconds, not microseconds. Second, an out-of-range level under `%L` or an out-of-range mode under `%T` never returns: the process crashes, where the model writes "??" or nothing. For named levels and the other modes the two agree (`KnownSeverityAsWritten`, `KnownModeAsWritten`).
- Logging.RenderCall: this is where the corrected `%T` and `%L` operators are called, so the line it renders differs from the program's in the same two ways as `Logging.LogWrite` above.
- Renderer.Expand: `%L` is expanded with the corrected `Attributes.SeverityName`, so an out-of-range level expands to "??" where the program's operator never returns (the `Attributes.UnknownSeverityNeverReturns` finding).
- Logging.GetInstance: the singleton is a value in a `Process` slot. Changes made through the returned pointer are modelled by `Store`, which the caller applies after each change.
- Real I/O. Opening, writing and flushing the file and console streams are not modelled. The file and each stream are represented by the lines written to them. Whether the file can be opened is the `opens` input of `Init`.
- The clock. `system_clock::now()` and `ctime` are the `Clock` input of each call: a nanosecond count since the epoch and the `ctime` text. One reading serves the whole rendering; the source reads the clock again for each `%T`.
- Init: the `append` flag is accepted and ignored; it only selects the opening mode of a real file.
- Init: the text of the open-failure diagnostic is the exception message the source builds and catches. The model writes it out directly.
- FlushOut: the extra diagnostic line printed before the abort in debug builds is not modelled.
- The stream map: the null entry that the map lookup inserts for a missing level is not modelled. It is never observable except through that same lookup.
- The stream map: it is a static member shared by every logger. There is only ever one logger, so the model keeps the map in the logger record.
- The constructor: the minimum severity and the log type that it picks depending on the build configuration (src/log/src/logger.cpp:52-58) are parameters of `NewLogger`.
- LogType values outside the four named ones are not modelled.
- Diagnostics printed by the severity and time-stamp operators for out-of-range values are not modelled in the corrected versions. The as-written versions model only that those operators never return.
- Attributes.TimeStamp: DATE_TIME with an empty `ctime` text renders "" instead of failing. `ctime` always ends in a line break, so that case does not arise.
- `TextColor_C` copy construction and assignment copy all three fields. `TextColor` is a value, so every copy is the same value and serialises alike. There is no separate member for them.
- `TextColor_C` parametric construction stores its three arguments unchanged, which is the datatype constructor.
- The `LogMessageShink_C` sink shim and the `SN_LOG` family of macros are not part of this model. They only forward their arguments to `LogWrite`.
- The assertion macros `SN_ASSERT`, `ASSERT_RETURN` and `CHECK_CONDITION_RETURN` (src/log/src/logger.h:340-368) are not part of this model. They sit beside the logger rather than in it: they assert, break into the debugger or return from the caller, and only `SN_ASSERT` logs, through `SN_LOG_FATAL`.
- The conversion of enum values to their underlying integer is taken to be the enum's code.
- Thread safety is not modelled: neither the unsynchronised lazy creation of the singleton nor the shared scratch buffer.

## Findings

| source | as written | input that shows it | evidently intended | confidence | as-written member | corrected member |
|---|---|---|---|---|---|---|
| src/log/src/logger.cpp:133-169 | a `%` followed by an embedded NUL prints "%" and a line break, then steps over the NUL and keeps rendering what follows | template `%`, NUL, `x` prints "%", a line break and `x` | the template ends at its first NUL | medium, not executed | Renderer.PercentSkipsEmbeddedNul | Renderer.RenderEndsAtNul |
| src/log/src/logger.cpp:61-93 | `Init` on a logger whose file is already open: the open fails and sets the stream's failure state, the stream still counts as open so nothing is reported, and every later write to the file is dropped | `Init("a.txt")`, then `Init("b.txt")`, then an INFO message | close the open file and open the new one, so file logging goes on | medium, not executed | Logging.ReinitSilencesFile | Logging.IntendedReinitKeepsFileLogging |
| src/log/src/logger.cpp:133-137,169 | after a trailing unpaired `%` the scan prints "%" and a line break, then increments the pointer past the terminator and keeps reading | template `"abc%"` | stop at the end of the template after printing "%" and a line break | high, not executed | Renderer.DanglingPercentReadsPastTerminator | Renderer.DanglingPercentEndsLine |
| src/log/src/logging_attributes.h:81-85 | the default branch streams the unknown level to the error console with the same operator, which takes the default branch again | severity code 6 | print "??" and a diagnostic that shows the numeric value | high, not executed | Attributes.UnknownSeverityNeverReturns | Attributes.SeverityNameRoundTrip |
| src/log/src/logging_attributes.h:145-148 | the default branch streams the unknown mode with the same operator, which takes the default branch again | time-stamp mode code 5 | print a diagnostic that shows the numeric value and render no time stamp | high, not executed | Attributes.UnknownModeNeverReturns | Attributes.TimeStamp |
| src/log/src/logging_attributes.h:133-137 | EPOCH_MICRO_SECONDS converts to milliseconds | a clock 1.5 ms after the epoch renders "1" | the count of microseconds, "1500" | high, not executed | Attributes.MicroRendersMillis | Attributes.MicrosRefineMillis |
