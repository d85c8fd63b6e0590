/** The logger: its configuration record, the severity filter of `LogWrite`,
    the sink dispatch and fatal-abort policy of `FlushOut`, the file gating
    of `Init`, and the singleton accessor. Streams and the log file are
    modelled by the lines written to them; the file opening outcome and the
    clock reading are inputs. */
module Logging {
  import opened Wrappers
  import opened Attributes
  import Renderer

  /** A console output stream a severity can be mapped to. */
  datatype Stream = StdOut | StdErr | UserStream(id: nat)

  /** One line written to a console stream (followed there by a line break). */
  datatype ConsoleLine = ConsoleLine(stream: Stream, text: string)

  /** The logger's state. Severity levels and the time-stamp mode are the
      integer codes of their enumerations. A level missing from `streams`
      stands for a null stream pointer. `openFile` is the name of the file
      the file stream has open, if any, and `fileFailed` is the file stream's
      failure state, which makes every later write to it a no-op; `buffer`
      is the shared scratch stream that holds the text of the last rendered
      message. */
  datatype Logger = Logger(
    minLevel: int,
    activeLevel: int,
    timeStampMode: int,
    logType: LogType,
    fileName: string,
    format: string,
    streams: map<int, Stream>,
    openFile: Option<string>,
    fileFailed: bool,
    buffer: string)
  {
    /** Whether a line written to the file stream reaches the file. */
    predicate FileWritable() {
      openFile.Some? && !fileFailed
    }

    function GetLogSeverityLevel(): int {
      minLevel
    }

    /** Sets the minimum severity; nothing else changes. */
    function SetLogSeverityLevel(level: int): (r: Logger)
      ensures r.GetLogSeverityLevel() == level
      ensures r.(minLevel := minLevel) == this
    {
      this.(minLevel := level)
    }

    /** Whether a message of `level` passes the filter. */
    predicate IsLogSeverityLevel(level: int) {
      minLevel <= level
    }

    function GetTimeStampMode(): int {
      timeStampMode
    }

    /** Sets the time-stamp mode; nothing else changes. */
    function SetTimeStampMode(mode: int): (r: Logger)
      ensures r.GetTimeStampMode() == mode
      ensures r.(timeStampMode := timeStampMode) == this
    {
      this.(timeStampMode := mode)
    }

    /** Sets the log type; nothing else changes. */
    function SetLogType(t: LogType): (r: Logger)
      ensures r.logType == t
      ensures r.(logType := logType) == this
    {
      this.(logType := t)
    }

    /** Console logging only: file logging is switched off. */
    function EnableConsoleLogging(): (r: Logger)
      ensures r.logType.WritesConsole() && !r.logType.WritesFile()
      ensures r.(logType := logType) == this
    {
      this.(logType := ConsoleLog)
    }

    /** File logging only: console logging is switched off. */
    function EnableFileLogging(): (r: Logger)
      ensures r.logType.WritesFile() && !r.logType.WritesConsole()
      ensures r.(logType := logType) == this
    {
      this.(logType := FileLog)
    }

    function GetLogFileName(): string {
      fileName
    }

    /** Sets the recorded file name; nothing else changes, in particular the
        open file stays as it is. */
    function SetLogFileName(name: string): (r: Logger)
      ensures r.GetLogFileName() == name
      ensures r.(fileName := fileName) == this
    {
      this.(fileName := name)
    }

    function GetFormat(): string {
      format
    }

    /** Sets the format template; nothing else changes. */
    function SetFormat(f: string): (r: Logger)
      ensures r.GetFormat() == f
      ensures r.(format := format) == this
    {
      this.(format := f)
    }

    /** Maps `level` to the stream `s`; the other levels keep their streams. */
    function SetStream(level: int, s: Stream): (r: Logger)
      ensures level in r.streams && r.streams[level] == s
      ensures forall k :: k != level ==> (k in r.streams <==> k in streams)
      ensures forall k :: k != level && k in streams ==> r.streams[k] == streams[k]
      ensures r.(streams := streams) == this
    {
      this.(streams := streams[level := s])
    }

    /** Text written by hand into the scratch stream `GetStream` returns is
        appended to what is already there. */
    function WriteToStream(text: string): (r: Logger)
      ensures |r.buffer| == |buffer| + |text|
      ensures r.buffer[..|buffer|] == buffer && r.buffer[|buffer|..] == text
      ensures r.(buffer := buffer) == this
    {
      this.(buffer := buffer + text)
    }
  }

  /** Switching between console and file logging: the last call wins and
      neither switch turns on both sinks. */
  lemma LastEnableWins(l: Logger)
    ensures l.EnableConsoleLogging().EnableFileLogging().logType == FileLog
    ensures l.EnableFileLogging().EnableConsoleLogging().logType == ConsoleLog
    ensures l.EnableConsoleLogging().logType != Both && l.EnableFileLogging().logType != Both
  {
  }

  const DefaultFileName: string := "supernova_log.txt"

  /** The initial stream map: TRACE, DEBUG and INFO to standard output,
      WARN, ERROR and FATAL to standard error. */
  function DefaultStreams(): map<int, Stream> {
    map[Trace.Code() := StdOut, Debug.Code() := StdOut, Info.Code() := StdOut,
        Warn.Code() := StdErr, Error.Code() := StdErr, Fatal.Code() := StdErr]
  }

  /** The default map covers exactly the named levels and sends those up to
      INFO to standard output and the rest to standard error. */
  lemma DefaultRouting(level: int)
    ensures level in DefaultStreams() <==> SeverityOf(level).Some?
    ensures level in DefaultStreams() ==>
      DefaultStreams()[level] == (if level <= Info.Code() then StdOut else StdErr)
  {
  }

  /** A freshly constructed logger. The minimum severity and the log type
      depend on the build configuration and are parameters. */
  function NewLogger(minLevel: int, logType: LogType): (l: Logger)
    ensures l.minLevel == minLevel && l.logType == logType
    ensures l.openFile == None && !l.fileFailed && l.buffer == ""
  {
    Logger(minLevel, Info.Code(), DateTime.Code(), logType, DefaultFileName,
           Renderer.DefaultFormat, DefaultStreams(), None, false, "")
  }

  /** The constructor's defaults: active level INFO, DATE_TIME stamps, the
      default file name and template, the default stream map. */
  lemma NewLoggerDefaults(minLevel: int, logType: LogType)
    ensures NewLogger(minLevel, logType).activeLevel == Info.Code()
    ensures NewLogger(minLevel, logType).timeStampMode == DateTime.Code()
    ensures NewLogger(minLevel, logType).fileName == "supernova_log.txt"
    ensures NewLogger(minLevel, logType).format == "[%T] [%F:%C %P] [%L] :: %S"
    ensures NewLogger(minLevel, logType).streams == DefaultStreams()
  {
    Renderer.DefaultFormatText();
  }

  /** The process-wide slot holding the singleton, empty before first use. */
  datatype Process = Process(instance: Option<Logger>)

  /** The singleton accessor: creates the logger on first use and afterwards
      returns the one already there, leaving the process unchanged. */
  function GetInstance(p: Process, minLevel: int, logType: LogType): (r: (Process, Logger))
    ensures r.0.instance == Some(r.1)
    ensures p.instance.Some? ==> r.0 == p && r.1 == p.instance.value
    ensures p.instance.None? ==> r.1 == NewLogger(minLevel, logType)
  {
    match p.instance
    case Some(l) => (p, l)
    case None =>
      var l := NewLogger(minLevel, logType);
      (Process(Some(l)), l)
  }

  /** Every call after the first returns the same logger as the first. */
  lemma InstanceIsStable(p: Process, minLevel: int, logType: LogType, minLevel': int, logType': LogType)
    ensures GetInstance(GetInstance(p, minLevel, logType).0, minLevel', logType').1
         == GetInstance(p, minLevel, logType).1
    ensures GetInstance(GetInstance(p, minLevel, logType).0, minLevel', logType').0
         == GetInstance(p, minLevel, logType).0
  {
  }

  /** Configuring the logger through the pointer the accessor returned: the
      changed logger is the one the slot now holds. */
  function Store(p: Process, l: Logger): (q: Process)
    requires p.instance.Some?
    ensures q.instance == Some(l)
  {
    Process(Some(l))
  }

  /** The accessor returns the logger as last configured through it. */
  lemma StoredInstanceReturned(p: Process, l: Logger, minLevel: int, logType: LogType)
    requires p.instance.Some?
    ensures GetInstance(Store(p, l), minLevel, logType) == (Store(p, l), l)
  {
  }

  /** A template set through the singleton is the one every later call to
      the accessor sees. */
  lemma ConfigurationPersists(p: Process, f: string, minLevel: int, logType: LogType)
    ensures GetInstance(Store(GetInstance(p, minLevel, logType).0,
                              GetInstance(p, minLevel, logType).1.SetFormat(f)),
                        minLevel, logType).1.GetFormat() == f
  {
  }

  /** What `Init` did: the new state and the diagnostic line it printed. */
  datatype InitResult = InitResult(logger: Logger, diagnostic: Option<ConsoleLine>)

  /** Opens `name` for the file sink, in append mode or not; `opens` says
      whether the operating system lets the file be opened for writing.
      The file is opened only when the log type writes a file and the name is
      not empty; when the log type writes no file or the name is empty a
      diagnostic is printed and nothing changes. A failed open sets the
      stream's failure state; a successful one clears it. Opening a stream
      that is already open fails: the old file stays open, nothing is
      reported since the stream still counts as open, and the failure state
      it is left in silences every later write to the file. */
  function Init(l: Logger, name: string, append: bool, opens: bool): (r: InitResult)
    ensures r.logger.(openFile := l.openFile, fileFailed := l.fileFailed) == l
    ensures l.openFile.Some? ==> r.logger.openFile == l.openFile
    ensures l.openFile.None? ==>
      (r.logger.openFile.Some? <==> l.logType.WritesFile() && |name| > 0 && opens)
    ensures l.openFile.None? && r.logger.openFile.Some? ==> r.logger.openFile == Some(name)
    ensures r.logger.FileWritable() <==>
      if l.logType.WritesFile() && |name| > 0 then l.openFile.None? && opens else l.FileWritable()
    ensures r.diagnostic.None? <==> l.logType.WritesFile() && |name| > 0 && (l.openFile.Some? || opens)
    ensures r.diagnostic.Some? ==>
      r.diagnostic.value.stream == (if l.logType.WritesFile() then StdErr else StdOut)
  {
    if !l.logType.WritesFile() then
      InitResult(l, Some(ConsoleLine(StdOut, "[INFO] : Cannot log into the file. Log type is not a FILE_LOG")))
    else if |name| == 0 then
      InitResult(l, Some(ConsoleLine(StdErr, "[ERROR] : No log file specified.")))
    else if l.openFile.Some? then
      InitResult(l.(fileFailed := true), None)
    else if opens then
      InitResult(l.(openFile := Some(name), fileFailed := false), None)
    else
      InitResult(l.(fileFailed := true),
                 Some(ConsoleLine(StdErr, "[ERROR] : Couldn't open file " + name + " for write.")))
  }

  /** `Init` as evidently intended on a logger whose file is already open:
      the open file is closed first, so the new one is opened as on a fresh
      logger. */
  function InitIntended(l: Logger, name: string, append: bool, opens: bool): (r: InitResult)
    ensures !(l.logType.WritesFile() && |name| > 0) ==> r.logger == l && r.diagnostic.Some?
    ensures l.logType.WritesFile() && |name| > 0 ==>
      (r.logger.FileWritable() <==> opens) && (r.diagnostic.None? <==> opens)
    ensures l.logType.WritesFile() && |name| > 0 && opens ==> r.logger.openFile == Some(name)
  {
    if l.logType.WritesFile() && |name| > 0 then
      Init(l.(openFile := None, fileFailed := false), name, append, opens)
    else
      Init(l, name, append, opens)
  }

  /** What one flush sent where: the line appended to the file, the line
      written to a console stream, and whether the process aborted. */
  datatype Dispatch = Dispatch(file: Option<string>, console: Option<ConsoleLine>, aborted: bool)

  const Silent: Dispatch := Dispatch(None, None, false)

  /** Sends the scratch buffer to the sinks. An empty buffer goes nowhere.
      Otherwise the file gets it when the log type writes a file and a file
      is open and not in the failure state; the stream mapped to the active level gets it when the log
      type writes to the console and that stream is not null; and the process
      aborts when logging is not off and the active level is FATAL. */
  function FlushOut(l: Logger): (d: Dispatch)
    ensures d.file.Some? <==> |l.buffer| > 0 && l.logType.WritesFile() && l.FileWritable()
    ensures d.file.Some? ==> d.file.value == l.buffer
    ensures d.console.Some? <==>
      |l.buffer| > 0 && l.logType.WritesConsole() && l.activeLevel in l.streams
    ensures d.console.Some? ==> d.console.value == ConsoleLine(l.streams[l.activeLevel], l.buffer)
    ensures d.aborted <==> |l.buffer| > 0 && l.logType != NoLog && l.activeLevel == Fatal.Code()
  {
    if |l.buffer| == 0 then Silent
    else
      var file := if l.logType.WritesFile() && l.FileWritable() then Some(l.buffer) else None;
      var console :=
        if l.logType.WritesConsole() && l.activeLevel in l.streams
        then Some(ConsoleLine(l.streams[l.activeLevel], l.buffer))
        else None;
      Dispatch(file, console, l.logType != NoLog && l.activeLevel == Fatal.Code())
  }

  /** One log statement: severity code, source location, message, and the
      clock reading at the time it is written. */
  datatype Call = Call(
    level: int,
    file: string,
    func: string,
    line: Renderer.LineNumber,
    message: string,
    clock: Clock)

  /** The text the configured template renders for a call. */
  function RenderCall(l: Logger, c: Call): string {
    Renderer.Render(l.format,
      Renderer.Context(c.level, c.file, c.func, c.line, c.message, TimeStamp(l.timeStampMode, c.clock)))
  }

  datatype WriteResult = WriteResult(logger: Logger, out: Dispatch)

  /** Filters a call by the minimum severity; an accepted call becomes the
      active level, its rendering replaces the scratch buffer, and the buffer
      is flushed. */
  function LogWrite(l: Logger, c: Call): (r: WriteResult)
    ensures r.logger.(activeLevel := l.activeLevel, buffer := l.buffer) == l
  {
    if l.minLevel <= c.level then
      var l' := l.(activeLevel := c.level, buffer := RenderCall(l, c));
      WriteResult(l', FlushOut(l'))
    else
      WriteResult(l, Silent)
  }

  /** The filter `IsLogSeverityLevel` reports is the one `LogWrite` applies:
      a rejected call changes nothing, writes nothing and does not abort; an
      accepted one becomes the active level and leaves its rendering in the
      scratch buffer. */
  lemma FilterDecidesWrite(l: Logger, c: Call)
    ensures !l.IsLogSeverityLevel(c.level) ==> LogWrite(l, c) == WriteResult(l, Silent)
    ensures l.IsLogSeverityLevel(c.level) ==>
      LogWrite(l, c).logger.activeLevel == c.level && LogWrite(l, c).logger.buffer == RenderCall(l, c)
  {
  }

  /** A flush leaves the scratch buffer as it is, so flushing again by hand
      after an accepted write sends the same line to the same sinks again. */
  lemma FlushAgainRepeats(l: Logger, c: Call)
    requires l.IsLogSeverityLevel(c.level)
    ensures FlushOut(LogWrite(l, c).logger) == LogWrite(l, c).out
    ensures |RenderCall(l, c)| > 0 && l.logType.WritesFile() && l.FileWritable() ==>
      FlushOut(LogWrite(l, c).logger).file == Some(RenderCall(l, c))
  {
  }

  /** Where an accepted call's line goes, and when it aborts. */
  lemma WriteRouting(l: Logger, c: Call)
    requires l.IsLogSeverityLevel(c.level)
    ensures LogWrite(l, c).out.file.Some? <==>
      |RenderCall(l, c)| > 0 && l.logType.WritesFile() && l.FileWritable()
    ensures LogWrite(l, c).out.file.Some? ==> LogWrite(l, c).out.file.value == RenderCall(l, c)
    ensures LogWrite(l, c).out.console.Some? <==>
      |RenderCall(l, c)| > 0 && l.logType.WritesConsole() && c.level in l.streams
    ensures LogWrite(l, c).out.console.Some? ==>
      LogWrite(l, c).out.console.value == ConsoleLine(l.streams[c.level], RenderCall(l, c))
    ensures LogWrite(l, c).out.aborted <==>
      |RenderCall(l, c)| > 0 && l.logType != NoLog && c.level == Fatal.Code()
  {
  }

  /** A call aborts exactly when it passes the filter, renders to something,
      logging is not off and it is FATAL; an empty rendering never writes and
      never aborts. */
  lemma AbortPolicy(l: Logger, c: Call)
    ensures LogWrite(l, c).out.aborted <==>
      l.IsLogSeverityLevel(c.level) && |RenderCall(l, c)| > 0 && l.logType != NoLog && c.level == Fatal.Code()
    ensures |RenderCall(l, c)| == 0 ==> LogWrite(l, c).out == Silent
  {
  }

  /** A level redirected to a stream of the caller's own gets the console
      lines of that level. */
  lemma RedirectedLevel(l: Logger, id: nat, c: Call)
    requires l.IsLogSeverityLevel(c.level) && l.logType.WritesConsole() && |RenderCall(l, c)| > 0
    ensures LogWrite(l.SetStream(c.level, UserStream(id)), c).out.console
         == Some(ConsoleLine(UserStream(id), RenderCall(l, c)))
  {
  }

  /** Initialising again while a file is open reports nothing and keeps the
      old file open, yet no later write reaches the file. */
  lemma ReinitSilencesFile(l: Logger, name: string, append: bool, opens: bool, c: Call)
    requires l.logType.WritesFile() && l.openFile.Some? && |name| > 0
    ensures Init(l, name, append, opens).diagnostic.None?
    ensures Init(l, name, append, opens).logger.openFile == l.openFile
    ensures LogWrite(Init(l, name, append, opens).logger, c).out.file.None?
  {
  }

  /** Initialising again as intended moves file logging to the new file: an
      accepted call that renders to something is appended there. */
  lemma IntendedReinitKeepsFileLogging(l: Logger, name: string, append: bool, c: Call)
    requires l.logType.WritesFile() && |name| > 0
    requires l.IsLogSeverityLevel(c.level) && |RenderCall(l, c)| > 0
    ensures InitIntended(l, name, append, true).logger.openFile == Some(name)
    ensures LogWrite(InitIntended(l, name, append, true).logger, c).out.file == Some(RenderCall(l, c))
  {
  }

  /** With the default stream map, console output of a named level goes to
      standard output up to INFO and to standard error above. */
  lemma DefaultConsoleRouting(l: Logger, s: Severity, c: Call)
    requires l.streams == DefaultStreams() && l.logType.WritesConsole()
    requires c.level == s.Code() && l.IsLogSeverityLevel(c.level) && |RenderCall(l, c)| > 0
    ensures LogWrite(l, c).out.console.Some?
    ensures LogWrite(l, c).out.console.value.stream == (if s.Code() <= Info.Code() then StdOut else StdErr)
  {
    DefaultRouting(c.level);
  }

  /** Initialising with an empty file name leaves a closed file sink closed,
      and later writes never reach the file. */
  lemma EmptyNameNeverReachesFile(l: Logger, append: bool, opens: bool, c: Call)
    requires l.openFile.None?
    ensures Init(l, "", append, opens).logger.openFile.None?
    ensures LogWrite(Init(l, "", append, opens).logger, c).out.file.None?
  {
  }

  /** The lines the sinks received over a run of calls. */
  datatype Sinks = Sinks(file: seq<string>, console: seq<ConsoleLine>)

  function Deliver(d: Dispatch): Sinks {
    Sinks(if d.file.Some? then [d.file.value] else [],
          if d.console.Some? then [d.console.value] else [])
  }

  function Join(a: Sinks, b: Sinks): Sinks {
    Sinks(a.file + b.file, a.console + b.console)
  }

  /** The outcome of a run: final state, what the sinks received, and
      whether the process aborted (after which no call runs). */
  datatype Session = Session(logger: Logger, sinks: Sinks, aborted: bool)

  /** Runs the calls in order, stopping at the first abort. */
  function Run(l: Logger, calls: seq<Call>): Session
    decreases |calls|
  {
    if |calls| == 0 then Session(l, Sinks([], []), false)
    else
      var w := LogWrite(l, calls[0]);
      if w.out.aborted then Session(w.logger, Deliver(w.out), true)
      else
        var rest := Run(w.logger, calls[1..]);
        Session(rest.logger, Join(Deliver(w.out), rest.sinks), rest.aborted)
  }

  /** The file's expected contents, read off the calls alone: the non-empty
      renderings of the calls that pass the filter, in order, up to and
      including the first FATAL one. */
  function ExpectedFileLines(l: Logger, calls: seq<Call>): seq<string>
    decreases |calls|
  {
    if |calls| == 0 then []
    else
      var c := calls[0];
      var text := RenderCall(l, c);
      if !l.IsLogSeverityLevel(c.level) || |text| == 0 then ExpectedFileLines(l, calls[1..])
      else if c.level == Fatal.Code() then [text]
      else [text] + ExpectedFileLines(l, calls[1..])
  }

  /** Writes keep the configuration, so every call of a run is filtered and
      rendered as it would be by the logger the run started with. */
  lemma WriteKeepsRendering(l: Logger, c: Call, d: Call)
    ensures RenderCall(LogWrite(l, c).logger, d) == RenderCall(l, d)
    ensures LogWrite(l, c).logger.IsLogSeverityLevel(d.level) == l.IsLogSeverityLevel(d.level)
  {
  }

  /** With file logging on and a file open, the file receives exactly the
      expected lines. */
  lemma {:induction false} RunFileLines(l: Logger, calls: seq<Call>)
    requires l.logType.WritesFile() && l.FileWritable()
    ensures Run(l, calls).sinks.file == ExpectedFileLines(l, calls)
    decreases |calls|
  {
    if |calls| > 0 {
      var c := calls[0];
      var w := LogWrite(l, c);
      if l.IsLogSeverityLevel(c.level) {
        WriteRouting(l, c);
      }
      AbortPolicy(l, c);
      if !w.out.aborted {
        RunFileLines(w.logger, calls[1..]);
        ExpectedLinesFollowConfiguration(l, w.logger, calls[1..]);
      }
    }
  }

  /** The expected lines depend only on the filter, template, time-stamp
      mode and log type, which writes leave alone. */
  lemma {:induction false} ExpectedLinesFollowConfiguration(l: Logger, l': Logger, calls: seq<Call>)
    requires l'.minLevel == l.minLevel && l'.format == l.format && l'.timeStampMode == l.timeStampMode
    ensures ExpectedFileLines(l', calls) == ExpectedFileLines(l, calls)
    decreases |calls|
  {
    if |calls| > 0 {
      ExpectedLinesFollowConfiguration(l, l', calls[1..]);
    }
  }

  /** A run whose calls are all below FATAL never aborts. */
  lemma {:induction false} NoFatalNoAbort(l: Logger, calls: seq<Call>)
    requires forall i :: 0 <= i < |calls| ==> calls[i].level != Fatal.Code()
    ensures !Run(l, calls).aborted
    decreases |calls|
  {
    if |calls| > 0 {
      AbortPolicy(l, calls[0]);
      NoFatalNoAbort(LogWrite(l, calls[0]).logger, calls[1..]);
    }
  }
}
