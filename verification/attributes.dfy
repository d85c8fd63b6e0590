/** The logging attributes: severity levels and their names, time-stamp modes
    and their rendering, and the log type that selects the sinks.

    Severity levels and time-stamp modes are carried as the integer code of
    the enumeration, because the enumerations are scoped enums whose objects
    can hold any value of the underlying integer type; the named values are
    datatypes with a code and a partial inverse. */
module Attributes {
  import opened Wrappers
  import Decimal

  /** The six named severity levels, least severe first. */
  datatype Severity = Trace | Debug | Info | Warn | Error | Fatal {

    function Code(): (c: int)
      ensures 0 <= c <= 5
    {
      match this
      case Trace => 0
      case Debug => 1
      case Info => 2
      case Warn => 3
      case Error => 4
      case Fatal => 5
    }

    function Name(): string {
      match this
      case Trace => "TRACE"
      case Debug => "DEBUG"
      case Info => "INFO"
      case Warn => "WARN"
      case Error => "ERROR"
      case Fatal => "FATAL"
    }
  }

  /** The named severity a code stands for, if any. */
  function SeverityOf(code: int): (r: Option<Severity>)
    ensures r.Some? <==> 0 <= code <= 5
    ensures r.Some? ==> r.value.Code() == code
  {
    if code == 0 then Some(Trace)
    else if code == 1 then Some(Debug)
    else if code == 2 then Some(Info)
    else if code == 3 then Some(Warn)
    else if code == 4 then Some(Error)
    else if code == 5 then Some(Fatal)
    else None
  }

  /** The severities are totally ordered by their codes, TRACE = 0 lowest and
      FATAL = 5 highest, and no two share a code. */
  lemma SeverityOrder(a: Severity, b: Severity)
    ensures Trace.Code() == 0 && Fatal.Code() == 5
    ensures Trace.Code() < Debug.Code() < Info.Code() < Warn.Code() < Error.Code() < Fatal.Code()
    ensures a.Code() == b.Code() ==> a == b
    ensures SeverityOf(a.Code()) == Some(a)
  {
  }

  /** Reads a rendered severity name back. */
  function ParseSeverityName(name: string): Option<Severity> {
    if name == "TRACE" then Some(Trace)
    else if name == "DEBUG" then Some(Debug)
    else if name == "INFO" then Some(Info)
    else if name == "WARN" then Some(Warn)
    else if name == "ERROR" then Some(Error)
    else if name == "FATAL" then Some(Fatal)
    else None
  }

  /** The text `operator<<` writes for a severity code: the upper-case name
      of a named level and "??" for any other code. */
  function SeverityName(level: int): string {
    match SeverityOf(level)
    case Some(s) => s.Name()
    case None => "??"
  }

  /** Reading a rendered severity back recovers exactly the named level, so
      distinct levels render distinctly and "??" (the text of every other
      code) is never mistaken for a level. */
  lemma SeverityNameRoundTrip(level: int)
    ensures ParseSeverityName(SeverityName(level)) == SeverityOf(level)
    ensures SeverityOf(level).None? <==> SeverityName(level) == "??"
  {
  }

  /** The names the unit tests expect, and "??" for the out-of-range code 6. */
  lemma SeverityNamesAsTested()
    ensures SeverityName(Trace.Code()) == "TRACE"
    ensures SeverityName(Debug.Code()) == "DEBUG"
    ensures SeverityName(Info.Code()) == "INFO"
    ensures SeverityName(Warn.Code()) == "WARN"
    ensures SeverityName(Error.Code()) == "ERROR"
    ensures SeverityName(Fatal.Code()) == "FATAL"
    ensures SeverityName(6) == "??"
  {
  }

  /** The severity operator as written. Its default branch writes "??" and
      then streams the same out-of-range value to the error console with the
      very same operator, so every call opens another call of its own.
      `stack` is the nesting depth the process can still afford; None means
      the call never returns (the stack is exhausted). */
  function SeverityNameAsWritten(level: int, stack: nat): Option<string>
    decreases stack
  {
    if stack == 0 then None
    else
      match SeverityOf(level)
      case Some(s) => Some(s.Name())
      case None =>
        match SeverityNameAsWritten(level, stack - 1)
        case Some(_) => Some("??")
        case None => None
  }

  /** As written, an out-of-range severity never finishes rendering, however
      deep the stack. */
  lemma {:induction false} UnknownSeverityNeverReturns(level: int, stack: nat)
    requires SeverityOf(level).None?
    ensures SeverityNameAsWritten(level, stack) == None
    decreases stack
  {
    if stack > 0 {
      UnknownSeverityNeverReturns(level, stack - 1);
    }
  }

  /** For named levels the operator as written and the corrected one agree. */
  lemma KnownSeverityAsWritten(level: int, stack: nat)
    requires SeverityOf(level).Some? && stack > 0
    ensures SeverityNameAsWritten(level, stack) == Some(SeverityName(level))
  {
  }

  /** The five time-stamp modes. */
  datatype TimeStampMode = NoTimeStamp | EpochSeconds | EpochMilliSeconds | EpochMicroSeconds | DateTime {

    function Code(): (c: int)
      ensures 0 <= c <= 4
    {
      match this
      case NoTimeStamp => 0
      case EpochSeconds => 1
      case EpochMilliSeconds => 2
      case EpochMicroSeconds => 3
      case DateTime => 4
    }
  }

  function TimeStampModeOf(code: int): (r: Option<TimeStampMode>)
    ensures r.Some? <==> 0 <= code <= 4
    ensures r.Some? ==> r.value.Code() == code
  {
    if code == 0 then Some(NoTimeStamp)
    else if code == 1 then Some(EpochSeconds)
    else if code == 2 then Some(EpochMilliSeconds)
    else if code == 3 then Some(EpochMicroSeconds)
    else if code == 4 then Some(DateTime)
    else None
  }

  /** One reading of the wall clock: the time since the epoch in the system
      clock's ticks (nanoseconds), and the text `ctime` gives for it. */
  datatype Clock = Clock(sinceEpochNanos: int, ctimeText: string)

  const NanosPerSecond: int := 1_000_000_000
  const NanosPerMilli: int := 1_000_000
  const NanosPerMicro: int := 1_000

  /** Whole units of `unitNanos` since the epoch, truncated toward zero as
      `duration_cast` does. */
  function EpochCount(clock: Clock, unitNanos: int): int
    requires unitNanos > 0
  {
    Decimal.TruncDiv(clock.sinceEpochNanos, unitNanos)
  }

  /** The `ctime` text without its last character (the line break). */
  function ChopLast(text: string): (r: string)
    ensures |text| > 0 ==> r + [text[|text| - 1]] == text
    ensures |text| == 0 ==> r == ""
  {
    if |text| == 0 then "" else text[..|text| - 1]
  }

  /** The corrected time-stamp text of a mode code: nothing for NONE and for
      codes outside the enumeration, a signed decimal count of seconds,
      milliseconds or microseconds since the epoch, or the `ctime` text
      without its line break. */
  function TimeStamp(mode: int, clock: Clock): (r: string)
    ensures TimeStampModeOf(mode) in {None, Some(NoTimeStamp)} ==> r == ""
    ensures TimeStampModeOf(mode) == Some(EpochSeconds) ==>
      Decimal.ParseInt(r) == Some(EpochCount(clock, NanosPerSecond))
    ensures TimeStampModeOf(mode) == Some(EpochMilliSeconds) ==>
      Decimal.ParseInt(r) == Some(EpochCount(clock, NanosPerMilli))
    ensures TimeStampModeOf(mode) == Some(EpochMicroSeconds) ==>
      Decimal.ParseInt(r) == Some(EpochCount(clock, NanosPerMicro))
    ensures TimeStampModeOf(mode) == Some(DateTime) && |clock.ctimeText| > 0 ==>
      r + [clock.ctimeText[|clock.ctimeText| - 1]] == clock.ctimeText
  {
    match TimeStampModeOf(mode)
    case None => ""
    case Some(NoTimeStamp) => ""
    case Some(EpochSeconds) => EpochText(clock, NanosPerSecond)
    case Some(EpochMilliSeconds) => EpochText(clock, NanosPerMilli)
    case Some(EpochMicroSeconds) => EpochText(clock, NanosPerMicro)
    case Some(DateTime) => ChopLast(clock.ctimeText)
  }

  function EpochText(clock: Clock, unitNanos: int): (r: string)
    requires unitNanos > 0
    ensures Decimal.ParseInt(r) == Some(EpochCount(clock, unitNanos))
  {
    Decimal.IntRoundTrip(EpochCount(clock, unitNanos));
    Decimal.IntToDecimal(EpochCount(clock, unitNanos))
  }

  /** The time-stamp operator as written: EPOCH_MICRO_SECONDS counts
      milliseconds, and the default branch streams the same out-of-range mode
      with the same operator, so it never returns (None once `stack` is
      exhausted). */
  function TimeStampAsWritten(mode: int, clock: Clock, stack: nat): Option<string>
    decreases stack
  {
    if stack == 0 then None
    else
      match TimeStampModeOf(mode)
      case Some(NoTimeStamp) => Some("")
      case Some(EpochSeconds) => Some(EpochText(clock, NanosPerSecond))
      case Some(EpochMilliSeconds) => Some(EpochText(clock, NanosPerMilli))
      case Some(EpochMicroSeconds) => Some(EpochText(clock, NanosPerMilli))
      case Some(DateTime) => Some(ChopLast(clock.ctimeText))
      case None =>
        match TimeStampAsWritten(mode, clock, stack - 1)
        case Some(_) => Some("")
        case None => None
  }

  /** As written, the microsecond mode renders exactly the millisecond digits
      for the same clock reading. */
  lemma MicroRendersMillis(clock: Clock, stack: nat)
    requires stack > 0
    ensures TimeStampAsWritten(EpochMicroSeconds.Code(), clock, stack)
         == TimeStampAsWritten(EpochMilliSeconds.Code(), clock, stack)
    ensures Decimal.ParseInt(TimeStampAsWritten(EpochMicroSeconds.Code(), clock, stack).value)
         == Some(EpochCount(clock, NanosPerMilli))
  {
  }

  /** A reading 1.5 ms after the epoch: as written the microsecond mode
      shows 1, the corrected one shows 1500. */
  lemma MicroDefectExample()
    ensures TimeStampAsWritten(EpochMicroSeconds.Code(), Clock(1_500_000, ""), 1) == Some("1")
    ensures TimeStamp(EpochMicroSeconds.Code(), Clock(1_500_000, "")) == "1500"
  {
    var c := Clock(1_500_000, "");
    assert EpochCount(c, NanosPerMilli) == 1;
    assert EpochCount(c, NanosPerMicro) == 1500;
    assert Decimal.NatToDecimal(150) == "150";
  }

  /** As written, an out-of-range time-stamp mode never finishes rendering. */
  lemma {:induction false} UnknownModeNeverReturns(mode: int, clock: Clock, stack: nat)
    requires TimeStampModeOf(mode).None?
    ensures TimeStampAsWritten(mode, clock, stack) == None
    decreases stack
  {
    if stack > 0 {
      UnknownModeNeverReturns(mode, clock, stack - 1);
    }
  }

  /** Apart from the microsecond mode, the operator as written and the
      corrected one agree on every named mode. */
  lemma KnownModeAsWritten(mode: int, clock: Clock, stack: nat)
    requires TimeStampModeOf(mode).Some? && TimeStampModeOf(mode) != Some(EpochMicroSeconds)
    requires stack > 0
    ensures TimeStampAsWritten(mode, clock, stack) == Some(TimeStamp(mode, clock))
  {
  }

  /** The corrected microsecond count, truncated to milliseconds, is the
      millisecond count: the two modes differ only in resolution. */
  lemma MicrosRefineMillis(clock: Clock)
    ensures Decimal.TruncDiv(EpochCount(clock, NanosPerMicro), 1000) == EpochCount(clock, NanosPerMilli)
  {
    var n := clock.sinceEpochNanos;
    var m := if n >= 0 then n else -n;
    NestedDivision(m, 1000, 1000);
  }

  lemma NestedDivision(n: nat, a: int, b: int)
    requires a > 0 && b > 0
    ensures (n / a) / b == n / (a * b)
  {
    var q := n / a;
    var p := q / b;
    var r := (q % b) * a + n % a;
    assert n == q * a + n % a;
    assert q == p * b + q % b;
    Regroup(p, b, q % b, a);
    RemainderBound(q % b, n % a, a, b);
    DivisionUnique(n, a * b, p, r);
  }

  lemma Regroup(p: int, b: int, r: int, a: int)
    ensures (p * b + r) * a == p * (a * b) + r * a
  {
  }

  lemma RemainderBound(r2: int, r1: int, a: int, b: int)
    requires 0 <= r2 < b && 0 <= r1 < a
    ensures r2 * a + r1 < a * b
  {
    MultiplyMonotone(r2, b - 1, a);
    assert (b - 1) * a == a * b - a;
  }

  lemma DivisionUnique(n: nat, d: int, q: int, r: int)
    requires d > 0 && 0 <= r < d && n == q * d + r
    ensures n / d == q
  {
    var q' := n / d;
    var r' := n % d;
    assert n == q' * d + r';
    if q' < q {
      MultiplyMonotone(q' + 1, q, d);
    } else if q < q' {
      MultiplyMonotone(q + 1, q', d);
    }
  }

  lemma MultiplyMonotone(x: int, y: int, d: int)
    requires x <= y && d > 0
    ensures x * d <= y * d
  {
    var k := y - x;
    assert y * d == x * d + k * d;
  }

  /** NONE renders nothing, as the unit test expects. */
  lemma NoTimeStampIsEmpty(clock: Clock)
    ensures TimeStamp(NoTimeStamp.Code(), clock) == ""
  {
  }

  /** A 25-character `ctime` text (24 characters and the line break) gives a
      24-character date-time stamp, its prefix. */
  lemma DateTimeStampLength(clock: Clock)
    requires |clock.ctimeText| == 25
    ensures |TimeStamp(DateTime.Code(), clock)| == 24
    ensures TimeStamp(DateTime.Code(), clock) == clock.ctimeText[..24]
  {
  }

  /** Which sinks receive rendered lines. */
  datatype LogType = NoLog | ConsoleLog | FileLog | Both {

    predicate WritesFile() {
      this == FileLog || this == Both
    }

    predicate WritesConsole() {
      this == ConsoleLog || this == Both
    }
  }
}
