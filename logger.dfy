/** The application logger of `src/lib/logger.ts`: an in-memory buffer of
    the most recent log events, capped at 1000 entries, with level
    filtering and clearing. Console output and the browser-storage copy of
    error events are not part of this model. */
module Logging {
  import opened Common
  import opened Domain

  datatype LogLevel = Info | Warning | Error | Debug

  /** One event. `timestamp` is the ISO text of the instant it was logged. */
  datatype LogEvent = LogEvent(timestamp: string, level: LogLevel, message: string, details: Option<Json>)

  /** `maxLogSize`. */
  const MaxLogSize: nat := 1000

  /** The buffer after `push(e)` followed by one `shift()` when the buffer
      has grown beyond the cap. */
  function Pushed(logs: seq<LogEvent>, e: LogEvent): seq<LogEvent>
  {
    var s := logs + [e];
    if |s| > MaxLogSize then s[1..] else s
  }

  function OfLevel(level: LogLevel): LogEvent -> bool
  {
    (e: LogEvent) => e.level == level
  }

  /** Pushing keeps the buffer within the cap, puts the new event last, and
      on overflow drops exactly the oldest entry, keeping the rest in order. */
  lemma PushedFacts(logs: seq<LogEvent>, e: LogEvent)
    requires |logs| <= MaxLogSize
    ensures |Pushed(logs, e)| <= MaxLogSize
    ensures Pushed(logs, e)[|Pushed(logs, e)| - 1] == e
    ensures |logs| < MaxLogSize ==> Pushed(logs, e) == logs + [e]
    ensures |logs| == MaxLogSize ==> Pushed(logs, e) == logs[1..] + [e]
  {
    if |logs| == MaxLogSize {
      assert (logs + [e])[1..] == logs[1..] + [e];
    }
  }

  /** Level filtering after a push: the earlier matches (minus the dropped
      oldest entry) keep their order and the new event follows iff it has
      that level. */
  lemma PushedByLevel(logs: seq<LogEvent>, e: LogEvent, level: LogLevel)
    requires |logs| <= MaxLogSize
    ensures var kept := if |logs| == MaxLogSize then logs[1..] else logs;
      Filter(Pushed(logs, e), OfLevel(level)) ==
        Filter(kept, OfLevel(level)) + (if e.level == level then [e] else [])
  {
    PushedFacts(logs, e);
    var kept := if |logs| == MaxLogSize then logs[1..] else logs;
    FilterConcat(kept, [e], OfLevel(level));
    assert Filter([e], OfLevel(level)) == (if e.level == level then [e] else []) by {
      assert [e][1..] == [];
    }
  }

  class Logger {
    var logs: seq<LogEvent>

    ghost predicate Valid()
      reads this
    {
      |logs| <= MaxLogSize
    }

    constructor ()
      ensures Valid() && logs == []
    {
      logs := [];
    }

    /** `log(level, message, details)`; `timestamp` stands for
        `new Date().toISOString()`. */
    method Log(level: LogLevel, message: string, details: Option<Json>, timestamp: string)
      requires Valid()
      modifies this
      ensures Valid()
      ensures logs == Pushed(old(logs), LogEvent(timestamp, level, message, details))
    {
      var e := LogEvent(timestamp, level, message, details);
      logs := logs + [e];
      if |logs| > MaxLogSize {
        logs := logs[1..];
      }
    }

    method LogInfo(message: string, details: Option<Json>, timestamp: string)
      requires Valid()
      modifies this
      ensures Valid()
      ensures logs == Pushed(old(logs), LogEvent(timestamp, Info, message, details))
    {
      Log(Info, message, details, timestamp);
    }

    method LogWarning(message: string, details: Option<Json>, timestamp: string)
      requires Valid()
      modifies this
      ensures Valid()
      ensures logs == Pushed(old(logs), LogEvent(timestamp, Warning, message, details))
    {
      Log(Warning, message, details, timestamp);
    }

    method LogError(message: string, details: Option<Json>, timestamp: string)
      requires Valid()
      modifies this
      ensures Valid()
      ensures logs == Pushed(old(logs), LogEvent(timestamp, Error, message, details))
    {
      Log(Error, message, details, timestamp);
    }

    method LogDebug(message: string, details: Option<Json>, timestamp: string)
      requires Valid()
      modifies this
      ensures Valid()
      ensures logs == Pushed(old(logs), LogEvent(timestamp, Debug, message, details))
    {
      Log(Debug, message, details, timestamp);
    }

    /** `getLogs()`: a copy of the buffer; the logger is left as it was. */
    method GetLogs() returns (r: seq<LogEvent>)
      ensures r == logs
    {
      r := logs;
    }

    /** `getLogsByLevel(level)`: exactly the buffered events of that level,
        in buffer order. */
    function GetLogsByLevel(level: LogLevel): (r: seq<LogEvent>)
      reads this
      ensures r == Filter(logs, OfLevel(level))
      ensures forall e :: e in r <==> e in logs && e.level == level
      ensures |r| <= |logs|
    {
      FilterMembership(logs, OfLevel(level));
      Filter(logs, OfLevel(level))
    }

    /** `getErrorLogs()`. */
    function GetErrorLogs(): (r: seq<LogEvent>)
      reads this
      ensures r == Filter(logs, OfLevel(Error))
      ensures forall e :: e in r <==> e in logs && e.level == Error
    {
      GetLogsByLevel(Error)
    }

    /** `clearLogs()`. */
    method ClearLogs()
      modifies this
      ensures Valid() && logs == []
    {
      logs := [];
    }
  }
}
