/** Sessions: one execution of FFmpeg, FFprobe or a media-information probe,
    with its id, its state machine (Created, Running, then Completed or
    Failed), its timestamps, return code, failure text, and the logs and
    statistics delivered to it. */
module Sessions {
  import opened Wrappers
  import opened ReturnCodes
  import opened LogRedirection
  import Arguments
  import Slots

  /** `SessionState`, codes 0 to 3 in declaration order. */
  datatype SessionState = Created | Running | Failed | Completed

  function StateCode(s: SessionState): (c: int)
    ensures 0 <= c <= 3
  {
    match s
    case Created => 0
    case Running => 1
    case Failed => 2
    case Completed => 3
  }

  /** `sessionStateToString` of the C++ binding. */
  function SessionStateToString(s: SessionState): (r: string)
    ensures r != ""
  {
    match s
    case Created => "CREATED"
    case Running => "RUNNING"
    case Failed => "FAILED"
    case Completed => "COMPLETED"
  }

  /** `sessionStateToString` of the React Native binding, on numeric states:
      anything but 0 to 3 is named "". */
  function SessionStateCodeToString(code: int): (r: string)
    ensures r == "" <==> !(0 <= code <= 3)
  {
    if code == 0 then "CREATED"
    else if code == 1 then "RUNNING"
    else if code == 2 then "FAILED"
    else if code == 3 then "COMPLETED"
    else ""
  }

  /** The two bindings name every state alike, and different states differently. */
  lemma StateNamesAgree(s: SessionState, t: SessionState)
    ensures SessionStateCodeToString(StateCode(s)) == SessionStateToString(s)
    ensures SessionStateToString(s) == SessionStateToString(t) ==> s == t
  {
  }

  datatype SessionKind = FFmpegKind | FFprobeKind | MediaInformationKind

  /** A log message as delivered to a session: owner id, level value and text. */
  datatype Log = Log(sessionId: int, level: int, message: string)

  /** A statistics record; only its integer fields are kept. */
  datatype Statistics = Statistics(sessionId: int, videoFrameNumber: int, size: int)

  /** The texts of the logs, concatenated in the order they were added. */
  function LogsText(logs: seq<Log>): string
  {
    if |logs| == 0 then "" else LogsText(logs[..|logs| - 1]) + logs[|logs| - 1].message
  }

  /** Concatenating two runs of logs concatenates their texts. */
  lemma {:induction false} LogsTextAppend(a: seq<Log>, b: seq<Log>)
    ensures LogsText(a + b) == LogsText(a) + LogsText(b)
    decreases |b|
  {
    if |b| == 0 {
      assert a + b == a;
    } else {
      var c := b[..|b| - 1];
      assert (a + b)[..|a + b| - 1] == a + c;
      LogsTextAppend(a, c);
    }
  }

  /** The text of a single log is its message, so every message appears in the
      text, in order. */
  lemma LogsTextSingle(l: Log)
    ensures LogsText([l]) == l.message
  {
    assert [l][..0] == [];
  }

  /** `duration_cast` to milliseconds of a nanosecond difference: division
      truncating toward zero. */
  function NanosToMillis(nanos: int): (ms: int)
    ensures nanos >= 0 ==> 0 <= ms * 1000000 <= nanos < ms * 1000000 + 1000000
    ensures nanos < 0 ==> ms == -((-nanos) / 1000000) && ms <= 0
  {
    if nanos >= 0 then nanos / 1000000 else -((-nanos) / 1000000)
  }

  /** `sessionIdGenerator`: the process-wide counter that hands out session ids from 1. */
  class SessionIdGenerator {
    var next: nat
    ghost var issued: set<nat>

    ghost predicate Valid()
      reads this
    {
      next >= 1 && forall id :: id in issued ==> id < next
    }

    constructor()
      ensures Valid() && next == 1 && issued == {}
    {
      next := 1;
      issued := {};
    }

    /** `sessionIdGenerator++`: the id returned is above every id issued before. */
    method Issue() returns (id: nat)
      requires Valid()
      modifies this
      ensures Valid()
      ensures id == old(next) && next == old(next) + 1
      ensures forall earlier :: earlier in old(issued) ==> earlier < id
      ensures issued == old(issued) + {id}
    {
      id := next;
      next := next + 1;
      issued := issued + {id};
    }
  }

  class Session {
    const sessionId: nat
    const kind: SessionKind
    const arguments: seq<string>
    const hasLogCallback: bool
    const hasStatisticsCallback: bool
    const logRedirectionStrategy: Strategy
    /** Creation time in nanoseconds since the epoch. */
    const createTime: int

    var state: SessionState
    /** Start and end times in nanoseconds since the epoch; 0 means unset. */
    var startTime: int
    var endTime: int
    var returnCode: Option<ReturnCode>
    var failStackTrace: string
    var logs: seq<Log>
    var statistics: seq<Statistics>

    /** The `AbstractSession` constructor (and `FFmpegSession`'s for statistics):
        a fresh id, state Created, no return code, no logs. */
    constructor(generator: SessionIdGenerator, kind: SessionKind, arguments: seq<string>,
                hasLogCallback: bool, hasStatisticsCallback: bool, strategy: Strategy, now: int)
      requires generator.Valid()
      requires hasStatisticsCallback ==> kind == FFmpegKind
      modifies generator
      ensures generator.Valid() && generator.issued == old(generator.issued) + {sessionId}
      ensures forall earlier :: earlier in old(generator.issued) ==> earlier < sessionId
      ensures sessionId == old(generator.next) >= 1
      ensures this.kind == kind && this.arguments == arguments
      ensures this.hasLogCallback == hasLogCallback && this.hasStatisticsCallback == hasStatisticsCallback
      ensures logRedirectionStrategy == strategy && createTime == now
      ensures state == Created && returnCode == None && failStackTrace == ""
      ensures startTime == 0 && endTime == 0
      ensures logs == [] && statistics == []
    {
      var id := generator.Issue();
      sessionId := id;
      this.kind := kind;
      this.arguments := arguments;
      this.hasLogCallback := hasLogCallback;
      this.hasStatisticsCallback := hasStatisticsCallback;
      logRedirectionStrategy := strategy;
      createTime := now;
      state := Created;
      startTime := 0;
      endTime := 0;
      returnCode := None;
      failStackTrace := "";
      logs := [];
      statistics := [];
    }

    predicate IsFFmpeg() { kind == FFmpegKind }
    predicate IsFFprobe() { kind == FFprobeKind }
    predicate IsMediaInformation() { kind == MediaInformationKind }

    /** Every session is of exactly one kind. */
    lemma ExactlyOneKind()
      ensures IsFFmpeg() || IsFFprobe() || IsMediaInformation()
      ensures IsFFmpeg() ==> !IsFFprobe() && !IsMediaInformation()
      ensures IsFFprobe() ==> !IsMediaInformation()
    {
    }

    /** `startRunning`: Running from now on; nothing else changes. */
    method StartRunning(now: int)
      modifies this
      ensures state == Running && startTime == now
      ensures endTime == old(endTime) && returnCode == old(returnCode) && failStackTrace == old(failStackTrace)
      ensures logs == old(logs) && statistics == old(statistics)
    {
      state := Running;
      startTime := now;
    }

    /** `complete`: stores the return code and ends the session, whatever its prior
        state; the failure text is untouched. */
    method Complete(rc: Option<ReturnCode>, now: int)
      modifies this
      ensures state == Completed && returnCode == rc && endTime == now
      ensures startTime == old(startTime) && failStackTrace == old(failStackTrace)
      ensures logs == old(logs) && statistics == old(statistics)
    {
      returnCode := rc;
      state := Completed;
      endTime := now;
    }

    /** `fail`: stores the failure text and ends the session, whatever its prior
        state; the return code is untouched. */
    method Fail(error: string, now: int)
      modifies this
      ensures state == Failed && failStackTrace == error && endTime == now
      ensures startTime == old(startTime) && returnCode == old(returnCode)
      ensures logs == old(logs) && statistics == old(statistics)
    {
      failStackTrace := error;
      state := Failed;
      endTime := now;
    }

    /** Since the old state, at most the logs have changed. */
    twostate predicate OnlyLogsChanged()
      reads this
    {
      && state == old(state) && startTime == old(startTime) && endTime == old(endTime)
      && returnCode == old(returnCode) && failStackTrace == old(failStackTrace)
      && statistics == old(statistics)
    }

    /** Since the old state, at most the statistics have changed. */
    twostate predicate OnlyStatisticsChanged()
      reads this
    {
      && state == old(state) && startTime == old(startTime) && endTime == old(endTime)
      && returnCode == old(returnCode) && failStackTrace == old(failStackTrace)
      && logs == old(logs)
    }

    /** `addLog`: appends, so the logs text grows by exactly this message. */
    method AddLog(log: Log)
      modifies this
      ensures logs == old(logs) + [log]
      ensures LogsText(logs) == old(LogsText(logs)) + log.message
      ensures state == old(state) && statistics == old(statistics) && returnCode == old(returnCode)
      ensures startTime == old(startTime) && endTime == old(endTime) && failStackTrace == old(failStackTrace)
    {
      logs := logs + [log];
      assert logs[..|logs| - 1] == old(logs);
    }

    /** `addStatistics` (FFmpeg sessions only): appends at the end and never touches the logs. */
    method AddStatistics(s: Statistics)
      requires IsFFmpeg()
      modifies this
      ensures statistics == old(statistics) + [s]
      ensures LastReceivedStatistics() == Some(s)
      ensures logs == old(logs) && state == old(state) && returnCode == old(returnCode)
      ensures startTime == old(startTime) && endTime == old(endTime) && failStackTrace == old(failStackTrace)
    {
      statistics := statistics + [s];
    }

    /** `getLastReceivedStatistics`: the newest entry, or none when there is none. */
    function LastReceivedStatistics(): (r: Option<Statistics>)
      reads this
      ensures r.None? <==> |statistics| == 0
      ensures r.Some? ==> r.value == statistics[|statistics| - 1] && r.value in statistics
    {
      if |statistics| > 0 then Some(statistics[|statistics| - 1]) else None
    }

    /** `getLogsAsString`: the messages of all logs, in the order they were added. */
    method GetLogsAsString() returns (text: string)
      ensures text == LogsText(logs)
    {
      text := "";
      var i := 0;
      while i < |logs|
        invariant 0 <= i <= |logs|
        invariant text == LogsText(logs[..i])
      {
        assert logs[..i + 1][..i] == logs[..i];
        text := text + logs[i].message;
        i := i + 1;
      }
      assert logs[..i] == logs;
    }

    /** `getDuration`: 0 unless both start and end are set, otherwise the
        difference truncated to whole milliseconds. */
    function Duration(): (d: int)
      reads this
      ensures startTime == 0 || endTime == 0 ==> d == 0
      ensures startTime != 0 && endTime != 0 && endTime >= startTime ==>
                0 <= d * 1000000 <= endTime - startTime < d * 1000000 + 1000000
      ensures startTime != 0 && endTime != 0 && endTime < startTime ==> d <= 0
    {
      if startTime != 0 && endTime != 0 then NanosToMillis(endTime - startTime) else 0
    }

    /** `getCommand`: the arguments joined by single spaces; arguments free of
        spaces and quotes parse back to themselves. */
    function Command(): (c: string)
      ensures Arguments.PlainWords(arguments) ==> Arguments.Parse(c) == arguments
    {
      if Arguments.PlainWords(arguments) then
        Arguments.ParseJoinRoundTrip(arguments);
        Arguments.Join(arguments)
      else
        Arguments.Join(arguments)
    }

    /** `thereAreAsynchronousMessagesInTransmit`: the session's slot counter is non-zero. */
    predicate MessagesInTransmit(slots: Slots.SessionSlots)
      requires slots.Valid()
      reads slots, slots.inTransit
    {
      slots.MessagesInTransmit(sessionId) != 0
    }

    /** `cancel`: forwards to `FFmpegKit::cancel(sessionId)` only when Running.
        (Generator-issued ids start at 1, so the id-0 case is stated only for
        completeness.) */
    method Cancel(slots: Slots.SessionSlots)
      requires slots.Valid()
      modifies slots, slots.sessionMap
      ensures old(state) == Running && sessionId != 0 ==> slots.CancelRequested(sessionId) && slots.signals == old(slots.signals)
      ensures old(state) == Running && sessionId != 0 ==>
                forall k :: 0 <= k < Slots.SessionMapSize && k != Slots.SlotOf(sessionId) ==> slots.sessionMap[k] == old(slots.sessionMap[k])
      ensures old(state) == Running && sessionId == 0 ==>
                slots.signals == old(slots.signals) + 1 && slots.sessionMap[..] == old(slots.sessionMap[..])
      ensures old(state) != Running ==> slots.signals == old(slots.signals) && slots.sessionMap[..] == old(slots.sessionMap[..])
      ensures state == old(state)
    {
      if state == Running {
        slots.CancelOperation(sessionId);
      }
    }
  }
}
