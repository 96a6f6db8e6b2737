/** The C++ binding's global state (`FFmpegKitConfig`): the session history,
    the slot table, the callback queue (a list of records), the global
    callbacks and redirection strategy, the active and configured log levels,
    and the id of the session the engine is running. Each operation is one
    atomic step; the callback thread is the `DispatchOne` step. */
module Config {
  import opened Wrappers
  import opened Levels
  import opened LogLines
  import opened LogRedirection
  import opened ReturnCodes
  import opened Sessions
  import opened History
  import opened Slots
  import opened CallbackQueue
  import opened Engine

  /** The bytes of a log line as the `std::string` a log carries. */
  function BytesToText(b: seq<byte>): (t: string)
    ensures |t| == |b|
    ensures forall i :: 0 <= i < |b| ==> t[i] as int == b[i] as int
  {
    seq(|b|, i requires 0 <= i < |b| => b[i] as int as char)
  }

  /** The strategy a kept session imposes on its messages, if it is kept. */
  function SessionStrategy(index: map<int, Session>, id: int): (s: Option<Strategy>)
    ensures s.Some? <==> id in index
  {
    if id in index then Some(index[id].logRedirectionStrategy) else None
  }

  /** Whether a kept session with a log callback exists for the id. */
  predicate SessionCallbackDefined(index: map<int, Session>, id: int)
  {
    id in index && index[id].hasLogCallback
  }

  class KitConfig {
    const history: SessionHistory
    const slots: SessionSlots
    const generator: SessionIdGenerator
    /** `callbackDataList`, oldest record first. */
    var callbackDataList: seq<CallbackData>
    var globalStrategy: Strategy
    var hasGlobalLogCallback: bool
    var hasGlobalStatisticsCallback: bool
    /** The engine's active level (`av_log_get_level`) and the one set by `setLogLevel`. */
    var activeLogLevel: int
    var configuredLogLevel: int
    /** `globalSessionId`: the session whose engine run emits the messages. */
    var globalSessionId: int

    ghost predicate Valid()
      reads this, history, slots, generator
    {
      && history.Valid() && slots.Valid() && generator.Valid()
      && (forall id :: id in history.index ==> id >= 0 && id as nat in generator.issued)
      && globalSessionId >= 0
      && (forall i :: 0 <= i < |callbackDataList| ==> callbackDataList[i].sessionId >= 0)
    }

    /** Every slot counter exceeds the records queued for the slot by the same amount as before. */
    ghost predicate BalanceKept(oldList: seq<CallbackData>, oldCounters: seq<int>)
      requires Valid()
      requires |oldCounters| == SessionMapSize
      requires forall i :: 0 <= i < |oldList| ==> oldList[i].sessionId >= 0
      reads this, history, slots, generator, slots.inTransit
    {
      forall k :: 0 <= k < SessionMapSize ==>
        slots.inTransit[k] - Pending(callbackDataList, k) == oldCounters[k] - Pending(oldList, k)
    }

    /** The state `ffmpegKitInitialize` sets up. */
    constructor()
      ensures Valid() && fresh(history) && fresh(slots) && fresh(generator)
      ensures history.list == [] && history.sessionHistorySize == DefaultSessionHistorySize
      ensures callbackDataList == [] && globalStrategy == DefaultStrategy
      ensures !hasGlobalLogCallback && !hasGlobalStatisticsCallback
      ensures configuredLogLevel == Value(Info) && globalSessionId == 0
    {
      history := new SessionHistory();
      slots := new SessionSlots();
      generator := new SessionIdGenerator();
      callbackDataList := [];
      globalStrategy := DefaultStrategy;
      hasGlobalLogCallback := false;
      hasGlobalStatisticsCallback := false;
      activeLogLevel := Value(Info);
      configuredLogLevel := Value(Info);
      globalSessionId := 0;
    }

    /** `FFmpegSession::create`: a new FFmpeg session, with the global strategy
        unless one is given, added to the history. */
    method CreateFFmpegSession(arguments: seq<string>, hasLogCallback: bool, hasStatisticsCallback: bool,
                               strategy: Option<Strategy>, now: int) returns (session: Session)
      requires Valid()
      modifies history, generator
      ensures Valid() && fresh(session)
      ensures session.kind == FFmpegKind && session.arguments == arguments && session.state == Created
      ensures session.logRedirectionStrategy == EffectiveStrategy(globalStrategy, strategy)
      ensures forall earlier :: earlier in old(generator.issued) ==> earlier < session.sessionId
      ensures history.list == Window(old(history.list) + [session], history.sessionHistorySize)
      ensures history.list[|history.list| - 1] == session && history.index[session.sessionId] == session
      ensures history.sessionHistorySize == old(history.sessionHistorySize)
    {
      session := new Session(generator, FFmpegKind, arguments, hasLogCallback, hasStatisticsCallback,
                             EffectiveStrategy(globalStrategy, strategy), now);
      assert session.sessionId !in history.index;
      history.Add(session);
    }

    /** `logCallbackDataAdd`: queues a log record for the running session and
        counts it in transit. */
    method LogCallbackDataAdd(level: int, data: seq<byte>)
      requires Valid()
      modifies this, slots.inTransit
      ensures Valid()
      ensures callbackDataList == old(callbackDataList) + [LogData(old(globalSessionId), level, data)]
      ensures slots.MessagesInTransmit(globalSessionId) == old(slots.MessagesInTransmit(globalSessionId)) + 1
      ensures BalanceKept(old(callbackDataList), old(slots.inTransit[..]))
      ensures globalSessionId == old(globalSessionId) && activeLogLevel == old(activeLogLevel)
      ensures globalStrategy == old(globalStrategy) && hasGlobalLogCallback == old(hasGlobalLogCallback)
    {
      Push(LogData(globalSessionId, level, data));
    }

    /** `statisticsCallbackDataAdd`: the same for a statistics record. */
    method StatisticsCallbackDataAdd(frameNumber: int, size: int)
      requires Valid()
      modifies this, slots.inTransit
      ensures Valid()
      ensures callbackDataList == old(callbackDataList) + [StatisticsData(old(globalSessionId), frameNumber, size)]
      ensures slots.MessagesInTransmit(globalSessionId) == old(slots.MessagesInTransmit(globalSessionId)) + 1
      ensures BalanceKept(old(callbackDataList), old(slots.inTransit[..]))
      ensures globalSessionId == old(globalSessionId) && activeLogLevel == old(activeLogLevel)
      ensures globalStrategy == old(globalStrategy) && hasGlobalLogCallback == old(hasGlobalLogCallback)
    {
      Push(StatisticsData(globalSessionId, frameNumber, size));
    }

    /** `push_back` followed by the counter increment of the running session. */
    method Push(d: CallbackData)
      requires Valid() && d.sessionId == globalSessionId
      modifies this, slots.inTransit
      ensures Valid()
      ensures callbackDataList == old(callbackDataList) + [d]
      ensures slots.MessagesInTransmit(globalSessionId) == old(slots.MessagesInTransmit(globalSessionId)) + 1
      ensures BalanceKept(old(callbackDataList), old(slots.inTransit[..]))
      ensures globalSessionId == old(globalSessionId) && activeLogLevel == old(activeLogLevel)
      ensures globalStrategy == old(globalStrategy) && hasGlobalLogCallback == old(hasGlobalLogCallback)
    {
      forall k | 0 <= k < SessionMapSize
        ensures Pending(callbackDataList + [d], k) == Pending(callbackDataList, k) + (if SlotOf(d.sessionId) == k then 1 else 0)
      {
        PendingAppend(callbackDataList, d, k);
      }
      callbackDataList := callbackDataList + [d];
      slots.IncrementInTransit(globalSessionId);
    }

    /** `callbackDataRemove`: the oldest record, or none when the list is empty. */
    method CallbackDataRemove() returns (d: Option<CallbackData>)
      requires Valid()
      modifies this
      ensures Valid()
      ensures old(callbackDataList) == [] ==> d.None? && callbackDataList == []
      ensures old(callbackDataList) != [] ==> d == Some(old(callbackDataList[0])) && callbackDataList == old(callbackDataList[1..])
      ensures globalSessionId == old(globalSessionId) && activeLogLevel == old(activeLogLevel)
      ensures globalStrategy == old(globalStrategy) && hasGlobalLogCallback == old(hasGlobalLogCallback)
    {
      if |callbackDataList| > 0 {
        d := Some(callbackDataList[0]);
        callbackDataList := callbackDataList[1..];
      } else {
        d := None;
      }
    }

    /** `ffmpegkit_log_callback_function`: masks the level, drops filtered
        messages, cleans and joins the four parts of the line, and queues the
        line unless it is empty. */
    method LogCallbackFunction(level: int, parts: seq<seq<byte>>)
      requires Valid() && |parts| == 4
      modifies this, slots.inTransit
      ensures Valid()
      ensures Dropped(activeLogLevel, MaskLevel(level)) || |FullLine(parts)| == 0 ==>
                callbackDataList == old(callbackDataList) && slots.inTransit[..] == old(slots.inTransit[..])
      ensures !Dropped(activeLogLevel, MaskLevel(level)) && |FullLine(parts)| > 0 ==>
                callbackDataList == old(callbackDataList) + [LogData(globalSessionId, MaskLevel(level), FullLine(parts))]
      ensures BalanceKept(old(callbackDataList), old(slots.inTransit[..]))
      ensures globalSessionId == old(globalSessionId) && activeLogLevel == old(activeLogLevel)
    {
      var masked := MaskLevel(level);
      if Dropped(activeLogLevel, masked) {
        return;
      }
      var line := FullLine(parts);
      if |line| > 0 {
        LogCallbackDataAdd(masked, line);
      }
    }

    /** `process_log`: filters the message, appends it to its session when the
        session is kept (whose strategy then replaces the global one), and
        returns the line printed to standard output, if any. */
    method ProcessLog(sessionId: int, level: int, message: seq<byte>) returns (printed: Option<string>)
      requires Valid()
      modifies history.index.Values
      ensures Valid()
      ensures printed == CppPrintedLine(activeLogLevel, level,
                                        EffectiveStrategy(globalStrategy, SessionStrategy(history.index, sessionId)),
                                        hasGlobalLogCallback, SessionCallbackDefined(history.index, sessionId),
                                        BytesToText(message))
      ensures !Dropped(activeLogLevel, level) && sessionId in history.index ==>
                history.index[sessionId].logs == old(history.index[sessionId].logs) + [Log(sessionId, level, BytesToText(message))]
      ensures Dropped(activeLogLevel, level) || sessionId !in history.index ==>
                forall s :: s in history.index.Values ==> unchanged(s)
      ensures sessionId in history.index ==> history.index[sessionId].OnlyLogsChanged()
      ensures forall s :: s in history.index.Values && s.sessionId != sessionId ==> unchanged(s)
    {
      if Dropped(activeLogLevel, level) {
        return None;
      }
      var text := BytesToText(message);
      var strategy := globalStrategy;
      var sessionDefined := false;
      var found := history.GetSession(sessionId);
      if found.Some? {
        var session := found.value;
        assert session == history.index[sessionId];
        strategy := session.logRedirectionStrategy;
        session.AddLog(Log(sessionId, level, text));
        sessionDefined := session.hasLogCallback;
      }
      var globalDefined := hasGlobalLogCallback;
      if !ShouldPrint(strategy, globalDefined, sessionDefined) {
        return None;
      }
      if level == QuietValue {
        return None;
      }
      return Some(LogLevelToString(level) + ": " + text);
    }

    /** `process_statistics`: a kept FFmpeg session receives the record. */
    method ProcessStatistics(sessionId: int, frameNumber: int, size: int)
      requires Valid()
      modifies history.index.Values
      ensures Valid()
      ensures sessionId in history.index && history.index[sessionId].IsFFmpeg() ==>
                history.index[sessionId].statistics == old(history.index[sessionId].statistics) + [Statistics(sessionId, frameNumber, size)]
                && history.index[sessionId].logs == old(history.index[sessionId].logs)
      ensures sessionId !in history.index || !history.index[sessionId].IsFFmpeg() ==>
                forall s :: s in history.index.Values ==> unchanged(s)
      ensures sessionId in history.index ==> history.index[sessionId].OnlyStatisticsChanged()
      ensures forall s :: s in history.index.Values && s.sessionId != sessionId ==> unchanged(s)
    {
      var found := history.GetSession(sessionId);
      if found.Some? && found.value.IsFFmpeg() {
        assert found.value == history.index[sessionId];
        found.value.AddStatistics(Statistics(sessionId, frameNumber, size));
      }
    }

    /** One turn of `callbackThreadFunction`: takes the oldest record, delivers
        it, and decrements its session's counter; returns the printed line. */
    method DispatchOne() returns (printed: Option<string>)
      requires Valid()
      modifies this, history.index.Values, slots.inTransit
      ensures Valid()
      ensures old(callbackDataList) == [] ==> printed.None? && callbackDataList == [] && slots.inTransit[..] == old(slots.inTransit[..])
      ensures old(callbackDataList) != [] ==> callbackDataList == old(callbackDataList[1..])
      ensures old(callbackDataList) != [] ==>
                slots.MessagesInTransmit(old(callbackDataList[0]).sessionId) == old(slots.MessagesInTransmit(callbackDataList[0].sessionId)) - 1
      ensures BalanceKept(old(callbackDataList), old(slots.inTransit[..]))
      ensures old(callbackDataList) != [] && old(callbackDataList[0]).StatisticsData? ==> printed.None?
      ensures old(callbackDataList) != [] && old(callbackDataList[0]).LogData? ==>
                var d := old(callbackDataList[0]);
                && printed == CppPrintedLine(activeLogLevel, d.level,
                                             EffectiveStrategy(globalStrategy, SessionStrategy(history.index, d.sessionId)),
                                             hasGlobalLogCallback, SessionCallbackDefined(history.index, d.sessionId),
                                             BytesToText(d.message))
                && (!Dropped(activeLogLevel, d.level) && d.sessionId in history.index ==>
                      history.index[d.sessionId].logs == old(history.index[d.sessionId].logs) + [Log(d.sessionId, d.level, BytesToText(d.message))])
                && (Dropped(activeLogLevel, d.level) || d.sessionId !in history.index ==>
                      forall s :: s in history.index.Values ==> unchanged(s))
                && (d.sessionId in history.index ==> history.index[d.sessionId].OnlyLogsChanged())
      ensures old(callbackDataList) != [] && old(callbackDataList[0]).StatisticsData? ==>
                var d := old(callbackDataList[0]);
                && (d.sessionId in history.index && history.index[d.sessionId].IsFFmpeg() ==>
                      history.index[d.sessionId].statistics == old(history.index[d.sessionId].statistics) + [Statistics(d.sessionId, d.frameNumber, d.size)]
                      && history.index[d.sessionId].logs == old(history.index[d.sessionId].logs))
                && (d.sessionId !in history.index || !history.index[d.sessionId].IsFFmpeg() ==>
                      forall s :: s in history.index.Values ==> unchanged(s))
                && (d.sessionId in history.index ==> history.index[d.sessionId].OnlyStatisticsChanged())
      ensures old(callbackDataList) == [] ==> forall s :: s in history.index.Values ==> unchanged(s)
      ensures old(callbackDataList) != [] ==>
                forall s :: s in history.index.Values && s.sessionId != old(callbackDataList[0]).sessionId ==> unchanged(s)
      ensures globalSessionId == old(globalSessionId) && activeLogLevel == old(activeLogLevel)
      ensures globalStrategy == old(globalStrategy) && hasGlobalLogCallback == old(hasGlobalLogCallback)
    {
      ghost var counters := slots.inTransit[..];
      ghost var list := callbackDataList;
      var d := CallbackDataRemove();
      printed := None;
      if d.Some? {
        var data := d.value;
        match data {
          case LogData(id, level, message) =>
            printed := ProcessLog(id, level, message);
          case StatisticsData(id, frameNumber, size) =>
            ProcessStatistics(id, frameNumber, size);
        }
        slots.DecrementInTransit(data.sessionId);
      }
    }

    /** `FFmpegKit::cancel()`: id 0, an interrupt for every run. */
    method CancelAll()
      requires Valid()
      modifies slots, slots.sessionMap
      ensures Valid()
      ensures slots.signals == old(slots.signals) + 1 && slots.sessionMap[..] == old(slots.sessionMap[..])
    {
      slots.CancelOperation(0);
    }

    /** `cancel()` while the engine runs the session, with the signal count
        shared by the caller and the engine: a run past its setup ends with 255,
        and one that failed its setup keeps its code. */
    method CancelAllDuringRun(session: Session, run: EngineRun) returns (rc: int)
      requires Valid()
      modifies this, slots, slots.sessionMap, slots.inTransit
      ensures Valid()
      ensures !run.SetupFailed? ==> rc == CancelExitCode
      ensures run.SetupFailed? && run.code != AvErrorExit ==> rc == run.code
      ensures slots.sessionMap[SlotOf(session.sessionId)] == Idle
    {
      var argv := ExecuteBegin(session);
      CancelAll();
      rc := ExecuteEnd(run);
    }

    /** `FFmpegKit::cancel(sessionId)`. */
    method Cancel(sessionId: int)
      requires Valid() && sessionId >= 0
      modifies slots, slots.sessionMap
      ensures Valid()
      ensures sessionId != 0 ==> slots.CancelRequested(sessionId) && slots.signals == old(slots.signals)
      ensures sessionId != 0 ==> forall k :: 0 <= k < SessionMapSize && k != SlotOf(sessionId) ==> slots.sessionMap[k] == old(slots.sessionMap[k])
      ensures sessionId == 0 ==> slots.signals == old(slots.signals) + 1 && slots.sessionMap[..] == old(slots.sessionMap[..])
    {
      slots.CancelOperation(sessionId);
    }

    /** The part of `executeFFmpeg` before the engine runs: resets the active
        level, builds argv, makes the session the running one, marks its slot
        active and zeroes its counter (the engine then clears its signal count). */
    method ExecuteBegin(session: Session) returns (argv: seq<string>)
      requires Valid()
      modifies this, slots, slots.sessionMap, slots.inTransit
      ensures Valid()
      ensures argv == [FFmpegLibName] + session.arguments
      ensures activeLogLevel == configuredLogLevel && globalSessionId == session.sessionId
      ensures slots.sessionMap[SlotOf(session.sessionId)] == Active && !slots.CancelRequested(session.sessionId)
      ensures slots.MessagesInTransmit(session.sessionId) == 0 && slots.signals == 0
      ensures forall k :: 0 <= k < SessionMapSize && k != SlotOf(session.sessionId) ==>
                slots.sessionMap[k] == old(slots.sessionMap[k]) && slots.inTransit[k] == old(slots.inTransit[k])
      ensures callbackDataList == old(callbackDataList) && configuredLogLevel == old(configuredLogLevel)
      ensures globalStrategy == old(globalStrategy) && hasGlobalLogCallback == old(hasGlobalLogCallback)
      ensures hasGlobalStatisticsCallback == old(hasGlobalStatisticsCallback)
    {
      activeLogLevel := configuredLogLevel;
      argv := BuildArgv(FFmpegLibName, session.arguments);
      assert argv == [argv[0]] + argv[1..];
      globalSessionId := session.sessionId;
      slots.RegisterSessionId(session.sessionId);
      slots.ResetMessagesInTransmit(session.sessionId);
      slots.signals := 0;
    }

    /** The part of `executeFFmpeg` after the engine returns: the exit code is
        255 if the run was interrupted or cancelled meanwhile, and the slot is
        marked idle. */
    method ExecuteEnd(run: EngineRun) returns (rc: int)
      requires Valid()
      modifies slots.sessionMap
      ensures Valid()
      ensures rc == ExitCode(run, old(slots.signals) > 0, old(slots.CancelRequested(globalSessionId)))
      ensures !run.SetupFailed? && old(slots.CancelRequested(globalSessionId)) ==> rc == CancelExitCode
      ensures slots.sessionMap[SlotOf(globalSessionId)] == Idle && !slots.CancelRequested(globalSessionId)
      ensures forall k :: 0 <= k < SessionMapSize && k != SlotOf(globalSessionId) ==> slots.sessionMap[k] == old(slots.sessionMap[k])
    {
      rc := ExitCode(run, slots.signals > 0, slots.CancelRequested(globalSessionId));
      slots.RemoveSession(globalSessionId);
    }

    /** `ffmpegExecute`: runs the session, which ends Completed with the exit
        code, or Failed with the exception text when the engine call throws
        (`run` is none); an exception skips the slot's release. */
    method FFmpegExecute(session: Session, run: Option<EngineRun>, error: string, startNow: int, endNow: int)
      requires Valid()
      modifies this, slots, slots.sessionMap, slots.inTransit, session
      ensures Valid()
      ensures session.startTime == startNow && session.endTime == endNow
      ensures run.Some? ==> session.state == Completed
                            && session.returnCode == Some(ReturnCode(ExitCode(run.value, false, false)))
                            && !slots.CancelRequested(session.sessionId)
      ensures run.None? ==> session.state == Failed && session.failStackTrace == error
                            && slots.sessionMap[SlotOf(session.sessionId)] == Active
      ensures run.Some? ==> session.failStackTrace == old(session.failStackTrace)
      ensures run.None? ==> session.returnCode == old(session.returnCode)
      ensures session.logs == old(session.logs) && session.statistics == old(session.statistics)
      ensures forall k :: 0 <= k < SessionMapSize && k != SlotOf(session.sessionId) ==>
                slots.sessionMap[k] == old(slots.sessionMap[k]) && slots.inTransit[k] == old(slots.inTransit[k])
    {
      session.StartRunning(startNow);
      var argv := ExecuteBegin(session);
      if run.Some? {
        var rc := ExecuteEnd(run.value);
        session.Complete(Some(ReturnCode(rc)), endNow);
      } else {
        session.Fail(error, endNow);
      }
    }
  }
}
