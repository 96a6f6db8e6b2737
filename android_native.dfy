/** The Android native binding's global state (`ffmpegkit.c`): the linked
    callback queue, the slot table and its in-transit counters, the id of the
    session the engine is running, and the active and configured log levels.
    Each operation is one atomic step; the callback thread is `DispatchOne`. */
module AndroidNative {
  import opened Wrappers
  import opened LogLines
  import opened LogRedirection
  import opened Slots
  import opened CallbackQueue
  import opened Engine

  class NativeKit {
    const queue: LinkedCallbackQueue
    const slots: SessionSlots
    /** `globalSessionId`. */
    var globalSessionId: int
    /** `av_log_get_level()` and `configuredLogLevel`. */
    var activeLogLevel: int
    var configuredLogLevel: int

    ghost predicate Valid()
      reads this, queue, queue.Repr, slots
    {
      && queue.Valid() && slots.Valid()
      && this !in queue.Repr && slots !in queue.Repr && slots.sessionMap !in queue.Repr && slots.inTransit !in queue.Repr
      && globalSessionId >= 0
      && (forall i :: 0 <= i < |queue.Contents| ==> queue.Contents[i].sessionId >= 0)
    }

    /** Every slot counter exceeds the records queued for the slot by the same amount as before. */
    ghost predicate BalanceKept(oldContents: seq<CallbackData>, oldCounters: seq<int>)
      requires Valid()
      requires |oldCounters| == SessionMapSize
      requires forall i :: 0 <= i < |oldContents| ==> oldContents[i].sessionId >= 0
      reads this, queue, queue.Repr, slots, slots.inTransit
    {
      forall k :: 0 <= k < SessionMapSize ==>
        slots.inTransit[k] - Pending(queue.Contents, k) == oldCounters[k] - Pending(oldContents, k)
    }

    /** The state at library load: an empty queue, idle slots, zero counters. */
    constructor(configuredLogLevel: int)
      ensures Valid() && fresh(queue) && fresh(slots)
      ensures queue.Contents == [] && queue.head == null && queue.tail == null
      ensures forall k :: 0 <= k < SessionMapSize ==> slots.sessionMap[k] == Idle && slots.inTransit[k] == 0
      ensures globalSessionId == 0 && this.configuredLogLevel == configuredLogLevel
    {
      queue := new LinkedCallbackQueue();
      slots := new SessionSlots();
      globalSessionId := 0;
      activeLogLevel := configuredLogLevel;
      this.configuredLogLevel := configuredLogLevel;
    }

    /** The tail insertion followed by the counter increment of the running session. */
    method Push(d: CallbackData)
      requires Valid() && d.sessionId == globalSessionId
      modifies queue.Repr, slots.inTransit
      ensures Valid() && fresh(queue.Repr - old(queue.Repr))
      ensures queue.Contents == old(queue.Contents) + [d]
      ensures queue.tail != null && queue.tail.data == d && queue.tail.next == null && queue.head != null
      ensures slots.MessagesInTransmit(globalSessionId) == old(slots.MessagesInTransmit(globalSessionId)) + 1
      ensures BalanceKept(old(queue.Contents), old(slots.inTransit[..]))
    {
      forall k | 0 <= k < SessionMapSize
        ensures Pending(queue.Contents + [d], k) == Pending(queue.Contents, k) + (if SlotOf(d.sessionId) == k then 1 else 0)
      {
        PendingAppend(queue.Contents, d, k);
      }
      queue.Enqueue(d);
      slots.IncrementInTransit(globalSessionId);
    }

    /** `logCallbackDataAdd`. */
    method LogCallbackDataAdd(level: int, data: seq<byte>)
      requires Valid()
      modifies queue.Repr, slots.inTransit
      ensures Valid() && fresh(queue.Repr - old(queue.Repr))
      ensures queue.Contents == old(queue.Contents) + [LogData(globalSessionId, level, data)]
      ensures queue.tail != null && queue.tail.data == LogData(globalSessionId, level, data) && queue.tail.next == null
      ensures slots.MessagesInTransmit(globalSessionId) == old(slots.MessagesInTransmit(globalSessionId)) + 1
      ensures BalanceKept(old(queue.Contents), old(slots.inTransit[..]))
    {
      Push(LogData(globalSessionId, level, data));
    }

    /** `statisticsCallbackDataAdd`. */
    method StatisticsCallbackDataAdd(frameNumber: int, size: int)
      requires Valid()
      modifies queue.Repr, slots.inTransit
      ensures Valid() && fresh(queue.Repr - old(queue.Repr))
      ensures queue.Contents == old(queue.Contents) + [StatisticsData(globalSessionId, frameNumber, size)]
      ensures queue.tail != null && queue.tail.data == StatisticsData(globalSessionId, frameNumber, size) && queue.tail.next == null
      ensures slots.MessagesInTransmit(globalSessionId) == old(slots.MessagesInTransmit(globalSessionId)) + 1
      ensures BalanceKept(old(queue.Contents), old(slots.inTransit[..]))
    {
      Push(StatisticsData(globalSessionId, frameNumber, size));
    }

    /** `ffmpegkit_log_callback_function`: masks the level, drops filtered
        messages, cleans and joins the four parts of the line (bytes are read
        unsigned here), and queues the line unless it is empty. */
    method LogCallbackFunction(level: int, parts: seq<seq<byte>>)
      requires Valid() && |parts| == 4
      modifies queue.Repr, slots.inTransit
      ensures Valid() && fresh(queue.Repr - old(queue.Repr))
      ensures Dropped(activeLogLevel, MaskLevel(level)) || |FullLine(parts)| == 0 ==>
                queue.Contents == old(queue.Contents) && slots.inTransit[..] == old(slots.inTransit[..])
      ensures !Dropped(activeLogLevel, MaskLevel(level)) && |FullLine(parts)| > 0 ==>
                queue.Contents == old(queue.Contents) + [LogData(globalSessionId, MaskLevel(level), FullLine(parts))]
      ensures BalanceKept(old(queue.Contents), old(slots.inTransit[..]))
    {
      var masked := MaskLevel(level);
      if Dropped(activeLogLevel, masked) {
        return;
      }
      var line := FullLine(parts);
      if |line| > 0 {
        LogCallbackDataAdd(masked, line);
      }
    }

    /** One turn of `callbackThreadFunction`: detaches the head record, hands
        it to the Java side (returned here), and decrements its session's counter. */
    method DispatchOne() returns (forwarded: Option<CallbackData>)
      requires Valid()
      modifies queue, slots.inTransit
      ensures Valid() && queue.Repr <= old(queue.Repr)
      ensures old(queue.Contents) == [] ==> forwarded.None? && queue.Contents == [] && slots.inTransit[..] == old(slots.inTransit[..])
      ensures old(queue.Contents) != [] ==> forwarded == Some(old(queue.Contents[0])) && queue.Contents == old(queue.Contents[1..])
      ensures old(queue.Contents) != [] ==>
                slots.MessagesInTransmit(old(queue.Contents[0]).sessionId) == old(slots.MessagesInTransmit(queue.Contents[0].sessionId)) - 1
      ensures BalanceKept(old(queue.Contents), old(slots.inTransit[..]))
    {
      var n := queue.Remove();
      if n == null {
        forwarded := None;
      } else {
        forwarded := Some(n.data);
        slots.DecrementInTransit(n.data.sessionId);
      }
    }

    /** `nativeFFmpegCancel`: `cancel_operation` on the id. */
    method Cancel(id: int)
      requires Valid() && id >= 0
      modifies slots, slots.sessionMap
      ensures Valid()
      ensures id != 0 ==> slots.CancelRequested(id) && slots.signals == old(slots.signals)
      ensures id != 0 ==> forall k :: 0 <= k < SessionMapSize && k != SlotOf(id) ==> slots.sessionMap[k] == old(slots.sessionMap[k])
      ensures id == 0 ==> slots.signals == old(slots.signals) + 1 && slots.sessionMap[..] == old(slots.sessionMap[..])
    {
      slots.CancelOperation(id);
    }

    /** The part of `nativeFFmpegExecute` before the engine runs: resets the
        active level, builds argv (just the program name for a null array),
        makes the id the running one, marks its slot active and zeroes its
        counter (the engine then clears its signal count). */
    method NativeExecuteBegin(id: int, arguments: Option<seq<string>>) returns (argv: seq<string>)
      requires Valid() && id >= 0
      modifies this, slots, slots.sessionMap, slots.inTransit
      ensures Valid()
      ensures arguments.None? ==> argv == [AndroidLibName]
      ensures arguments.Some? ==> argv == [AndroidLibName] + arguments.value
      ensures activeLogLevel == configuredLogLevel && globalSessionId == id
      ensures slots.sessionMap[SlotOf(id)] == Active && !slots.CancelRequested(id)
      ensures slots.MessagesInTransmit(id) == 0 && slots.signals == 0
      ensures forall k :: 0 <= k < SessionMapSize && k != SlotOf(id) ==>
                slots.sessionMap[k] == old(slots.sessionMap[k]) && slots.inTransit[k] == old(slots.inTransit[k])
      ensures queue.Contents == old(queue.Contents) && configuredLogLevel == old(configuredLogLevel)
    {
      activeLogLevel := configuredLogLevel;
      if arguments.Some? {
        argv := BuildArgv(AndroidLibName, arguments.value);
        assert argv == [argv[0]] + argv[1..];
      } else {
        argv := [AndroidLibName];
      }
      globalSessionId := id;
      slots.Store(id, Active);
      slots.ResetMessagesInTransmit(globalSessionId);
      slots.signals := 0;
    }

    /** The part of `nativeFFmpegExecute` after the engine returns: the exit
        code is 255 if the run was interrupted or its cancellation requested
        meanwhile, and the id's slot is always marked idle. */
    method NativeExecuteEnd(id: int, run: EngineRun) returns (rc: int)
      requires Valid() && id >= 0
      modifies slots.sessionMap
      ensures Valid()
      ensures rc == ExitCode(run, old(slots.signals) > 0, old(slots.CancelRequested(globalSessionId)))
      ensures slots.sessionMap[SlotOf(id)] == Idle && !slots.CancelRequested(id)
      ensures forall k :: 0 <= k < SessionMapSize && k != SlotOf(id) ==> slots.sessionMap[k] == old(slots.sessionMap[k])
      ensures queue.Contents == old(queue.Contents)
    {
      rc := ExitCode(run, slots.signals > 0, slots.CancelRequested(globalSessionId));
      slots.RemoveSession(id);
    }
  }
}
