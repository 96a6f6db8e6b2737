/** The boundary with the vendored FFmpeg engine: the argument vector a
    binding hands to `ffmpeg_execute`, and how the engine turns the outcome of
    a run into its exit code (treated as an external contract). */
module Engine {

  /** `AVERROR_EXIT`, the negated tag 'E' 'X' 'I' 'T'. */
  const AvErrorExit := -0x54495845
  const CancelExitCode := 255
  const ErrorRateExceededExitCode := 69

  /** Program names placed in argv[0]. */
  const FFmpegLibName := "ffmpeg"
  const AndroidLibName := "ffmpeg-kit"

  /** Builds the argument vector: the program name, then the arguments in order. */
  method BuildArgv(libName: string, arguments: seq<string>) returns (argv: seq<string>)
    ensures |argv| == |arguments| + 1
    ensures argv[0] == libName
    ensures argv[1..] == arguments
  {
    argv := [libName];
    var i := 0;
    while i < |arguments|
      invariant 0 <= i <= |arguments|
      invariant argv == [libName] + arguments[..i]
    {
      argv := argv + [arguments[i]];
      i := i + 1;
    }
    assert arguments[..i] == arguments;
  }

  /** How a run of the engine ended before its exit code is mapped. */
  datatype EngineRun =
    | SetupFailed(code: int)                  // option parsing or output checks failed
    | Transcoded(code: int, errorRateExceeded: bool)
    | Aborted(savedCode: int)                 // the engine jumped out of the run

  /** The exit code of `ffmpeg_execute`: a run the engine got to transcode, or
      jumped out of, returns 255 when a signal was received or the session's
      cancellation was requested; a finished run whose error rate was exceeded
      returns 69; AVERROR_EXIT becomes 0 in every case. */
  function ExitCode(run: EngineRun, signalled: bool, cancelRequested: bool): (rc: int)
    ensures !run.SetupFailed? && (signalled || cancelRequested) ==> rc == CancelExitCode
    ensures run.Transcoded? && !signalled && !cancelRequested && run.errorRateExceeded ==> rc == ErrorRateExceededExitCode
    ensures rc != AvErrorExit
  {
    var code :=
      match run
      case SetupFailed(c) => c
      case Transcoded(c, exceeded) =>
        if signalled || cancelRequested then CancelExitCode
        else if exceeded then ErrorRateExceededExitCode
        else c
      case Aborted(saved) =>
        if signalled || cancelRequested then CancelExitCode else saved;
    if code == AvErrorExit then 0 else code
  }

  /** Cancellation is only reported when the engine got past its setup: a run
      that failed while parsing its options keeps that code. */
  lemma SetupFailureNotCancelled(code: int, signalled: bool, cancelRequested: bool)
    requires code != AvErrorExit
    ensures ExitCode(SetupFailed(code), signalled, cancelRequested) == code
  {
  }

  /** `received_nb_signals` as declared: `__thread`, one count per thread
      (a thread that is not in the map has count 0). */
  type ThreadSignals = map<int, nat>

  function SignalCount(counts: ThreadSignals, thread: int): nat
  {
    if thread in counts then counts[thread] else 0
  }

  /** `sigterm_handler` run by `cancel_operation(0)` on the calling thread:
      only that thread's own count grows. */
  function RaiseOn(counts: ThreadSignals, caller: int): (r: ThreadSignals)
    ensures SignalCount(r, caller) == SignalCount(counts, caller) + 1
    ensures forall t :: t != caller ==> SignalCount(r, t) == SignalCount(counts, t)
  {
    counts[caller := SignalCount(counts, caller) + 1]
  }

  /** The engine tests the count of the thread running `ffmpeg_execute`, so a
      signal raised on any other thread does not change the exit code. */
  lemma OtherThreadSignalNotSeen(counts: ThreadSignals, caller: int, engine: int, run: EngineRun, cancelRequested: bool)
    requires caller != engine
    ensures ExitCode(run, SignalCount(RaiseOn(counts, caller), engine) > 0, cancelRequested)
            == ExitCode(run, SignalCount(counts, engine) > 0, cancelRequested)
  {
  }

  /** `cancel()` from a thread other than the engine's, during a run that
      transcodes cleanly with code 0: the run still returns 0, not 255. */
  lemma CancelFromOtherThreadIgnored(caller: int, engine: int)
    requires caller != engine
    ensures ExitCode(Transcoded(0, false), SignalCount(RaiseOn(map[], caller), engine) > 0, false) == 0
  {
  }
}
