/** What happens to one log message once it reaches a binding: the level
    filter that decides whether it is forwarded at all, the redirection
    strategy that decides whether it is also printed, and the printed form in
    the C++, Android and React Native bindings. */
module LogRedirection {
  import opened Wrappers
  import opened Levels

  /** `LogRedirectionStrategy`, codes 0 to 4 in declaration order. */
  datatype Strategy =
    | AlwaysPrintLogs
    | PrintLogsWhenNoCallbacksDefined
    | PrintLogsWhenGlobalCallbackNotDefined
    | PrintLogsWhenSessionCallbackNotDefined
    | NeverPrintLogs

  const DefaultStrategy := PrintLogsWhenNoCallbacksDefined

  /** The numeric code of a strategy; looking it up again gives the strategy back. */
  function Code(s: Strategy): (c: int)
    ensures 0 <= c <= 4
    ensures StrategyFrom(c) == Some(s)
  {
    match s
    case AlwaysPrintLogs => 0
    case PrintLogsWhenNoCallbacksDefined => 1
    case PrintLogsWhenGlobalCallbackNotDefined => 2
    case PrintLogsWhenSessionCallbackNotDefined => 3
    case NeverPrintLogs => 4
  }

  /** The strategy carrying a numeric code, if any. */
  function StrategyFrom(c: int): (s: Option<Strategy>)
    ensures s.Some? <==> 0 <= c <= 4
  {
    if c == 0 then Some(AlwaysPrintLogs)
    else if c == 1 then Some(PrintLogsWhenNoCallbacksDefined)
    else if c == 2 then Some(PrintLogsWhenGlobalCallbackNotDefined)
    else if c == 3 then Some(PrintLogsWhenSessionCallbackNotDefined)
    else if c == 4 then Some(NeverPrintLogs)
    else None
  }

  /** The level filter every binding applies first: a message is neither
      forwarded nor printed when the active level is QUIET and the message is
      not a STDERR one, or when its level is above the active level. */
  predicate Dropped(active: int, level: int)
  {
    (active == QuietValue && level != StderrValue) || level > active
  }

  /** With the active level QUIET, everything except STDERR output is dropped. */
  lemma QuietDropsAllButStderr(level: int)
    ensures Dropped(QuietValue, level) <==> level != StderrValue
  {
  }

  /** STDERR output passes the filter whatever the active level (from STDERR up). */
  lemma StderrAlwaysForwarded(active: int)
    requires active >= StderrValue
    ensures !Dropped(active, StderrValue)
  {
  }

  /** Outside QUIET a message passes exactly when its level is at most the
      active one, so raising the active level never drops more. */
  lemma FilterMonotone(active1: int, active2: int, level: int)
    requires active1 != QuietValue && active2 != QuietValue
    requires active1 <= active2
    ensures !Dropped(active1, level) <==> level <= active1
    ensures !Dropped(active1, level) ==> !Dropped(active2, level)
  {
  }

  /** The strategy switch: whether a forwarded message is also printed, given
      whether a global and a session callback were found. */
  function ShouldPrint(s: Strategy, globalDefined: bool, sessionDefined: bool): (b: bool)
  {
    match s
    case NeverPrintLogs => false
    case PrintLogsWhenGlobalCallbackNotDefined => !globalDefined
    case PrintLogsWhenSessionCallbackNotDefined => !sessionDefined
    case PrintLogsWhenNoCallbacksDefined => !globalDefined && !sessionDefined
    case AlwaysPrintLogs => true
  }

  /** Defining a callback never turns printing on, and without any callback
      every strategy but NeverPrintLogs prints. */
  lemma CallbacksOnlySuppress(s: Strategy, g: bool, d: bool)
    ensures ShouldPrint(s, true, d) ==> ShouldPrint(s, false, d)
    ensures ShouldPrint(s, g, true) ==> ShouldPrint(s, g, false)
    ensures ShouldPrint(s, false, false) <==> s != NeverPrintLogs
  {
  }

  /** The two extremes: ALWAYS prints under every combination, NEVER under none;
      each of the other strategies depends exactly on the callbacks its name mentions. */
  lemma StrategyMatrix(g: bool, d: bool)
    ensures ShouldPrint(AlwaysPrintLogs, g, d) && !ShouldPrint(NeverPrintLogs, g, d)
    ensures ShouldPrint(PrintLogsWhenGlobalCallbackNotDefined, g, d) == ShouldPrint(PrintLogsWhenGlobalCallbackNotDefined, g, !d)
    ensures ShouldPrint(PrintLogsWhenSessionCallbackNotDefined, g, d) == ShouldPrint(PrintLogsWhenSessionCallbackNotDefined, !g, d)
    ensures ShouldPrint(PrintLogsWhenNoCallbacksDefined, g, d)
            <==> ShouldPrint(PrintLogsWhenGlobalCallbackNotDefined, g, d) && ShouldPrint(PrintLogsWhenSessionCallbackNotDefined, g, d)
  {
  }

  /** The strategy in force for a message: the session's when the session is
      found, else the global one. */
  function EffectiveStrategy(global: Strategy, session: Option<Strategy>): (s: Strategy)
    ensures session.Some? ==> s == session.value
    ensures session.None? ==> s == global
  {
    if session.Some? then session.value else global
  }

  /** Whether `process_log` / `log()` prints a message: it passes the filter,
      the strategy allows it, and its level is not QUIET. */
  predicate Printed(active: int, level: int, s: Strategy, globalDefined: bool, sessionDefined: bool)
  {
    !Dropped(active, level) && ShouldPrint(s, globalDefined, sessionDefined) && level != QuietValue
  }

  /** A QUIET-level message is never printed, and a dropped one never is. */
  lemma NeverPrintedWhenQuietOrDropped(active: int, level: int, s: Strategy, g: bool, d: bool)
    ensures !Printed(active, QuietValue, s, g, d)
    ensures Dropped(active, level) ==> !Printed(active, level, s, g, d)
  {
  }

  /** A QUIET-level message does pass the filter when the active level is
      neither QUIET nor below it: only the print switch keeps it silent. */
  lemma QuietMessageForwarded(active: int)
    requires active > QuietValue
    ensures !Dropped(active, QuietValue)
  {
  }

  /** The line the C++ binding writes to standard output, if any. */
  function CppPrintedLine(active: int, level: int, s: Strategy, g: bool, d: bool, message: string): (r: Option<string>)
    ensures r.Some? <==> Printed(active, level, s, g, d)
    ensures r.Some? ==> r.value == LogLevelToString(level) + ": " + message
  {
    if Printed(active, level, s, g, d) then Some(LogLevelToString(level) + ": " + message) else None
  }

  /** Android log priorities used by `log()`. */
  datatype Priority = DebugPriority | InfoPriority | WarnPriority | ErrorPriority | VerbosePriority

  /** The priority `log()` prints a level at; QUIET prints nothing. */
  function AndroidPriority(l: Level): (p: Option<Priority>)
    ensures p.None? <==> l == Quiet
    ensures p == Some(ErrorPriority) <==> l in {Error, Fatal, Panic}
    ensures p == Some(DebugPriority) <==> l in {Debug, Trace}
  {
    match l
    case Quiet => None
    case Trace => Some(DebugPriority)
    case Debug => Some(DebugPriority)
    case Info => Some(InfoPriority)
    case Warning => Some(WarnPriority)
    case Error => Some(ErrorPriority)
    case Fatal => Some(ErrorPriority)
    case Panic => Some(ErrorPriority)
    case Stderr => Some(VerbosePriority)
    case Verbose => Some(VerbosePriority)
  }

  /** Android prints with the priority of `Level.from(value)`; an unlisted value
      is taken as TRACE and printed at debug priority, and nothing but the
      QUIET value is silenced by the switch. */
  lemma AndroidPrintsAllButQuiet(v: int)
    ensures AndroidPriority(From(v)).None? <==> v == QuietValue
    ensures v !in ListedValues ==> AndroidPriority(From(v)) == Some(DebugPriority)
  {
    if v in ListedValues {
      FromListed(v);
    }
  }

  /** The React Native strategy switch on numeric codes: an unknown code
      matches no case and the message is printed. */
  function NumericShouldPrint(code: int, globalDefined: bool, sessionDefined: bool): (b: bool)
    ensures !(0 <= code <= 4) ==> b
  {
    if code == 4 then false
    else if code == 2 then !globalDefined
    else if code == 3 then !sessionDefined
    else if code == 1 then !globalDefined && !sessionDefined
    else true
  }

  /** On the five known codes the React Native switch agrees with the strategy matrix. */
  lemma NumericAgreesWithStrategy(s: Strategy, g: bool, d: bool)
    ensures NumericShouldPrint(Code(s), g, d) == ShouldPrint(s, g, d)
  {
  }

  /** React Native uses the session's strategy unless it is undefined. */
  function NumericEffectiveStrategy(global: int, session: Option<int>): (c: int)
    ensures c == global || (session.Some? && c == session.value)
    ensures session.Some? ==> c == session.value
  {
    match session
    case Some(v) => v
    case None => global
  }

  /** The text `processLogCallbackEvent` hands to the console, if any: the bare
      message, without the level name the C++ binding adds. */
  function NumericPrintedText(active: int, level: int, code: int, g: bool, d: bool, text: string): (r: Option<string>)
    ensures r.Some? ==> r.value == text && level != QuietValue && !Dropped(active, level)
    ensures r.None? <==> Dropped(active, level) || !NumericShouldPrint(code, g, d) || level == QuietValue
  {
    if Dropped(active, level) || !NumericShouldPrint(code, g, d) || level == QuietValue then None else Some(text)
  }

  /** For a known strategy React Native prints exactly the messages the C++
      binding prints, only without the level prefix. */
  lemma BindingsPrintTheSameMessages(active: int, level: int, s: Strategy, g: bool, d: bool, text: string)
    ensures NumericPrintedText(active, level, Code(s), g, d, text).Some? <==> CppPrintedLine(active, level, s, g, d, text).Some?
  {
    NumericAgreesWithStrategy(s, g, d);
  }
}
