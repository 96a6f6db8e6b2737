/** Log levels of the engine and their integer values (Level.java), their
    lookup by value, and the two names-of-a-level functions of the C++ and
    React Native bindings. */
module Levels {

  /** The ten levels, in declaration order. */
  datatype Level = Stderr | Quiet | Panic | Fatal | Error | Warning | Info | Verbose | Debug | Trace

  const StderrValue := -16
  const QuietValue := -8

  /** Every value some level carries. */
  const ListedValues: set<int> := {-16, -8, 0, 8, 16, 24, 32, 40, 48, 56}

  /** Position of a level in the declaration. */
  function Ordinal(l: Level): nat
  {
    match l
    case Stderr => 0
    case Quiet => 1
    case Panic => 2
    case Fatal => 3
    case Error => 4
    case Warning => 5
    case Info => 6
    case Verbose => 7
    case Debug => 8
    case Trace => 9
  }

  /** `getValue`: the integer a level carries; looking it up again gives the level back. */
  function Value(l: Level): (v: int)
    ensures v in ListedValues
    ensures From(v) == l
  {
    match l
    case Stderr => -16
    case Quiet => -8
    case Panic => 0
    case Fatal => 8
    case Error => 16
    case Warning => 24
    case Info => 32
    case Verbose => 40
    case Debug => 48
    case Trace => 56
  }

  /** `Level.from`: the level carrying `v`; every value no level carries maps to TRACE. */
  function From(v: int): (l: Level)
    ensures v !in ListedValues ==> l == Trace
  {
    if v == -16 then Stderr
    else if v == -8 then Quiet
    else if v == 0 then Panic
    else if v == 8 then Fatal
    else if v == 16 then Error
    else if v == 24 then Warning
    else if v == 32 then Info
    else if v == 40 then Verbose
    else if v == 48 then Debug
    else Trace
  }

  /** A listed value is the value of the level `From` gives for it. */
  lemma FromListed(v: int)
    requires v in ListedValues
    ensures Value(From(v)) == v
  {
  }

  /** Values strictly increase in declaration order, from STDERR (-16) to TRACE (56). */
  lemma ValueIncreasing(a: Level, b: Level)
    requires Ordinal(a) < Ordinal(b)
    ensures Value(a) < Value(b)
  {
  }

  /** `getValue` is injective across the enumeration. */
  lemma ValueInjective(a: Level, b: Level)
    requires Value(a) == Value(b)
    ensures a == b
  {
    assert From(Value(a)) == a && From(Value(b)) == b;
  }

  /** Upper-case name of a level. */
  function Name(l: Level): string
  {
    match l
    case Stderr => "STDERR"
    case Quiet => "QUIET"
    case Panic => "PANIC"
    case Fatal => "FATAL"
    case Error => "ERROR"
    case Warning => "WARNING"
    case Info => "INFO"
    case Verbose => "VERBOSE"
    case Debug => "DEBUG"
    case Trace => "TRACE"
  }

  /** C++ `logLevelToString`: the name of every listed level, QUIET included, and "" for any other value. */
  function LogLevelToString(v: int): (r: string)
    ensures v in ListedValues ==> r == Name(From(v))
    ensures v !in ListedValues ==> r == ""
  {
    if v == -16 then "STDERR"
    else if v == 56 then "TRACE"
    else if v == 48 then "DEBUG"
    else if v == 40 then "VERBOSE"
    else if v == 32 then "INFO"
    else if v == 24 then "WARNING"
    else if v == 16 then "ERROR"
    else if v == 8 then "FATAL"
    else if v == 0 then "PANIC"
    else if v == -8 then "QUIET"
    else ""
  }

  /** React Native `Level.levelToString`: the names of the nine levels other than QUIET; "" for QUIET and unknown values. */
  function LevelToString(v: int): (r: string)
    ensures v in ListedValues && v != QuietValue ==> r == Name(From(v))
    ensures r == "" <==> v == QuietValue || v !in ListedValues
  {
    if v == 56 then "TRACE"
    else if v == 48 then "DEBUG"
    else if v == 40 then "VERBOSE"
    else if v == 32 then "INFO"
    else if v == 24 then "WARNING"
    else if v == 16 then "ERROR"
    else if v == 8 then "FATAL"
    else if v == 0 then "PANIC"
    else if v == -16 then "STDERR"
    else ""
  }

  /** The two bindings name levels alike except QUIET, which only C++ names. */
  lemma LevelNamesAgreeExceptQuiet(v: int)
    ensures v != QuietValue ==> LevelToString(v) == LogLevelToString(v)
    ensures LogLevelToString(QuietValue) == "QUIET" && LevelToString(QuietValue) == ""
  {
  }
}
