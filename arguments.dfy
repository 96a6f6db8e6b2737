/** Splitting a command line into arguments (`parseArguments`) and joining
    arguments back into one line (`argumentsToString`). */
module Arguments {
  import opened Wrappers

  /** What the scanner has accumulated after some prefix of the command. */
  datatype ParseState = ParseState(done: seq<string>, current: string, single: bool, double: bool)

  const Init := ParseState([], "", false, false)

  /** The character the scanner treats as "no previous character". */
  const NoChar: char := 0 as char

  /** One scanner step on character `c`, where `prev` is the character before it.
      A step emits at most one argument, and only the current one when it is
      not empty, which then starts over. */
  function Step(st: ParseState, prev: char, c: char): (r: ParseState)
    ensures |st.done| <= |r.done| <= |st.done| + 1 && r.done[..|st.done|] == st.done
    ensures |r.done| > |st.done| ==> r.done[|st.done|] == st.current != "" && r.current == ""
  {
    if c == ' ' then
      if st.single || st.double then st.(current := st.current + [c])
      else if |st.current| > 0 then st.(done := st.done + [st.current], current := "")
      else st
    else if c == '\'' && prev != '\\' then
      if st.single then st.(single := false)
      else if st.double then st.(current := st.current + [c])
      else st.(single := true)
    else if c == '"' && prev != '\\' then
      if st.double then st.(double := false)
      else if st.single then st.(current := st.current + [c])
      else st.(double := true)
    else st.(current := st.current + [c])
  }

  /** The scanner state after reading `s`, starting from `st` with `prev` before it. */
  function Run(s: string, prev: char, st: ParseState): ParseState
    decreases |s|
  {
    if |s| == 0 then st else Run(s[1..], s[0], Step(st, prev, s[0]))
  }

  /** The pending argument is kept only when it is not empty. */
  function Finish(st: ParseState): seq<string>
  {
    if |st.current| > 0 then st.done + [st.current] else st.done
  }

  /** The arguments `parseArguments` produces for `command`. */
  function Parse(command: string): seq<string>
  {
    Finish(Run(command, NoChar, Init))
  }

  /** `parseArguments`: one pass over the characters with two quote flags. */
  method ParseArguments(command: string) returns (argumentList: seq<string>)
    ensures argumentList == Parse(command)
    ensures forall k :: 0 <= k < |argumentList| ==> argumentList[k] != ""
  {
    argumentList := [];
    var currentArgument := "";
    var singleQuoteStarted := false;
    var doubleQuoteStarted := false;
    var i := 0;
    while i < |command|
      invariant 0 <= i <= |command|
      invariant Run(command, NoChar, Init)
             == Run(command[i..], if i > 0 then command[i - 1] else NoChar,
                    ParseState(argumentList, currentArgument, singleQuoteStarted, doubleQuoteStarted))
    {
      var previousChar := if i > 0 then command[i - 1] else NoChar;
      var currentChar := command[i];
      if currentChar == ' ' {
        if singleQuoteStarted || doubleQuoteStarted {
          currentArgument := currentArgument + [currentChar];
        } else if |currentArgument| > 0 {
          argumentList := argumentList + [currentArgument];
          currentArgument := "";
        }
      } else if currentChar == '\'' && (previousChar == NoChar || previousChar != '\\') {
        if singleQuoteStarted {
          singleQuoteStarted := false;
        } else if doubleQuoteStarted {
          currentArgument := currentArgument + [currentChar];
        } else {
          singleQuoteStarted := true;
        }
      } else if currentChar == '"' && (previousChar == NoChar || previousChar != '\\') {
        if doubleQuoteStarted {
          doubleQuoteStarted := false;
        } else if singleQuoteStarted {
          currentArgument := currentArgument + [currentChar];
        } else {
          doubleQuoteStarted := true;
        }
      } else {
        currentArgument := currentArgument + [currentChar];
      }
      assert command[i..][1..] == command[i + 1..];
      i := i + 1;
    }
    if |currentArgument| > 0 {
      argumentList := argumentList + [currentArgument];
    }
    NoEmptyArgument(command);
  }

  /** Every completed argument is non-empty. */
  predicate NoneEmpty(args: seq<string>)
  {
    forall k :: 0 <= k < |args| ==> args[k] != ""
  }

  lemma {:induction false} RunKeepsNoneEmpty(s: string, prev: char, st: ParseState)
    requires NoneEmpty(st.done)
    ensures NoneEmpty(Run(s, prev, st).done)
    decreases |s|
  {
    if |s| > 0 {
      RunKeepsNoneEmpty(s[1..], s[0], Step(st, prev, s[0]));
    }
  }

  /** `parseArguments` never yields an empty argument: runs of spaces collapse. */
  lemma NoEmptyArgument(command: string)
    ensures NoneEmpty(Parse(command))
  {
    RunKeepsNoneEmpty(command, NoChar, Init);
  }

  /** Scanning `a + b` is scanning `a`, then `b` with the last character of `a` before it. */
  lemma {:induction false} RunAppend(a: string, b: string, prev: char, st: ParseState)
    ensures Run(a + b, prev, st) == Run(b, if |a| > 0 then a[|a| - 1] else prev, Run(a, prev, st))
    decreases |a|
  {
    if |a| > 0 {
      var st1 := Step(st, prev, a[0]);
      var last := if |a| > 0 then a[|a| - 1] else prev;
      assert (a + b)[1..] == a[1..] + b;
      calc {
        Run(a + b, prev, st);
        Run(a[1..] + b, a[0], st1);
        { RunAppend(a[1..], b, a[0], st1); }
        Run(b, if |a[1..]| > 0 then a[1..][|a[1..]| - 1] else a[0], Run(a[1..], a[0], st1));
        { if |a| > 1 { assert a[1..][|a[1..]| - 1] == a[|a| - 1]; } }
        Run(b, last, Run(a[1..], a[0], st1));
      }
    } else {
      assert a + b == b;
    }
  }

  /** A word with no space, quote or double quote. */
  predicate Plain(w: string)
  {
    forall k :: 0 <= k < |w| ==> w[k] != ' ' && w[k] != '\'' && w[k] != '"'
  }

  /** Outside quotes a plain word is appended to the pending argument. */
  lemma {:induction false} RunPlain(w: string, prev: char, st: ParseState)
    requires Plain(w) && !st.single && !st.double
    ensures Run(w, prev, st) == st.(current := st.current + w)
    decreases |w|
  {
    if |w| > 0 {
      assert Plain(w[1..]);
      assert st.current + [w[0]] + w[1..] == st.current + w;
      RunPlain(w[1..], w[0], Step(st, prev, w[0]));
    }
  }

  /** Within single quotes every character except a quote joins the pending argument. */
  lemma {:induction false} RunInSingleQuotes(w: string, prev: char, st: ParseState)
    requires '\'' !in w && st.single && !st.double
    ensures Run(w, prev, st) == st.(current := st.current + w)
    decreases |w|
  {
    if |w| > 0 {
      assert st.current + [w[0]] + w[1..] == st.current + w;
      RunInSingleQuotes(w[1..], w[0], Step(st, prev, w[0]));
    }
  }

  /** The text of `args` separated by single spaces. */
  function Join(args: seq<string>): string
  {
    if |args| == 0 then ""
    else if |args| == 1 then args[0]
    else Join(args[..|args| - 1]) + " " + args[|args| - 1]
  }

  /** Every argument of the sequence is a non-empty plain word. */
  predicate PlainWords(args: seq<string>)
  {
    forall k :: 0 <= k < |args| ==> args[k] != "" && Plain(args[k])
  }

  lemma {:induction false} RunJoin(args: seq<string>, prev: char)
    requires |args| > 0 && PlainWords(args)
    ensures Run(Join(args), prev, Init) == ParseState(args[..|args| - 1], args[|args| - 1], false, false)
    decreases |args|
  {
    if |args| == 1 {
      RunPlain(args[0], prev, Init);
    } else {
      var init, last := args[..|args| - 1], args[|args| - 1];
      assert PlainWords(init) by {
        forall k | 0 <= k < |init| ensures init[k] != "" && Plain(init[k]) {
          assert init[k] == args[k];
        }
      }
      RunJoin(init, prev);
      var j := Join(init);
      assert init[..|init| - 1] + [init[|init| - 1]] == init;
      // the scan of the earlier arguments ends on a non-empty plain word
      assert |j| > 0 by { JoinEndsWithLast(init); }
      assert Join(args) == (j + " ") + last;
      RunAppend(j + " ", last, prev, Init);
      RunAppend(j, " ", prev, Init);
      RunPlain(last, ' ', ParseState(init, "", false, false));
    }
  }

  lemma {:induction false} JoinEndsWithLast(args: seq<string>)
    requires |args| > 0 && args[|args| - 1] != ""
    ensures |Join(args)| >= |args[|args| - 1]| > 0
  {
  }

  /** Round trip: non-empty arguments without spaces or quotes come back unchanged
      from `parseArguments(argumentsToString(args))`. */
  lemma ParseJoinRoundTrip(args: seq<string>)
    requires PlainWords(args)
    ensures Parse(Join(args)) == args
  {
    if |args| > 0 {
      RunJoin(args, NoChar);
      assert args[..|args| - 1] + [args[|args| - 1]] == args;
    }
  }

  /** Within double quotes every character joins the pending argument, except a double
      quote that is not preceded by a backslash. */
  lemma {:induction false} RunInDoubleQuotes(w: string, prev: char, st: ParseState)
    requires st.double && !st.single
    requires forall k {:trigger w[k]} :: 0 <= k < |w| && w[k] == '"' ==> (if k == 0 then prev else w[k - 1]) == '\\'
    ensures Run(w, prev, st) == st.(current := st.current + w)
    decreases |w|
  {
    if |w| > 0 {
      assert st.current + [w[0]] + w[1..] == st.current + w;
      var w' := w[1..];
      assert forall k :: 0 <= k < |w'| && w'[k] == '"' ==> (if k == 0 then w[0] else w'[k - 1]) == '\\' by {
        forall k | 0 <= k < |w'| && w'[k] == '"'
          ensures (if k == 0 then w[0] else w'[k - 1]) == '\\'
        {
          assert w[k + 1] == '"';
        }
      }
      assert w[0] == '"' ==> prev == '\\';
      RunInDoubleQuotes(w', w[0], Step(st, prev, w[0]));
    }
  }

  /** `n` spaces. */
  function Spaces(n: nat): string
  {
    if n == 0 then "" else " " + Spaces(n - 1)
  }

  /** A stretch of the command as it is written: a bare word, a run of spaces, or a
      span in single or double quotes (quotes not included in `text`). */
  datatype Segment = Word(text: string) | Gap(width: nat) | SingleQuoted(text: string) | DoubleQuoted(text: string)

  function Render(seg: Segment): string
  {
    match seg
    case Word(t) => t
    case Gap(n) => Spaces(n)
    case SingleQuoted(t) => "'" + t + "'"
    case DoubleQuoted(t) => "\"" + t + "\""
  }

  function RenderAll(segs: seq<Segment>): string
  {
    if |segs| == 0 then "" else Render(segs[0]) + RenderAll(segs[1..])
  }

  /** The segments a shell-style reader would recognise: words without spaces, quotes or a
      trailing backslash; single-quoted spans without a single quote; double-quoted spans whose
      inner double quotes are all backslash-escaped; in both, no backslash before the closing quote. */
  predicate WellFormed(seg: Segment)
  {
    match seg
    case Word(t) => t != "" && Plain(t) && t[|t| - 1] != '\\'
    case Gap(n) => n > 0
    case SingleQuoted(t) => '\'' !in t && (t == "" || t[|t| - 1] != '\\')
    case DoubleQuoted(t) =>
      (forall k :: 0 <= k < |t| && t[k] == '"' ==> k > 0 && t[k - 1] == '\\')
      && (t == "" || t[|t| - 1] != '\\')
  }

  /** The arguments the segments denote, independently of the character scanner: gaps end
      the pending argument, every other segment contributes its text to it. */
  function Collect(segs: seq<Segment>, done: seq<string>, current: string): seq<string>
  {
    if |segs| == 0 then
      (if current != "" then done + [current] else done)
    else match segs[0]
      case Gap(_) =>
        if current != "" then Collect(segs[1..], done + [current], "") else Collect(segs[1..], done, "")
      case Word(t) => Collect(segs[1..], done, current + t)
      case SingleQuoted(t) => Collect(segs[1..], done, current + t)
      case DoubleQuoted(t) => Collect(segs[1..], done, current + t)
  }

  lemma {:induction false} RunGap(n: nat, prev: char, st: ParseState)
    requires n > 0 && !st.single && !st.double
    ensures Run(Spaces(n), prev, st) == ParseState(Finish(st), "", false, false)
    decreases n
  {
    var st1 := Step(st, prev, ' ');
    assert Spaces(n)[0] == ' ' && Spaces(n)[1..] == Spaces(n - 1);
    if n > 1 {
      RunGap(n - 1, ' ', st1);
    }
  }

  /** The state after one segment read outside quotes. */
  function Next(seg: Segment, st: ParseState): ParseState
  {
    if seg.Gap? then ParseState(Finish(st), "", false, false) else st.(current := st.current + seg.text)
  }

  /** Reading one well-formed segment outside quotes. */
  lemma RunSegment(seg: Segment, prev: char, st: ParseState)
    requires WellFormed(seg) && prev != '\\' && !st.single && !st.double
    ensures |Render(seg)| > 0 && Render(seg)[|Render(seg)| - 1] != '\\'
    ensures Run(Render(seg), prev, st) == Next(seg, st)
  {
    match seg
    case Word(t) =>
      RunPlain(t, prev, st);
    case Gap(n) =>
      RunGap(n, prev, st);
      assert Spaces(n)[|Spaces(n)| - 1] == ' ' by { SpacesAreSpaces(n); }
    case SingleQuoted(t) =>
      var inside := st.(single := true);
      var last := if |t| > 0 then t[|t| - 1] else '\'';
      assert "'"[1..] == "";
      calc {
        Run("'" + t + "'", prev, st);
        { RunAppend("'" + t, "'", prev, st); assert ("'" + t)[|"'" + t| - 1] == last; }
        Run("'", last, Run("'" + t, prev, st));
        { RunAppend("'", t, prev, st); }
        Run("'", last, Run(t, '\'', Run("'", prev, st)));
        Run("'", last, Run(t, '\'', inside));
        { RunInSingleQuotes(t, '\'', inside); }
        Run("'", last, inside.(current := st.current + t));
        st.(current := st.current + t);
      }
    case DoubleQuoted(t) =>
      var inside := st.(double := true);
      var last := if |t| > 0 then t[|t| - 1] else '"';
      assert "\""[1..] == "";
      calc {
        Run("\"" + t + "\"", prev, st);
        { RunAppend("\"" + t, "\"", prev, st); assert ("\"" + t)[|"\"" + t| - 1] == last; }
        Run("\"", last, Run("\"" + t, prev, st));
        { RunAppend("\"", t, prev, st); }
        Run("\"", last, Run(t, '"', Run("\"", prev, st)));
        Run("\"", last, Run(t, '"', inside));
        { RunInDoubleQuotes(t, '"', inside); }
        Run("\"", last, inside.(current := st.current + t));
        st.(current := st.current + t);
      }
  }

  lemma {:induction false} SpacesAreSpaces(n: nat)
    ensures |Spaces(n)| == n && forall k :: 0 <= k < n ==> Spaces(n)[k] == ' '
  {
    if n > 0 {
      SpacesAreSpaces(n - 1);
    }
  }

  /** The scanner agrees with the segment reading on every well-formed command. */
  lemma {:induction false} ParseSegments(segs: seq<Segment>, prev: char, st: ParseState)
    requires forall k :: 0 <= k < |segs| ==> WellFormed(segs[k])
    requires prev != '\\' && !st.single && !st.double
    ensures Finish(Run(RenderAll(segs), prev, st)) == Collect(segs, st.done, st.current)
    decreases |segs|
  {
    if |segs| > 0 {
      var r := Render(segs[0]);
      RunSegment(segs[0], prev, st);
      RunAppend(r, RenderAll(segs[1..]), prev, st);
      var st1 := Run(r, prev, st);
      ParseSegments(segs[1..], r[|r| - 1], st1);
    }
  }

  /** `parseArguments` reads a well-formed command as its segments denote. */
  lemma ParseWellFormed(segs: seq<Segment>)
    requires forall k :: 0 <= k < |segs| ==> WellFormed(segs[k])
    ensures Parse(RenderAll(segs)) == Collect(segs, [], "")
  {
    ParseSegments(segs, NoChar, Init);
  }

  /** `argumentsToString`: `absentText` for missing arguments ("null" in C++ and
      Java for a null array, "undefined" in the React Native layer for an
      undefined one), otherwise the space-separated join. */
  method ArgumentsToString(arguments: Option<seq<string>>, absentText: string) returns (text: string)
    ensures arguments.None? ==> text == absentText
    ensures arguments.Some? ==> text == Join(arguments.value)
  {
    if arguments.None? {
      return absentText;
    }
    var args := arguments.value;
    text := "";
    for i := 0 to |args|
      invariant text == Join(args[..i])
    {
      if i > 0 {
        text := text + " ";
      }
      text := text + args[i];
      assert args[..i + 1][..i] == args[..i];
    }
    assert args[..|args|] == args;
  }

  /** Shortened forms of the library's parsing tests. Runs of spaces, including leading
      and trailing ones, separate arguments without producing empty ones. */
  lemma SpacesExample()
    ensures var r := Parse(" -i  a "); |r| == 2 && r[0] == "-i" && r[1] == "a"
  {
  }

  /** Single quotes group words and are removed. */
  lemma SingleQuotesExample()
    ensures var r := Parse("a 'b c'"); |r| == 2 && r[0] == "a" && r[1] == "b c"
  {
  }

  /** A single quote inside a double-quoted span is kept. */
  lemma SingleQuoteInsideDoubleQuotesExample()
    ensures var r := Parse("\"x='y'\""); |r| == 1 && r[0] == "x='y'"
  {
  }

  /** A double quote inside a single-quoted span is kept. */
  lemma DoubleQuoteInsideSingleQuotesExample()
    ensures var r := Parse("'x=\"y'"); |r| == 1 && r[0] == "x=\"y"
  {
  }

  /** A backslash-escaped double quote inside a double-quoted span is kept together
      with its backslash. */
  lemma EscapedDoubleQuoteExample()
    ensures var r := Parse("\"x\\\"y\""); |r| == 1 && r[0] == "x\\\"y"
  {
  }
}
