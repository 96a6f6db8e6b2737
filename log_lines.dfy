/** Cleaning of the engine's log lines before they are queued: every control
    byte except backspace, tab, line feed, vertical tab, form feed and carriage
    return is replaced by '?', up to the terminating zero byte of the C string. */
module LogLines {

  newtype byte = x: int | 0 <= x < 256

  /** The byte written over every control character ('?'). */
  const Replaced: byte := 63

  /** Whether a byte, read as an unsigned value, is one the sanitizer replaces. */
  predicate IsReplacedControl(b: byte)
  {
    b < 0x08 || (0x0D < b < 0x20)
  }

  /** One byte of `avutil_log_sanitize` over unsigned bytes. */
  function SanitizeByte(b: byte): (r: byte)
    ensures r == b <==> !IsReplacedControl(b) || b == Replaced
    ensures r != b ==> r == Replaced
    ensures !IsReplacedControl(r)
  {
    if IsReplacedControl(b) then Replaced else b
  }

  /** The value a byte has when the platform's `char` is signed. */
  function SignedChar(b: byte): (v: int)
    ensures -128 <= v < 128
    ensures v < 0 <==> b >= 0x80
  {
    if b >= 0x80 then b as int - 256 else b as int
  }

  /** One byte of the sanitizer as the C++ binding writes it, comparing a
      (signed) `char`: every byte from 0x80 on compares below 0x08. */
  function SanitizeByteAsWritten(b: byte): (r: byte)
    ensures b >= 0x80 ==> r == Replaced
    ensures b < 0x80 ==> r == SanitizeByte(b)
  {
    var c := SignedChar(b);
    if c < 0x08 || (0x0D < c < 0x20) then Replaced else b
  }

  /** Number of bytes before the first zero byte (all of them if there is none). */
  function CStringLength(s: seq<byte>): (n: nat)
    ensures n <= |s|
    ensures forall k :: 0 <= k < n ==> s[k] != 0
    ensures n < |s| ==> s[n] == 0
  {
    if |s| == 0 || s[0] == 0 then 0 else 1 + CStringLength(s[1..])
  }

  /** The text a C string carries: its bytes before the terminator. */
  function Text(s: seq<byte>): (t: seq<byte>)
    ensures |t| == CStringLength(s)
    ensures forall k :: 0 <= k < |t| ==> t[k] == s[k] && t[k] != 0
  {
    s[..CStringLength(s)]
  }

  /** The buffer after sanitizing: bytes before the terminator cleaned, the rest untouched. */
  function SanitizeLine(s: seq<byte>): (r: seq<byte>)
    ensures |r| == |s|
  {
    var n := CStringLength(s);
    seq(|s|, k requires 0 <= k < |s| => if k < n then SanitizeByte(s[k]) else s[k])
  }

  /** `avutil_log_sanitize`: cleans a buffer in place up to its first zero byte. */
  method Sanitize(line: array<byte>)
    modifies line
    ensures line[..] == SanitizeLine(old(line[..]))
  {
    ghost var s := line[..];
    var i := 0;
    while i < line.Length && line[i] != 0
      invariant 0 <= i <= line.Length
      invariant i <= CStringLength(s)
      invariant forall k :: 0 <= k < i ==> line[k] == SanitizeByte(s[k])
      invariant forall k :: i <= k < line.Length ==> line[k] == s[k]
    {
      if IsReplacedControl(line[i]) {
        line[i] := Replaced;
      }
      i := i + 1;
    }
  }

  /** Cleaning never creates or removes a zero byte, so the text keeps its length. */
  lemma SanitizeKeepsLength(s: seq<byte>)
    ensures CStringLength(SanitizeLine(s)) == CStringLength(s)
  {
    var r := SanitizeLine(s);
    var n := CStringLength(s);
    assert forall k :: 0 <= k < n ==> r[k] != 0;
    CStringLengthExact(r, n);
  }

  /** A prefix of non-zero bytes followed by a zero (or the end) fixes the length. */
  lemma {:induction false} CStringLengthExact(s: seq<byte>, n: nat)
    requires n <= |s|
    requires forall k :: 0 <= k < n ==> s[k] != 0
    requires n < |s| ==> s[n] == 0
    ensures CStringLength(s) == n
  {
    if n > 0 {
      CStringLengthExact(s[1..], n - 1);
    }
  }

  /** After cleaning, the text holds no replaced control byte, and cleaning twice
      is the same as cleaning once. */
  lemma SanitizeClean(s: seq<byte>)
    ensures forall k :: 0 <= k < |Text(SanitizeLine(s))| ==> !IsReplacedControl(Text(SanitizeLine(s))[k])
    ensures SanitizeLine(SanitizeLine(s)) == SanitizeLine(s)
  {
    SanitizeKeepsLength(s);
  }

  /** The whitespace controls and every byte from 0x20 on pass through unchanged. */
  lemma SanitizeKeepsText(b: byte)
    ensures 0x08 <= b <= 0x0D ==> SanitizeByte(b) == b
    ensures b >= 0x20 ==> SanitizeByte(b) == b
  {
  }

  /** The two halves of a UTF-8 encoded "é" (0xC3 0xA9). */
  const AccentedE: seq<byte> := [0xC3, 0xA9]

  /** With a signed `char`, the C++ sanitizer turns both bytes of a UTF-8
      character into '?', while the unsigned one keeps them. */
  lemma SignedSanitizeReplacesUtf8()
    ensures SanitizeByteAsWritten(AccentedE[0]) == Replaced && SanitizeByteAsWritten(AccentedE[1]) == Replaced
    ensures SanitizeLine(AccentedE + [0]) == AccentedE + [0]
  {
    CStringLengthExact(AccentedE + [0], 2);
    assert SanitizeLine(AccentedE + [0])[0] == 0xC3;
    assert SanitizeLine(AccentedE + [0])[1] == 0xA9;
  }

  /** `ffmpegkit_log_callback_function`: the four formatted parts of a line are
      cleaned and their texts concatenated into the line that is queued. */
  function FullLine(parts: seq<seq<byte>>): (line: seq<byte>)
    ensures forall k :: 0 <= k < |line| ==> line[k] != 0 && !IsReplacedControl(line[k])
  {
    if |parts| == 0 then []
    else
      SanitizeClean(parts[0]);
      Text(SanitizeLine(parts[0])) + FullLine(parts[1..])
  }

  /** A line made only of parts with empty text is empty, and so is not queued. */
  lemma {:induction false} FullLineEmpty(parts: seq<seq<byte>>)
    ensures |FullLine(parts)| == 0 <==> forall i :: 0 <= i < |parts| ==> CStringLength(parts[i]) == 0
  {
    if |parts| > 0 {
      SanitizeKeepsLength(parts[0]);
      FullLineEmpty(parts[1..]);
      assert forall i :: 1 <= i < |parts| ==> parts[i] == parts[1..][i - 1];
    }
  }

  /** The text of one part after the C++ sanitizer as written: every byte
      before the terminator goes through the signed-`char` test. */
  function SanitizeTextAsWritten(s: seq<byte>): (t: seq<byte>)
    ensures |t| == CStringLength(s)
    ensures forall k :: 0 <= k < |t| ==> t[k] != 0 && t[k] < 0x80 && !IsReplacedControl(t[k])
  {
    seq(CStringLength(s), k requires 0 <= k < CStringLength(s) => SanitizeByteAsWritten(s[k]))
  }

  /** The line the C++ log callback builds as written: the four parts cleaned by
      the signed-`char` sanitizer and concatenated. No byte from 0x80 on survives. */
  function FullLineAsWritten(parts: seq<seq<byte>>): (line: seq<byte>)
    ensures forall k :: 0 <= k < |line| ==> line[k] != 0 && line[k] < 0x80
  {
    if |parts| == 0 then [] else SanitizeTextAsWritten(parts[0]) + FullLineAsWritten(parts[1..])
  }

  /** A line holding "é": the C++ callback as written queues "??", the
      unsigned sanitizer queues the two UTF-8 bytes unchanged. */
  lemma FullLineAsWrittenReplacesUtf8()
    ensures FullLineAsWritten([AccentedE, [], [], []]) == [Replaced, Replaced]
    ensures FullLine([AccentedE, [], [], []]) == AccentedE
  {
    var parts: seq<seq<byte>> := [AccentedE, [], [], []];
    var empties: seq<seq<byte>> := [[], [], []];
    assert parts[1..] == empties;
    FullLineEmpty(empties);
    assert FullLineAsWritten(empties) == [] by {
      assert empties[1..][1..][1..] == [];
    }
    CStringLengthExact(AccentedE, 2);
    assert SanitizeTextAsWritten(AccentedE) == [Replaced, Replaced];
    assert FullLineAsWritten(parts) == SanitizeTextAsWritten(AccentedE) + FullLineAsWritten(empties);
    assert SanitizeLine(AccentedE) == AccentedE;
    assert FullLine(parts) == Text(SanitizeLine(AccentedE)) + FullLine(empties);
  }

  /** `level &= 0xff` for non-negative levels; negative levels are kept. */
  function MaskLevel(level: int): (m: int)
    ensures level >= 0 ==> 0 <= m < 256 && (m - level) % 256 == 0
    ensures level < 0 ==> m == level
  {
    if level >= 0 then level % 256 else level
  }
}
