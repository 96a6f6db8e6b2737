/** The file extension the Android binding derives from a Storage Access
    Framework display name: the first token, split on spaces and dots, of the
    text from the last dot on (or of the whole name when it has no dot), and
    "raw" when there is no token at all. */
module Saf {

  /** The delimiters of the tokenizer. */
  predicate IsDelimiter(c: char)
  {
    c == ' ' || c == '.'
  }

  /** `lastIndexOf`: the position of the last occurrence of `c`, or -1. */
  function LastIndexOf(s: string, c: char): (r: int)
    ensures -1 <= r < |s|
    ensures r >= 0 ==> s[r] == c && forall j :: r < j < |s| ==> s[j] != c
    ensures r == -1 <==> c !in s
  {
    if |s| == 0 then -1
    else if s[|s| - 1] == c then |s| - 1
    else LastIndexOf(s[..|s| - 1], c)
  }

  /** The longest prefix free of delimiters. */
  function TakeToken(s: string): (t: string)
    ensures |t| <= |s| && t == s[..|t|]
    ensures forall i :: 0 <= i < |t| ==> !IsDelimiter(t[i])
    ensures |t| < |s| ==> IsDelimiter(s[|t|])
  {
    if |s| == 0 || IsDelimiter(s[0]) then "" else [s[0]] + TakeToken(s[1..])
  }

  /** `StringTokenizer.nextToken`: skips leading delimiters and takes the token
      after them; none when only delimiters remain. */
  function NextToken(s: string): (t: string)
    ensures t == "" <==> forall i :: 0 <= i < |s| ==> IsDelimiter(s[i])
    ensures forall i :: 0 <= i < |t| ==> !IsDelimiter(t[i])
  {
    if |s| == 0 then ""
    else if IsDelimiter(s[0]) then NextToken(s[1..])
    else TakeToken(s)
  }

  /** `extractExtensionFromSafDisplayName`. */
  function ExtractExtension(displayName: string): (ext: string)
    ensures ext != "" && forall i :: 0 <= i < |ext| ==> !IsDelimiter(ext[i])
  {
    var dot := LastIndexOf(displayName, '.');
    var raw := if dot >= 0 then displayName[dot..] else displayName;
    var token := NextToken(raw);
    if token == "" then "raw" else token
  }

  /** When the name has a dot followed by a non-delimiter, the extension is the
      run of non-delimiters right after the last dot. */
  lemma ExtensionAfterLastDot(name: string, base: string, ext: string, rest: string)
    requires '.' !in ext && '.' !in rest
    requires ext != "" && !IsDelimiter(ext[0])
    requires forall i :: 0 <= i < |ext| ==> !IsDelimiter(ext[i])
    requires rest == "" || rest[0] == ' '
    requires name == base + "." + ext + rest
    ensures ExtractExtension(name) == ext
  {
    var dot := |base|;
    assert name[dot] == '.';
    assert forall j :: dot < j < |name| ==> name[j] != '.' by {
      forall j | dot < j < |name|
        ensures name[j] != '.'
      {
        if j < dot + 1 + |ext| {
          assert name[j] == ext[j - dot - 1];
        } else {
          assert name[j] == rest[j - dot - 1 - |ext|];
        }
      }
    }
    assert LastIndexOf(name, '.') == dot;
    var raw := name[dot..];
    assert raw == "." + ext + rest;
    assert "." + ext + rest == ['.'] + (ext + rest);
    assert raw[1..] == ext + rest;
    assert (ext + rest)[0] == ext[0];
    assert NextToken(raw) == NextToken(ext + rest) == TakeToken(ext + rest);
    TakeTokenOf(ext, rest);
  }

  /** The token of a run of non-delimiters followed by a delimiter (or nothing) is that run. */
  lemma {:induction false} TakeTokenOf(ext: string, rest: string)
    requires forall i :: 0 <= i < |ext| ==> !IsDelimiter(ext[i])
    requires rest == "" || IsDelimiter(rest[0])
    ensures TakeToken(ext + rest) == ext
  {
    if |ext| > 0 {
      assert (ext + rest)[1..] == ext[1..] + rest;
      TakeTokenOf(ext[1..], rest);
    } else {
      assert ext + rest == rest;
    }
  }

  /** The display names the binding's tests use. */
  lemma NumberedCopy()
    ensures ExtractExtension("video.mp4 (2)") == "mp4"
  {
    ExtensionAfterLastDot("video.mp4 (2)", "video", "mp4", " (2)");
  }

  lemma NumberedCopyWithSpaces()
    ensures ExtractExtension("video file name.mp3 (2)") == "mp3"
  {
    ExtensionAfterLastDot("video file name.mp3 (2)", "video file name", "mp3", " (2)");
  }

  lemma PlainName()
    ensures ExtractExtension("file.mp4") == "mp4"
  {
    ExtensionAfterLastDot("file.mp4", "file", "mp4", "");
  }

  lemma PlainNameWithSpace()
    ensures ExtractExtension("file name.mp4") == "mp4"
  {
    ExtensionAfterLastDot("file name.mp4", "file name", "mp4", "");
  }

  /** A name with no dot and no space is its own extension. */
  lemma NoDotNoSpace(name: string)
    requires name != "" && forall i :: 0 <= i < |name| ==> !IsDelimiter(name[i])
    ensures ExtractExtension(name) == name
  {
    TakeTokenOf(name, "");
    assert name + "" == name;
  }

  /** A name made only of spaces and dots has no token: its extension is "raw". */
  lemma AllDelimitersRaw(name: string)
    requires forall i :: 0 <= i < |name| ==> IsDelimiter(name[i])
    ensures ExtractExtension(name) == "raw"
  {
    var dot := LastIndexOf(name, '.');
    if dot >= 0 {
      var raw := name[dot..];
      assert forall i :: 0 <= i < |raw| ==> IsDelimiter(raw[i]) by {
        forall i | 0 <= i < |raw| ensures IsDelimiter(raw[i]) {
          assert raw[i] == name[dot + i];
        }
      }
    }
  }
}
