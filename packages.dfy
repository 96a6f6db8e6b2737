/** Package (build flavour) detection from the external libraries the engine
    was configured with (Packages.cpp). */
module Packages {

  /** The libraries the detection knows about, in source order. */
  const SupportedExternalLibraries: seq<string> := [
    "dav1d", "fontconfig", "freetype", "fribidi", "gmp", "gnutls", "kvazaar", "mp3lame",
    "libaom", "libass", "iconv", "libilbc", "libtheora", "libvidstab", "libvorbis", "libvpx",
    "libwebp", "libxml2", "opencore-amr", "openh264", "opus", "rubberband", "sdl2", "shine",
    "snappy", "soxr", "speex", "tesseract", "twolame", "x264", "x265", "xvid"]

  /** The libraries each named package must contain. */
  const FullGplRequired: set<string> := {
    "dav1d", "fontconfig", "freetype", "fribidi", "gmp", "gnutls", "kvazaar", "mp3lame",
    "libass", "iconv", "libilbc", "libtheora", "libvidstab", "libvorbis", "libvpx", "libwebp",
    "libxml2", "opencore-amr", "opus", "shine", "snappy", "soxr", "speex", "twolame",
    "x264", "x265", "xvid"}
  const FullRequired: set<string> := {
    "dav1d", "fontconfig", "freetype", "fribidi", "gmp", "gnutls", "kvazaar", "mp3lame",
    "libass", "iconv", "libilbc", "libtheora", "libvorbis", "libvpx", "libwebp", "libxml2",
    "opencore-amr", "opus", "shine", "snappy", "soxr", "speex", "twolame"}
  const VideoRequired: set<string> := {
    "dav1d", "fontconfig", "freetype", "fribidi", "kvazaar", "libass", "iconv", "libtheora",
    "libvpx", "libwebp", "snappy"}
  const AudioRequired: set<string> := {
    "mp3lame", "libilbc", "libvorbis", "opencore-amr", "opus", "shine", "soxr", "speex", "twolame"}
  const HttpsGplRequired: set<string> := {"gmp", "gnutls", "libvidstab", "x264", "x265", "xvid"}
  const HttpsRequired: set<string> := {"gmp", "gnutls"}
  const MinGplRequired: set<string> := {"libvidstab", "x264", "x265", "xvid"}

  const PackageNames: set<string> := {
    "full-gpl", "full", "video", "audio", "https-gpl", "https", "min-gpl", "min", "custom"}

  /** `pattern` is a prefix of `text`. */
  predicate StartsWith(text: string, pattern: string)
  {
    |pattern| <= |text| && text[..|pattern|] == pattern
  }

  /** `text.find(pattern) != npos`: `pattern` occurs in `text` at some position. */
  predicate Occurs(pattern: string, text: string)
    decreases |text|
  {
    StartsWith(text, pattern) || (|text| > 0 && Occurs(pattern, text[1..]))
  }

  /** A supported library counts as enabled when the configuration mentions
      "enable-<lib>" or "enable-lib<lib>". */
  predicate EnabledBy(configuration: string, lib: string)
  {
    Occurs("enable-" + lib, configuration) || Occurs("enable-lib" + lib, configuration)
  }

  /** `getExternalLibraries`: exactly the supported libraries the build configuration enables. */
  method GetExternalLibraries(configuration: string) returns (enabled: set<string>)
    ensures forall lib :: lib in enabled <==> lib in SupportedExternalLibraries && EnabledBy(configuration, lib)
  {
    enabled := {};
    for i := 0 to |SupportedExternalLibraries|
      invariant forall lib :: lib in enabled <==> lib in SupportedExternalLibraries[..i] && EnabledBy(configuration, lib)
    {
      var lib := SupportedExternalLibraries[i];
      assert SupportedExternalLibraries[..i + 1] == SupportedExternalLibraries[..i] + [lib];
      if EnabledBy(configuration, lib) {
        enabled := enabled + {lib};
      }
    }
    assert SupportedExternalLibraries[..|SupportedExternalLibraries|] == SupportedExternalLibraries;
  }

  /** `getPackageName`, given the set of enabled libraries: four key libraries pick the
      candidate package, which is reported only if all of its libraries are present. */
  function PackageName(enabled: set<string>): (name: string)
    ensures name in PackageNames
  {
    var speex := "speex" in enabled;
    var fribidi := "fribidi" in enabled;
    var gnutls := "gnutls" in enabled;
    var xvid := "xvid" in enabled;

    var fullGpl := speex && fribidi && xvid;
    var full := speex && fribidi && !xvid;
    var audio := speex && !fribidi;
    var video := !speex && fribidi;
    var httpsGpl := !speex && !fribidi && xvid && gnutls;
    var minGpl := !speex && !fribidi && xvid && !gnutls;
    var https := !speex && !fribidi && !xvid && gnutls;

    if fullGpl then (if FullGplRequired <= enabled then "full-gpl" else "custom")
    else if full then (if FullRequired <= enabled then "full" else "custom")
    else if video then (if VideoRequired <= enabled then "video" else "custom")
    else if audio then (if AudioRequired <= enabled then "audio" else "custom")
    else if httpsGpl then (if HttpsGplRequired <= enabled then "https-gpl" else "custom")
    else if https then (if HttpsRequired <= enabled then "https" else "custom")
    else if minGpl then (if MinGplRequired <= enabled then "min-gpl" else "custom")
    else "min"
  }

  /** Each named package is reported exactly when its libraries are present and the
      key libraries that would select a larger package are absent. */
  lemma PackageNameCharacterization(enabled: set<string>)
    ensures PackageName(enabled) == "full-gpl" <==> FullGplRequired <= enabled
    ensures PackageName(enabled) == "full" <==> FullRequired <= enabled && "xvid" !in enabled
    ensures PackageName(enabled) == "video" <==> VideoRequired <= enabled && "speex" !in enabled
    ensures PackageName(enabled) == "audio" <==> AudioRequired <= enabled && "fribidi" !in enabled
    ensures PackageName(enabled) == "https-gpl" <==> HttpsGplRequired <= enabled && "speex" !in enabled && "fribidi" !in enabled
    ensures PackageName(enabled) == "min-gpl" <==> MinGplRequired <= enabled && "speex" !in enabled && "fribidi" !in enabled && "gnutls" !in enabled
    ensures PackageName(enabled) == "https" <==> HttpsRequired <= enabled && "speex" !in enabled && "fribidi" !in enabled && "xvid" !in enabled
    ensures PackageName(enabled) == "min" <==> "speex" !in enabled && "fribidi" !in enabled && "xvid" !in enabled && "gnutls" !in enabled
  {
  }

  /** With speex but not fribidi the result is "audio" or "custom"; with fribidi
      but not speex it is "video" or "custom". */
  lemma SingleKeyLibraryPackages(enabled: set<string>)
    ensures "speex" in enabled && "fribidi" !in enabled ==> PackageName(enabled) in {"audio", "custom"}
    ensures "fribidi" in enabled && "speex" !in enabled ==> PackageName(enabled) in {"video", "custom"}
  {
  }
}
