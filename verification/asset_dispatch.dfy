/**
  `add_asset`: the extension-based choice of how a file is put on the
  overlay. The extension is taken as Python's `os.path.splitext` takes it and
  compared after `.lower()`.
*/
module AssetDispatch {

  /** Which of `add_animation`, `add_image`, `add_video` is called, or none. */
  datatype Handler = AddAnimation | AddImage | AddVideo | NoHandler

  const GifExtension: string := ".gif"
  const ImageExtensions: seq<string> := [".png", ".jpg", ".jpeg", ".bmp"]
  const VideoExtension: string := ".mp4"

  /** Path separators: `/` for POSIX paths; `\` and `/` for Windows paths. */
  function Separators(windows: bool): set<char> {
    if windows then {'/', '\\'} else {'/'}
  }

  /** `str.rfind` for any of a set of characters: the last index holding one, or -1. */
  function RFind(s: string, targets: set<char>): (i: int)
    ensures -1 <= i < |s|
    ensures 0 <= i ==> s[i] in targets
    ensures forall j :: i < j < |s| ==> s[j] !in targets
    decreases |s|
  {
    if |s| == 0 then -1
    else if s[|s| - 1] in targets then |s| - 1
    else RFind(s[..|s| - 1], targets)
  }

  /** Some character of `p[lo..hi]` is not a dot. */
  predicate HasNonDot(p: string, lo: int, hi: int)
    requires 0 <= lo && hi <= |p|
  {
    exists k :: lo <= k < hi && p[k] != '.'
  }

  /** An extension as `splitext` returns it: a dot followed by no further dot or separator. */
  predicate IsExtension(e: string, windows: bool) {
    && |e| > 0
    && e[0] == '.'
    && forall i :: 1 <= i < |e| ==> e[i] != '.' && e[i] !in Separators(windows)
  }

  /** The last path component of `stem` holds a character other than a dot. */
  predicate NamedStem(stem: string, windows: bool) {
    exists i :: 0 <= i < |stem| && stem[i] != '.' && stem[i] !in Separators(windows)
                && (forall j :: i < j < |stem| ==> stem[j] !in Separators(windows))
  }

  /**
    `os.path.splitext(p)[1]`: the text from the last dot of the last path
    component, unless that component is nothing but dots before it (so
    `.gif` and `..gif` have no extension).
  */
  function SplitExt(p: string, windows: bool): (ext: string)
    ensures |ext| <= |p| && ext == p[|p| - |ext|..]
    ensures ext != [] ==> IsExtension(ext, windows) && NamedStem(p[..|p| - |ext|], windows)
  {
    var sepIndex := RFind(p, Separators(windows));
    var dotIndex := RFind(p, {'.'});
    if dotIndex > sepIndex && HasNonDot(p, sepIndex + 1, dotIndex) then p[dotIndex..] else []
  }

  /** The converse: a named stem followed by an extension splits exactly there. */
  lemma SplitExtOfStemAndExtension(stem: string, e: string, windows: bool)
    requires NamedStem(stem, windows) && IsExtension(e, windows)
    ensures SplitExt(stem + e, windows) == e
  {
    var p := stem + e;
    var i :| 0 <= i < |stem| && stem[i] != '.' && stem[i] !in Separators(windows)
             && (forall j :: i < j < |stem| ==> stem[j] !in Separators(windows));
    var dotIndex := RFind(p, {'.'});
    var sepIndex := RFind(p, Separators(windows));
    assert p[|stem|] == '.';
    assert dotIndex == |stem| by {
      forall j | |stem| < j < |p|
        ensures p[j] !in {'.'}
      {
        assert p[j] == e[j - |stem|];
      }
    }
    assert p[i] == stem[i];
    assert sepIndex < i;
    assert HasNonDot(p, sepIndex + 1, dotIndex);
    assert p[dotIndex..] == e;
  }

  /** ASCII `str.lower()` of one character: upper-case letters map to lower case, all else is kept. */
  function LowerChar(c: char): (d: char)
    ensures !('A' <= d <= 'Z')
    ensures !('A' <= c <= 'Z') ==> d == c
    ensures 'A' <= c <= 'Z' ==> 'a' <= d <= 'z' && d as int - 'a' as int == c as int - 'A' as int
  {
    if 'A' <= c <= 'Z' then (c as int - 'A' as int + 'a' as int) as char else c
  }

  /** ASCII `str.lower()` of a string, character by character. */
  function Lower(s: string): (r: string)
    ensures |r| == |s|
    ensures forall i :: 0 <= i < |s| ==> r[i] == LowerChar(s[i])
  {
    seq(|s|, i requires 0 <= i < |s| => LowerChar(s[i]))
  }

  /** `path` ends with `suffix` once its last `|suffix|` characters are lower-cased. */
  predicate EndsWithIgnoringCase(path: string, suffix: string) {
    |suffix| <= |path| && Lower(path[|path| - |suffix|..]) == suffix
  }

  /**
    `add_asset`: the handler for the lower-cased extension of `path`. A handler
    runs only for a path with an extension, and the path then ends, ignoring
    case, with one of that handler's extensions.
  */
  function AddAsset(path: string, windows: bool): (h: Handler)
    ensures h != NoHandler ==> SplitExt(path, windows) != []
    ensures h == AddAnimation ==> EndsWithIgnoringCase(path, GifExtension)
    ensures h == AddImage ==> exists e :: e in ImageExtensions && EndsWithIgnoringCase(path, e)
    ensures h == AddVideo ==> EndsWithIgnoringCase(path, VideoExtension)
  {
    var ext := Lower(SplitExt(path, windows));
    if ext == GifExtension then AddAnimation
    else if ext in ImageExtensions then AddImage
    else if ext == VideoExtension then AddVideo
    else NoHandler
  }

  /**
    The dispatch table: for a file `stem + e`, the handler is fixed by `e`
    ignoring case, and every extension outside the table is ignored.
  */
  lemma AddAssetByExtension(stem: string, e: string, windows: bool)
    requires NamedStem(stem, windows) && IsExtension(e, windows)
    ensures AddAsset(stem + e, windows) == AddAnimation <==> Lower(e) == ".gif"
    ensures AddAsset(stem + e, windows) == AddImage <==> Lower(e) in {".png", ".jpg", ".jpeg", ".bmp"}
    ensures AddAsset(stem + e, windows) == AddVideo <==> Lower(e) == ".mp4"
    ensures AddAsset(stem + e, windows) == NoHandler <==>
              Lower(e) !in {".gif", ".png", ".jpg", ".jpeg", ".bmp", ".mp4"}
  {
    SplitExtOfStemAndExtension(stem, e, windows);
  }

  /** A path without an extension is never placed on the overlay. */
  lemma NoExtensionNoHandler(path: string, windows: bool)
    requires SplitExt(path, windows) == []
    ensures AddAsset(path, windows) == NoHandler
  {
  }

  /** Lower-casing changes neither dots nor separators, so `rfind` of them is unchanged. */
  lemma {:induction false} RFindIgnoresCase(s: string, targets: set<char>)
    requires forall c :: c in targets ==> !('A' <= c <= 'Z') && !('a' <= c <= 'z')
    ensures RFind(Lower(s), targets) == RFind(s, targets)
    decreases |s|
  {
    if |s| > 0 {
      var c := s[|s| - 1];
      assert LowerChar(c) in targets <==> c in targets;
      assert Lower(s)[..|s| - 1] == Lower(s[..|s| - 1]);
      RFindIgnoresCase(s[..|s| - 1], targets);
    }
  }

  lemma LowerSuffix(s: string, k: nat)
    requires k <= |s|
    ensures Lower(s)[k..] == Lower(s[k..])
  {
  }

  lemma HasNonDotIgnoresCase(p: string, lo: int, hi: int)
    requires 0 <= lo && hi <= |p|
    ensures HasNonDot(Lower(p), lo, hi) <==> HasNonDot(p, lo, hi)
  {
    if HasNonDot(p, lo, hi) {
      var k :| lo <= k < hi && p[k] != '.';
      assert Lower(p)[k] != '.';
    }
  }

  /** Splitting commutes with lower-casing. */
  lemma SplitExtIgnoresCase(p: string, windows: bool)
    ensures SplitExt(Lower(p), windows) == Lower(SplitExt(p, windows))
  {
    RFindIgnoresCase(p, Separators(windows));
    RFindIgnoresCase(p, {'.'});
    var sepIndex := RFind(p, Separators(windows));
    var dotIndex := RFind(p, {'.'});
    if dotIndex > sepIndex {
      HasNonDotIgnoresCase(p, sepIndex + 1, dotIndex);
      LowerSuffix(p, dotIndex);
    }
  }

  lemma LowerIdempotent(s: string)
    ensures Lower(Lower(s)) == Lower(s)
  {
  }

  /** The dispatch is case-insensitive over the whole path. */
  lemma AddAssetIgnoresCase(path: string, windows: bool)
    ensures AddAsset(Lower(path), windows) == AddAsset(path, windows)
  {
    SplitExtIgnoresCase(path, windows);
    LowerIdempotent(SplitExt(path, windows));
  }

  /** Two characters that are equal, or the same ASCII letter in upper and lower case. */
  predicate SameCharIgnoringCase(c: char, d: char) {
    || c == d
    || ('A' <= c <= 'Z' && d as int - 'a' as int == c as int - 'A' as int)
    || ('A' <= d <= 'Z' && c as int - 'a' as int == d as int - 'A' as int)
  }

  /** Two strings of equal length that agree character by character up to ASCII letter case. */
  predicate SameIgnoringCase(p: string, q: string) {
    |p| == |q| && forall i :: 0 <= i < |p| ==> SameCharIgnoringCase(p[i], q[i])
  }

  /** Paths that differ only in the case of ASCII letters select the same handler. */
  lemma AddAssetCaseInsensitive(p: string, q: string, windows: bool)
    requires SameIgnoringCase(p, q)
    ensures AddAsset(p, windows) == AddAsset(q, windows)
  {
    forall i | 0 <= i < |p|
      ensures Lower(p)[i] == Lower(q)[i]
    {
      var c, d := p[i], q[i];
      assert LowerChar(c) == LowerChar(d) by {
        if 'A' <= c <= 'Z' && d != c {
          assert !('A' <= d <= 'Z');
        } else if 'A' <= d <= 'Z' && d != c {
          assert !('A' <= c <= 'Z');
        }
      }
    }
    assert Lower(p) == Lower(q);
    AddAssetIgnoresCase(p, windows);
    AddAssetIgnoresCase(q, windows);
  }

  /** An upper-case extension still selects its handler. */
  lemma UpperCaseGifIsAnimation()
    ensures AddAsset("assets/cat.GIF", false) == AddAnimation
  {
    assert "assets/cat"[9] == 't';
    assert "assets/cat" + ".GIF" == "assets/cat.GIF";
    assert LowerChar('G') == 'g' && LowerChar('I') == 'i' && LowerChar('F') == 'f';
    assert Lower(".GIF") == ".gif";
    AddAssetByExtension("assets/cat", ".GIF", false);
  }

  /** Only the last extension counts. */
  lemma LastExtensionCounts()
    ensures AddAsset("assets/archive.gif.zip", false) == NoHandler
  {
    assert "assets/archive.gif"[17] == 'f';
    assert "assets/archive.gif" + ".zip" == "assets/archive.gif.zip";
    assert Lower(".zip") == ".zip";
    AddAssetByExtension("assets/archive.gif", ".zip", false);
  }

  /** Windows paths use backslash separators. */
  lemma WindowsPathVideo()
    ensures AddAsset("C:\\clips\\intro.mp4", true) == AddVideo
  {
    assert "C:\\clips\\intro"[13] == 'o';
    assert "C:\\clips\\intro" + ".mp4" == "C:\\clips\\intro.mp4";
    AddAssetByExtension("C:\\clips\\intro", ".mp4", true);
  }
}
