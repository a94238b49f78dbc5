/**
 * The string helpers of the older download/unfavorite content script
 * (content.js): the video-id and post-id extractors, the base-name and
 * URL-pattern helpers, the path-segment filename chooser
 * `determineFilename`, the `-HD` filename rewrite, the query stripping
 * and first-occurrence replace used on media URLs, and the choice of the
 * tallest scroll container.
 */
module ContentNames {
  import opened Wrappers
  import opened Text
  import opened Uuid

  // ---------------------------------------------------------------- extractVideoId

  const GeneratedMarker := "/generated/"

  /**
   * `/\/generated\/([0-9a-f]{8}-…-[0-9a-f]{12})\//` matches at `i`: the
   * marker, a lower-case UUID (no `i` flag) and a closing `/`.
   */
  predicate VideoIdAt(s: string, i: int) {
    OccursAt(s, GeneratedMarker, i) && LowerUuidAt(s, i + |GeneratedMarker|) &&
    i + |GeneratedMarker| + Length < |s| && s[i + |GeneratedMarker| + Length] == '/'
  }

  function FirstVideoIdAt(s: string, from: nat): (r: Option<nat>)
    decreases |s| - from
    ensures r.Some? ==> from <= r.value && VideoIdAt(s, r.value)
    ensures r.Some? ==> forall j :: from <= j < r.value ==> !VideoIdAt(s, j)
    ensures r.None? ==> forall j :: from <= j ==> !VideoIdAt(s, j)
  {
    if from >= |s| then None
    else if VideoIdAt(s, from) then Some(from)
    else FirstVideoIdAt(s, from + 1)
  }

  /** `extractVideoId(videoUrl)`: the capture of the leftmost match, or null. */
  function ExtractVideoId(s: string): (r: Option<string>)
    ensures r.None? <==> forall j :: !VideoIdAt(s, j)
    ensures r.Some? ==> IsLowerUuid(r.value)
    ensures r.Some? ==> exists i :: VideoIdAt(s, i) && r.value == s[i + |GeneratedMarker|..i + |GeneratedMarker| + Length] &&
                          forall j :: 0 <= j < i ==> !VideoIdAt(s, j)
  {
    match FirstVideoIdAt(s, 0)
    case None => None
    case Some(i) => Some(s[i + |GeneratedMarker|..i + |GeneratedMarker| + Length])
  }

  // ---------------------------------------------------------------- extractPostId

  /** `extractPostId(imgSrc)`: the leftmost UUID-shaped substring (`i` flag), its case kept. */
  function ExtractPostId(s: string): (r: Option<string>)
    ensures r.Some? ==> IsUuid(r.value)
  {
    match FirstUuid(s, 0)
    case None => None
    case Some(k) => Some(s[k..k + Length])
  }

  /** No id exactly when no UUID occurs; otherwise the id is the leftmost UUID, case kept. */
  lemma ExtractPostIdLeftmost(s: string)
    ensures ExtractPostId(s).None? <==> forall j :: !UuidAt(s, j)
    ensures ExtractPostId(s).Some? ==>
      exists k :: UuidAt(s, k) && ExtractPostId(s).value == s[k..k + Length] && forall j :: 0 <= j < k ==> !UuidAt(s, j)
  {
  }

  // ---------------------------------------------------------------- extractBaseName

  /** `url.substring(url.lastIndexOf('/') + 1)`. */
  function FileName(url: string): (f: string)
    ensures EndsWith(url, f)
    ensures forall k :: 0 <= k < |f| ==> f[k] != '/'
    ensures |f| < |url| ==> url[|url| - |f| - 1] == '/'
  {
    url[LastIndexOf(url, '/') + 1..]
  }

  /** The file part of a URL is what follows its last slash. */
  lemma FileNameAfterSlash(x: string, f: string)
    requires '/' !in f
    ensures FileName(x + "/" + f) == f
  {
    var url := x + "/" + f;
    assert url[|url| - |f|..] == f && url[|url| - |f| - 1] == '/';
    assert forall k :: 0 <= k < |f| ==> url[|url| - |f| + k] == f[k];
  }

  /** The name ends in `.png`, `.jpg` or `.jpeg`, in any case. */
  predicate HasImageExtension(f: string) {
    EndsWithIgnoringCase(f, ".png") || EndsWithIgnoringCase(f, ".jpg") || EndsWithIgnoringCase(f, ".jpeg")
  }

  lemma LowerOfSuffix(f: string, n: nat)
    requires n <= |f|
    ensures Lower(f[|f| - n..]) == Lower(f)[|f| - n..]
  {
  }

  /** The file name with one trailing `.png`/`.jpg`/`.jpeg` removed, in any case (`/\.(png|jpg|jpeg)$/i`). */
  function StripImageExtension(f: string): (r: string)
    ensures |r| <= |f| && r == f[..|r|]
  {
    if EndsWithIgnoringCase(f, ".jpeg") then f[..|f| - 5]
    else if EndsWithIgnoringCase(f, ".png") || EndsWithIgnoringCase(f, ".jpg") then f[..|f| - 4]
    else f
  }

  /** `extractBaseName(url)`: the last path component without its image extension. */
  function ExtractBaseName(url: string): (r: string)
    ensures var f := FileName(url); |r| <= |f| && r == f[..|r|]
  {
    StripImageExtension(FileName(url))
  }

  /**
   * Stripping leaves a file name alone exactly when it does not end in an
   * image extension; otherwise what was cut off is that extension.
   */
  lemma StripImageExtensionSpec(f: string)
    ensures var r := StripImageExtension(f);
      (r == f <==> !HasImageExtension(f)) &&
      (|r| < |f| ==> Lower(f[|r|..]) in {".png", ".jpg", ".jpeg"})
  {
    if EndsWithIgnoringCase(f, ".jpeg") {
      LowerOfSuffix(f, 5);
    } else if EndsWithIgnoringCase(f, ".png") {
      LowerOfSuffix(f, 4);
    } else if EndsWithIgnoringCase(f, ".jpg") {
      LowerOfSuffix(f, 4);
    }
  }

  /** No character is a `/`: the string is at most one path component. */
  predicate SlashFree(s: string) {
    forall k :: 0 <= k < |s| ==> s[k] != '/'
  }

  lemma SlashFreeConcat(a: string, b: string)
    requires SlashFree(a) && SlashFree(b)
    ensures SlashFree(a + b)
  {
    assert forall k :: |a| <= k < |a + b| ==> (a + b)[k] == b[k - |a|];
  }

  /** The base name is a single path component. */
  lemma BaseNameHasNoSlash(url: string)
    ensures SlashFree(ExtractBaseName(url))
  {
    var f := FileName(url);
    var r := ExtractBaseName(url);
    assert forall k :: 0 <= k < |r| ==> r[k] == f[k];
  }

  // ---------------------------------------------------------------- isValidUrl

  /** `URL_PATTERNS.IMAGE`. */
  const ImagePatterns: seq<string> := ["imagine-public.x.ai", "grok.com"]

  /** `isValidUrl(url, patterns)`: `patterns.some(p => url.includes(p))`, tried left to right. */
  function IsValidUrl(url: string, patterns: seq<string>): (b: bool)
    ensures b <==> exists i :: 0 <= i < |patterns| && Contains(url, patterns[i])
  {
    if |patterns| == 0 then false
    else Contains(url, patterns[0]) || IsValidUrl(url, patterns[1..])
  }

  // ---------------------------------------------------------------- path segments

  predicate IsSegment(x: string) {
    x != "" && SlashFree(x)
  }

  function Piece(x: string): seq<string> {
    if x == "" then [] else [x]
  }

  /** `pathname.split('/').filter(Boolean)`. */
  function Segments(p: string): (r: seq<string>)
    decreases |p|
    ensures forall i :: 0 <= i < |r| ==> IsSegment(r[i])
  {
    match CharIndex(p, '/', 0)
    case None => Piece(p)
    case Some(i) => Piece(p[..i]) + Segments(p[i + 1..])
  }

  /** The path `/s0/s1/…` built from a list of segments. */
  function Path(segs: seq<string>): string {
    if segs == [] then "" else "/" + segs[0] + Path(segs[1..])
  }

  lemma {:induction false} SegmentsOfJoined(s0: string, rest: seq<string>)
    requires IsSegment(s0) && forall i :: 0 <= i < |rest| ==> IsSegment(rest[i])
    ensures Segments(s0 + Path(rest)) == [s0] + rest
    decreases |rest|
  {
    var p := s0 + Path(rest);
    if rest == [] {
      assert p == s0;
      assert CharIndex(p, '/', 0).None?;
    } else {
      var tail := rest[1..];
      assert p == s0 + "/" + (rest[0] + Path(tail));
      assert p[|s0|] == '/';
      assert CharIndex(p, '/', 0) == Some(|s0|);
      assert p[..|s0|] == s0;
      assert p[|s0| + 1..] == rest[0] + Path(tail);
      SegmentsOfJoined(rest[0], tail);
      assert [s0] + ([rest[0]] + tail) == [s0] + rest;
    }
  }

  /** A leading `/` contributes no segment. */
  lemma SegmentsAfterSlash(q: string)
    ensures Segments(['/'] + q) == Segments(q)
  {
    var p := ['/'] + q;
    assert CharIndex(p, '/', 0) == Some(0);
    assert p[..0] == "" && p[1..] == q;
  }

  /** Splitting a path built from segments gives the segments back. */
  lemma {:induction false} SegmentsOfPath(segs: seq<string>)
    requires forall i :: 0 <= i < |segs| ==> IsSegment(segs[i])
    ensures Segments(Path(segs)) == segs
  {
    if segs != [] {
      var q := segs[0] + Path(segs[1..]);
      assert Path(segs) == ['/'] + q;
      SegmentsAfterSlash(q);
      SegmentsOfJoined(segs[0], segs[1..]);
      assert Segments(Path(segs)) == [segs[0]] + segs[1..];
      assert [segs[0]] + segs[1..] == segs;
    }
  }

  // ---------------------------------------------------------------- extensions

  /** `\.[a-zA-Z0-9]{1,5}` as a whole string. */
  predicate IsExtension(e: string) {
    2 <= |e| <= 6 && e[0] == '.' && forall k :: 1 <= k < |e| ==> IsAlnum(e[k])
  }

  /** `/\.[a-zA-Z0-9]{1,5}$/.test(s)`. */
  predicate HasExtension(s: string) {
    exists i :: 0 <= i && |s| - 6 <= i <= |s| - 2 && IsExtension(s[i..])
  }

  /** The length of the longest run of letters and digits ending `s`. */
  function AlnumSuffix(s: string): (n: nat)
    ensures n <= |s|
    ensures forall k :: |s| - n <= k < |s| ==> IsAlnum(s[k])
    ensures n < |s| ==> !IsAlnum(s[|s| - n - 1])
  {
    if |s| > 0 && IsAlnum(s[|s| - 1]) then 1 + AlnumSuffix(s[..|s| - 1]) else 0
  }

  /** The capture of `/(\.[a-zA-Z0-9]{1,5})$/`. */
  function TrailingExtension(s: string): (r: Option<string>)
    ensures r.Some? ==> IsExtension(r.value) && EndsWith(s, r.value)
    ensures r.None? <==> !HasExtension(s)
  {
    var n := AlnumSuffix(s);
    if 1 <= n <= 5 && n < |s| && s[|s| - n - 1] == '.' then
      assert IsExtension(s[|s| - n - 1..]);
      Some(s[|s| - n - 1..])
    else
      None
  }

  lemma ExtensionAfter(x: string, e: string)
    requires IsExtension(e)
    ensures HasExtension(x + e)
  {
    assert (x + e)[|x|..] == e;
  }

  function DefaultExtension(isVideo: bool): (e: string)
    ensures IsExtension(e)
  {
    if isVideo then ".mp4" else ".png"
  }

  /** `${isVideo ? 'video' : 'image'}_${Date.now()}${ext}`, with the clock reading as a parameter. */
  function Timestamped(isVideo: bool, now: nat): (r: string)
    ensures HasExtension(r) && SlashFree(r)
  {
    var stem := (if isVideo then "video" else "image") + "_";
    var digits := NatToString(now);
    ExtensionAfter(stem + digits, DefaultExtension(isVideo));
    SlashFreeConcat(stem, digits);
    SlashFreeConcat(stem + digits, DefaultExtension(isVideo));
    stem + digits + DefaultExtension(isVideo)
  }

  // ---------------------------------------------------------------- determineFilename

  /** The segment the backward `for` loop stops at: the highest index below `n` holding a whole UUID. */
  function LastUuidSegment(segs: seq<string>, n: nat): (r: Option<nat>)
    requires n <= |segs|
    ensures r.Some? ==> r.value < n && IsUuid(segs[r.value])
    ensures r.Some? ==> forall j :: r.value < j < n ==> !IsUuid(segs[j])
    ensures r.None? ==> forall j :: 0 <= j < n ==> !IsUuid(segs[j])
  {
    if n == 0 then None
    else if IsUuid(segs[n - 1]) then Some(n - 1)
    else LastUuidSegment(segs, n - 1)
  }

  function LastSegment(segs: seq<string>): string {
    if |segs| > 0 then segs[|segs| - 1] else ""
  }

  /** The extension a UUID-named file takes: the last segment's own, else the default. */
  function KeptExtension(last: string, isVideo: bool): (e: string)
    ensures IsExtension(e)
    ensures HasExtension(last) ==> EndsWith(last, e)
    ensures !HasExtension(last) ==> e == DefaultExtension(isVideo)
  {
    match TrailingExtension(last)
    case Some(e) => e
    case None => DefaultExtension(isVideo)
  }

  /** The name chosen when no path segment is a UUID. */
  function PlainName(last: string, fallbackBase: string, isVideo: bool, now: nat): string {
    if TrailingExtension(last).Some? then last
    else if fallbackBase != "" then fallbackBase + DefaultExtension(isVideo)
    else if last != "" && Lower(last) != "content" then last + DefaultExtension(isVideo)
    else Timestamped(isVideo, now)
  }

  /**
   * `determineFilename(url, fallbackBase, isVideo)` over the URL's
   * pathname: `None` when `new URL(url)` throws. A `fallbackBase` of ""
   * stands for null as well, both being falsy.
   */
  function DetermineFilename(pathname: Option<string>, fallbackBase: string, isVideo: bool, now: nat): string {
    match pathname
    case None => Timestamped(isVideo, now)
    case Some(p) =>
      var segs := Segments(p);
      match LastUuidSegment(segs, |segs|)
      case Some(i) => segs[i] + KeptExtension(LastSegment(segs), isVideo)
      case None => PlainName(LastSegment(segs), fallbackBase, isVideo, now)
  }

  lemma PlainNameHasExtension(last: string, fallbackBase: string, isVideo: bool, now: nat)
    ensures HasExtension(PlainName(last, fallbackBase, isVideo, now))
  {
    ExtensionAfter(fallbackBase, DefaultExtension(isVideo));
    ExtensionAfter(last, DefaultExtension(isVideo));
  }

  /** Every chosen filename ends in `.` and one to five letters or digits. */
  lemma DetermineFilenameHasExtension(pathname: Option<string>, fallbackBase: string, isVideo: bool, now: nat)
    ensures HasExtension(DetermineFilename(pathname, fallbackBase, isVideo, now))
  {
    match pathname
    case None =>
    case Some(p) =>
      var segs := Segments(p);
      match LastUuidSegment(segs, |segs|)
      case Some(i) => ExtensionAfter(segs[i], KeptExtension(LastSegment(segs), isVideo));
      case None => PlainNameHasExtension(LastSegment(segs), fallbackBase, isVideo, now);
  }

  /**
   * A UUID segment wins: the last one in the path names the file, and the
   * last segment's own extension is kept when it has one.
   */
  lemma DetermineFilenameUuidBranch(p: string, fallbackBase: string, isVideo: bool, now: nat, i: nat)
    requires i < |Segments(p)| && IsUuid(Segments(p)[i])
    requires forall j :: i < j < |Segments(p)| ==> !IsUuid(Segments(p)[j])
    ensures var r := DetermineFilename(Some(p), fallbackBase, isVideo, now);
      var last := Segments(p)[|Segments(p)| - 1];
      r[..Length] == Segments(p)[i] && IsExtension(r[Length..]) &&
      (HasExtension(last) ==> EndsWith(last, r[Length..])) &&
      (!HasExtension(last) ==> r[Length..] == DefaultExtension(isVideo))
  {
    var segs := Segments(p);
    assert LastUuidSegment(segs, |segs|) == Some(i);
    var last := segs[|segs| - 1];
    assert LastSegment(segs) == last;
    var e := KeptExtension(last, isVideo);
    assert DetermineFilename(Some(p), fallbackBase, isVideo, now) == segs[i] + e;
    UuidNameParts(segs[i], e);
  }

  lemma UuidNameParts(seg: string, e: string)
    requires IsUuid(seg)
    ensures (seg + e)[..Length] == seg && (seg + e)[Length..] == e
  {
  }

  /**
   * Without a UUID segment, in order: a last segment with an extension is
   * the name; else the fallback base or a last segment other than
   * `content` gets the default extension; else the timestamped name.
   */
  lemma DetermineFilenameWithoutUuid(p: string, fallbackBase: string, isVideo: bool, now: nat)
    requires forall j :: 0 <= j < |Segments(p)| ==> !IsUuid(Segments(p)[j])
    ensures var r := DetermineFilename(Some(p), fallbackBase, isVideo, now);
      var last := LastSegment(Segments(p));
      (HasExtension(last) ==> r == last) &&
      (!HasExtension(last) && fallbackBase != "" ==> r == fallbackBase + DefaultExtension(isVideo)) &&
      (!HasExtension(last) && fallbackBase == "" && last != "" && Lower(last) != "content" ==>
         r == last + DefaultExtension(isVideo)) &&
      (!HasExtension(last) && fallbackBase == "" && (last == "" || Lower(last) == "content") ==>
         r == Timestamped(isVideo, now))
  {
    var segs := Segments(p);
    assert LastUuidSegment(segs, |segs|).None?;
  }

  lemma PlainNameIsComponent(last: string, fallbackBase: string, isVideo: bool, now: nat)
    requires SlashFree(last) && SlashFree(fallbackBase)
    ensures SlashFree(PlainName(last, fallbackBase, isVideo, now))
  {
    SlashFreeConcat(fallbackBase, DefaultExtension(isVideo));
    SlashFreeConcat(last, DefaultExtension(isVideo));
  }

  lemma KeptExtensionIsComponent(last: string, isVideo: bool)
    requires SlashFree(last)
    ensures SlashFree(KeptExtension(last, isVideo))
  {
    var e := KeptExtension(last, isVideo);
    if HasExtension(last) {
      assert forall k :: 0 <= k < |e| ==> e[k] == last[|last| - |e| + k];
    }
  }

  /** With a slash-free fallback base, the chosen filename is a single path component. */
  lemma DetermineFilenameIsComponent(pathname: Option<string>, fallbackBase: string, isVideo: bool, now: nat)
    requires SlashFree(fallbackBase)
    ensures SlashFree(DetermineFilename(pathname, fallbackBase, isVideo, now))
  {
    match pathname
    case None =>
    case Some(p) =>
      var segs := Segments(p);
      var last := LastSegment(segs);
      assert SlashFree(last);
      match LastUuidSegment(segs, |segs|)
      case None => PlainNameIsComponent(last, fallbackBase, isVideo, now);
      case Some(i) =>
        assert SlashFree(segs[i]);
        KeptExtensionIsComponent(last, isVideo);
        SlashFreeConcat(segs[i], KeptExtension(last, isVideo));
  }

  // ---------------------------------------------------------------- URLs

  /** `src.split('?')[0]`. */
  function StripQuery(src: string): (r: string)
    ensures StartsWith(src, r)
    ensures forall k :: 0 <= k < |r| ==> r[k] != '?'
    ensures r == src <==> forall k :: 0 <= k < |src| ==> src[k] != '?'
  {
    Before(src, '?')
  }

  /** Stripping the query of `p?q` gives `p` back when `p` holds no `?`. */
  lemma StripQueryAtMark(p: string, q: string)
    requires '?' !in p
    ensures StripQuery(p + "?" + q) == p
  {
    var src := p + "?" + q;
    assert src[|p|] == '?' && src[..|p|] == p;
    assert forall k :: 0 <= k < |p| ==> src[k] == p[k];
  }

  /**
   * `new URL(url).pathname`, simplified: `None` without a `scheme://`;
   * otherwise the part of what follows the authority up to the query or
   * fragment, or `/` when it is empty.
   */
  function PathName(url: string): (r: Option<string>)
    ensures r.Some? ==> |r.value| > 0 && r.value[0] == '/'
    ensures r.Some? ==> forall k :: 0 <= k < |r.value| ==> r.value[k] != '?' && r.value[k] != '#'
  {
    match IndexOf(url, "://", 0)
    case None => None
    case Some(i) =>
      var rest := Before(Before(url[i + 3..], '#'), '?');
      match CharIndex(rest, '/', 0)
      case None => Some("/")
      case Some(j) => Some(rest[j..])
  }

  /** `s.replace(p, rep)` with a string pattern: only the leftmost occurrence is replaced. */
  function ReplaceFirst(s: string, p: string, rep: string): (r: string)
    ensures (forall k :: !OccursAt(s, p, k)) ==> r == s
    ensures forall i :: OccursAt(s, p, i) && (forall k :: 0 <= k < i ==> !OccursAt(s, p, k)) ==>
      r == s[..i] + rep + s[i + |p|..]
  {
    match IndexOf(s, p, 0)
    case None => s
    case Some(i) => s[..i] + rep + s[i + |p|..]
  }

  /** `filename.replace(/(\.[^.]+)$/, '-HD$1')`: `-HD` goes before the last dot when characters follow it. */
  function HdName(f: string): (r: string)
    ensures r == f || |r| == |f| + 3
  {
    var d := LastIndexOf(f, '.');
    if 0 <= d < |f| - 1 then f[..d] + "-HD" + f[d..] else f
  }

  /** For a name with an extension, the HD name is the stem, `-HD`, and the same extension. */
  lemma HdNameOfExtension(f: string)
    requires HasExtension(f)
    ensures var e := TrailingExtension(f).value;
      HdName(f) == f[..|f| - |e|] + "-HD" + e
  {
    var e := TrailingExtension(f).value;
    var d := |f| - |e|;
    assert f[d] == '.';
    assert forall k :: d < k < |f| ==> f[k] == e[k - d] && IsAlnum(f[k]);
    assert LastIndexOf(f, '.') == d;
    assert f[d..] == e;
  }

  /** A name without a dot is left as it is. */
  lemma HdNameWithoutDot(f: string)
    requires forall k :: 0 <= k < |f| ==> f[k] != '.'
    ensures HdName(f) == f
  {
  }

  // ---------------------------------------------------------------- scroll container

  /** `possibleContainers.slice(0, n).reduce(…)`: the running choice keeps the current one unless strictly taller. */
  function TallestUpTo(heights: seq<int>, n: nat): (t: nat)
    requires 1 <= n <= |heights|
    ensures t < n
    ensures forall j :: 0 <= j < n ==> heights[j] <= heights[t]
    ensures forall j :: 0 <= j < t ==> heights[j] < heights[t]
  {
    if n == 1 then 0
    else
      var t := TallestUpTo(heights, n - 1);
      if heights[n - 1] > heights[t] then n - 1 else t
  }

  /** The container chosen from the candidates' scroll heights; `None` keeps `document.documentElement`. */
  function ChooseContainer(heights: seq<int>): (r: Option<nat>)
    ensures r.None? <==> |heights| == 0
    ensures r.Some? ==> r.value < |heights|
    ensures r.Some? ==> forall j :: 0 <= j < |heights| ==> heights[j] <= heights[r.value]
    ensures r.Some? ==> forall j :: 0 <= j < r.value ==> heights[j] < heights[r.value]
  {
    if |heights| == 0 then None else Some(TallestUpTo(heights, |heights|))
  }
}
