/**
 * Post-identifier resolution (js/utils.js): `extractPostId` over a URL
 * and `extractPostDataFromElement` over a card.
 */
module Utils {
  import opened Text
  import opened Wrappers
  import opened Uuid
  import opened Dom

  /** The path-marker alternatives of the id pattern, in the order written. */
  const PostIdMarkers: seq<string> := ["/generated/", "/post/", "/status/", "/imagine/post/"]

  /** The path-marker alternatives of the link pattern (no `/generated/`). */
  const LinkMarkers: seq<string> := ["/post/", "/status/", "/imagine/post/"]

  const ProfileMarker := "/profile/"

  /**
   * Where the UUID starts when `/(?:markers)/(uuid)/i` matches at
   * position `i`: the first alternative whose marker and UUID both match.
   */
  function MarkedUuidAt(s: string, i: nat, markers: seq<string>): (r: Option<nat>)
    ensures r.Some? ==> i <= r.value && UuidAt(s, r.value)
    ensures r.Some? ==> exists m :: m in markers && r.value == i + |m| && OccursAtIgnoringCase(s, m, i)
  {
    if markers == [] then None
    else if OccursAtIgnoringCase(s, markers[0], i) && UuidAt(s, i + |markers[0]|) then Some(i + |markers[0]|)
    else MarkedUuidAt(s, i, markers[1..])
  }

  predicate Marked(s: string, i: nat) { MarkedUuidAt(s, i, PostIdMarkers).Some? }

  /** The leftmost position at or after `from` where the marker pattern matches. */
  function FirstMarked(s: string, from: nat): (r: Option<nat>)
    decreases |s| - from
    ensures r.Some? ==> from <= r.value && Marked(s, r.value)
    ensures r.Some? ==> forall j: nat :: from <= j < r.value ==> !Marked(s, j)
    ensures r.None? ==> forall j: nat :: from <= j ==> !Marked(s, j)
  {
    if from + Length > |s| then None
    else if Marked(s, from) then Some(from)
    else FirstMarked(s, from + 1)
  }

  /**
   * `Utils.extractPostId`: the UUID after the leftmost path marker,
   * else the last match of a global UUID search, lower-cased; None for
   * an empty (or absent) URL and for a URL without a UUID.
   */
  function ExtractPostId(url: string): (r: Option<string>)
    ensures url == "" ==> r.None?
    ensures r.Some? ==> IsLowerUuid(r.value)
  {
    if url == "" then None
    else match FirstMarked(url, 0)
      case Some(i) =>
        var k := MarkedUuidAt(url, i, PostIdMarkers).value;
        Some(LowerUuidFrom(url, k))
      case None =>
        match LastUuid(url)
        case Some(k) => Some(LowerUuidFrom(url, k))
        case None => None
  }

  /** The result is null exactly when no UUID occurs, and otherwise is one of the UUIDs that occur, lower-cased. */
  lemma ExtractPostIdSpec(url: string)
    ensures ExtractPostId(url).None? <==> forall j :: !UuidAt(url, j)
    ensures ExtractPostId(url).Some? ==> exists k :: UuidAt(url, k) && ExtractPostId(url).value == Lower(url[k..k + Length])
  {
    if url != "" && FirstMarked(url, 0).Some? {
      var k := MarkedUuidAt(url, FirstMarked(url, 0).value, PostIdMarkers).value;
      assert UuidAt(url, k);
    }
  }

  /** With a marker match, the result is the UUID after the leftmost one. */
  lemma ExtractPostIdPrefersMarker(url: string, i: nat)
    requires Marked(url, i) && forall j: nat :: j < i ==> !Marked(url, j)
    ensures var k := MarkedUuidAt(url, i, PostIdMarkers).value;
      ExtractPostId(url) == Some(Lower(url[k..k + Length]))
  {
    var f := FirstMarked(url, 0);
    assert f.Some?;
    assert f.value == i;
  }

  /** Without a marker match, the result is the last match of the global search. */
  lemma ExtractPostIdFallsBackToLast(url: string)
    requires forall j: nat :: !Marked(url, j)
    requires LastUuid(url).Some?
    ensures var k := LastUuid(url).value;
      ExtractPostId(url) == Some(Lower(url[k..k + Length]))
  {
    assert FirstMarked(url, 0) == None;
  }

  /** A UUID-shaped string resolves to itself, lower-cased; so resolving twice changes nothing. */
  lemma {:induction false} ExtractPostIdOfUuid(u: string)
    requires IsUuid(u)
    ensures ExtractPostId(u) == Some(Lower(u))
  {
    forall j: nat ensures !Marked(u, j) {
      if Marked(u, j) {
        assert false;
      }
    }
    assert UuidAt(u, 0) by { assert u[0..Length] == u; }
    assert FirstUuid(u, Length) == None;
    assert GlobalMatches(u, 0) == [0];
    assert u[0..Length] == u;
  }

  lemma ExtractPostIdIdempotent(url: string)
    requires ExtractPostId(url).Some?
    ensures ExtractPostId(ExtractPostId(url).value) == ExtractPostId(url)
  {
    var u := ExtractPostId(url).value;
    LowerUuidIsUuid(u);
    ExtractPostIdOfUuid(u);
  }

  /** A URL holding a single UUID resolves to it, lower-cased, with or without a path marker before it. */
  lemma ExtractPostIdOfSole(url: string, k: nat)
    requires UuidAt(url, k) && forall j :: UuidAt(url, j) ==> j == k
    ensures ExtractPostId(url) == Some(Lower(url[k..k + Length]))
  {
    var m := FirstMarked(url, 0);
    if m.Some? {
      var j := MarkedUuidAt(url, m.value, PostIdMarkers).value;
      assert UuidAt(url, j);
      assert ExtractPostId(url) == Some(LowerUuidFrom(url, j));
    } else {
      var l := LastUuid(url);
      assert l.Some? && UuidAt(url, l.value);
      assert ExtractPostId(url) == Some(LowerUuidFrom(url, l.value));
    }
  }

  // ---- the link pattern /\/(?:post|status|imagine\/post)\/([0-9a-f-]{36}|[0-9a-f]{8,})/i ----

  predicate IsHexOrDash(c: char) { IsHex(c) || c == '-' }

  /** The length of the longest run of hex digits starting at `p` (greedy `[0-9a-f]+`). */
  function HexRun(s: string, p: nat): (n: nat)
    decreases |s| - p
    ensures p + n <= |s| || n == 0
    ensures forall k :: p <= k < p + n ==> IsHex(s[k])
    ensures p + n < |s| ==> !IsHex(s[p + n])
  {
    if p < |s| && IsHex(s[p]) then 1 + HexRun(s, p + 1) else 0
  }

  /** `[0-9a-f-]{36}` at `p`. */
  predicate HexOrDash36At(s: string, p: nat) {
    p + 36 <= |s| && forall k :: p <= k < p + 36 ==> IsHexOrDash(s[k])
  }

  /** The capture of `([0-9a-f-]{36}|[0-9a-f]{8,})` at `p`: the first alternative that matches. */
  function IdCaptureAt(s: string, p: nat): (r: Option<string>)
    ensures r.Some? ==> p + |r.value| <= |s| && |r.value| >= 8 && r.value == s[p..p + |r.value|]
  {
    if HexOrDash36At(s, p) then Some(s[p..p + 36])
    else
      var n := HexRun(s, p);
      if n >= 8 then Some(s[p..p + n]) else None
  }

  function LinkCaptureAt(s: string, i: nat, markers: seq<string>): (r: Option<string>)
    ensures r.Some? ==> i < |s|
  {
    if markers == [] then None
    else if OccursAtIgnoringCase(s, markers[0], i) && IdCaptureAt(s, i + |markers[0]|).Some? then
      IdCaptureAt(s, i + |markers[0]|)
    else LinkCaptureAt(s, i, markers[1..])
  }

  predicate LinkMatchAt(s: string, i: nat) { LinkCaptureAt(s, i, LinkMarkers).Some? }

  /** The leftmost position at or after `from` where the link pattern matches. */
  function FirstLinkMatch(s: string, from: nat): (r: Option<nat>)
    decreases |s| - from
    ensures r.Some? ==> from <= r.value && LinkMatchAt(s, r.value)
    ensures r.Some? ==> forall j: nat :: from <= j < r.value ==> !LinkMatchAt(s, j)
    ensures r.None? ==> forall j: nat :: from <= j ==> !LinkMatchAt(s, j)
  {
    if from >= |s| then None
    else if LinkMatchAt(s, from) then Some(from)
    else FirstLinkMatch(s, from + 1)
  }

  /** `new URL(href).search` for an absolute href: from the first `?` up to a `#`, "" when empty. */
  function QueryOf(href: string): (r: string)
    ensures r == "" || (r[0] == '?' && |r| >= 2 && Contains(href, r))
  {
    match CharIndex(href, '?', 0)
    case None => ""
    case Some(q) =>
      match CharIndex(href, '#', 0)
      case Some(h) =>
        if h < q || h - q < 2 then ""
        else assert OccursAt(href, href[q..h], q); href[q..h]
      case None =>
        if |href| - q < 2 then ""
        else assert OccursAt(href, href[q..], q); href[q..]
  }

  /** A link the card search accepts: a non-empty href, not a profile link, matching the link pattern. */
  predicate IsPostLink(href: string) {
    href != "" && !Contains(href, ProfileMarker) && FirstLinkMatch(href, 0).Some?
  }

  /** The first accepted link at or after `from`. */
  function FirstPostLink(links: seq<string>, from: nat): (r: Option<nat>)
    decreases |links| - from
    ensures r.Some? ==> from <= r.value < |links| && IsPostLink(links[r.value])
    ensures r.Some? ==> forall j :: from <= j < r.value ==> !IsPostLink(links[j])
    ensures r.None? ==> forall j :: from <= j < |links| ==> !IsPostLink(links[j])
  {
    if from >= |links| then None
    else if IsPostLink(links[from]) then Some(from)
    else FirstPostLink(links, from + 1)
  }

  /** `{id, url, isFallback}`: id = lower-cased capture + query string (or the img UUID). */
  datatype PostData = PostData(id: string, url: string, isFallback: bool)

  /** The id a post link yields: its lower-cased capture followed by its query string. */
  function LinkPostId(href: string): string
    requires IsPostLink(href)
  {
    var i := FirstLinkMatch(href, 0).value;
    Lower(LinkCaptureAt(href, i, LinkMarkers).value) + QueryOf(href)
  }

  const PostPath := "/imagine/post/"

  /**
   * `Utils.extractPostDataFromElement` over a card's links, its image
   * source and the page origin.
   */
  function ExtractPostDataFromElement(links: seq<string>, image: Option<string>, origin: string): Option<PostData>
  {
    match FirstPostLink(links, 0)
    case Some(n) => Some(PostData(LinkPostId(links[n]), links[n], false))
    case None =>
      if image.Some? && image.value != "" then
        match ExtractPostId(image.value)
        case Some(id) => Some(PostData(id, origin + PostPath + id, true))
        case None => None
      else None
  }

  /**
   * The card search: the first accepted link wins, with the link's id
   * and full href; failing that, the image's post id under the page's
   * post path; failing both, nothing.
   */
  lemma ExtractPostDataSpec(links: seq<string>, image: Option<string>, origin: string)
    ensures var r := ExtractPostDataFromElement(links, image, origin);
      (r.Some? && !r.value.isFallback ==>
        exists n :: 0 <= n < |links| && IsPostLink(links[n]) && (forall j :: 0 <= j < n ==> !IsPostLink(links[j])) &&
          r.value == PostData(LinkPostId(links[n]), links[n], false)) &&
      (r.Some? && r.value.isFallback ==>
        (forall j :: 0 <= j < |links| ==> !IsPostLink(links[j])) &&
        image.Some? && ExtractPostId(image.value) == Some(r.value.id) &&
        r.value.url == origin + PostPath + r.value.id) &&
      (r.None? <==>
        (forall j :: 0 <= j < |links| ==> !IsPostLink(links[j])) && (image.None? || ExtractPostId(image.value).None?))
  {
  }
}
