/**
 * The service worker's deep analysis (background.js): the post-id copy
 * `extractPostIdFromUrl`, the sniffer relay's `pushUrl` filter, the
 * button and tab searches, the network-idle wait of
 * `scrapeAndIntercept`, the accumulation of the two scrape steps'
 * URLs, and the final `{url, id, type}` mapping of `analyzePostInTab`.
 * Clock readings and DOM snapshots are inputs.
 */
module Background {
  import opened Text
  import opened Wrappers
  import opened Uuid
  import opened Dom
  import opened Utils

  // ---- extractPostIdFromUrl ----

  /** `extractPostIdFromUrl`: the marker match, else the last global match, lower-cased. */
  function ExtractPostIdFromUrl(url: string): (r: Option<string>)
    ensures r.Some? ==> IsLowerUuid(r.value)
  {
    if url == "" then None
    else if FirstMarked(url, 0).Some? then
      Some(LowerUuidFrom(url, MarkedUuidAt(url, FirstMarked(url, 0).value, PostIdMarkers).value))
    else if LastUuid(url).Some? then Some(LowerUuidFrom(url, LastUuid(url).value))
    else None
  }

  /** The service worker's copy agrees with `Utils.extractPostId` on every input. */
  lemma ExtractPostIdFromUrlAgrees(url: string)
    ensures ExtractPostIdFromUrl(url) == ExtractPostId(url)
  {
  }

  // ---- the sniffer relay ----

  /** The extensions and scheme `pushUrl` looks for. */
  predicate IsMediaUrl(url: string) {
    Contains(url, ".mp4") || Contains(url, ".jpg") || Contains(url, ".png") || Contains(url, ".webp") || Contains(url, "blob:")
  }

  /** The hidden relay element; `collected` is its `data-collected-urls` list. */
  class Relay {
    var collected: seq<string>

    constructor ()
      ensures collected == []
    {
      collected := [];
    }

    /** Every URL in the list is a media URL, and none is listed twice. */
    predicate Valid()
      reads this
    {
      NoDuplicates(collected) && forall k :: 0 <= k < |collected| ==> IsMediaUrl(collected[k])
    }

    /** `relay.dataset.collectedUrls = '[]'`. */
    method Reset()
      modifies this
      ensures collected == [] && Valid()
    {
      collected := [];
    }

    /** `pushUrl(url)`: a non-empty media URL not yet listed is appended; anything else changes nothing. */
    method PushUrl(url: string)
      requires Valid()
      modifies this
      ensures Valid()
      ensures collected == if url != "" && IsMediaUrl(url) && url !in old(collected) then old(collected) + [url] else old(collected)
    {
      if url == "" {
        return;
      }
      if IsMediaUrl(url) {
        var current := collected;
        if url !in current {
          current := current + [url];
          collected := current;
        }
      }
    }
  }

  // ---- button and tab searches ----

  /** The first element at or after `from` satisfying `p` (`Array.prototype.find` and the `for ... of` searches). */
  function FindFirst<T>(xs: seq<T>, p: T -> bool, from: nat): (r: Option<nat>)
    decreases |xs| - from
    ensures r.Some? ==> from <= r.value < |xs| && p(xs[r.value])
    ensures r.Some? ==> forall j :: from <= j < r.value ==> !p(xs[j])
    ensures r.None? ==> forall j :: from <= j < |xs| ==> !p(xs[j])
  {
    if from >= |xs| then None else if p(xs[from]) then Some(from) else FindFirst(xs, p, from + 1)
  }

  /** The download keywords, in English and Japanese ("download", "save"). */
  predicate MentionsDownload(s: string) {
    Contains(s, "download") || Contains(s, "ダウンロード") || Contains(s, "保存")
  }

  /** `findBtn`'s test: a download keyword in the label, text or title; no "upscale" in the text or label. */
  predicate IsDownloadButton(c: Control) {
    var aria := Lower(c.ariaLabel);
    var text := Lower(c.text);
    var title := Lower(c.title);
    (MentionsDownload(aria) || MentionsDownload(text) || MentionsDownload(title)) &&
    !Contains(text, "upscale") && !Contains(aria, "upscale")
  }

  /** `findBtn()` over the controls in document order. */
  function FindButton(controls: seq<Control>): Option<Control> {
    match FindFirst(controls, IsDownloadButton, 0)
    case Some(n) => Some(controls[n])
    case None => None
  }

  /** `switchTab`'s test: an image/variation keyword in the text or the label (the title is not read). */
  predicate IsImageTab(c: Control) {
    var text := Lower(c.text);
    var aria := Lower(c.ariaLabel);
    Contains(text, "image") || Contains(aria, "image") ||
    Contains(text, "version") || Contains(aria, "version") ||
    Contains(text, "variations") || Contains(aria, "variations") ||
    Contains(text, "画像") || Contains(aria, "画像") ||
    Contains(text, "バリエーション") || Contains(aria, "バリエーション")
  }

  /** `switchTab()`: the index of the one candidate clicked, if any. */
  function SwitchTab(candidates: seq<Control>): (r: Option<nat>)
    ensures r.Some? ==> r.value < |candidates| && IsImageTab(candidates[r.value])
    ensures r.Some? ==> forall j :: 0 <= j < r.value ==> !IsImageTab(candidates[j])
    ensures r.None? <==> forall j :: 0 <= j < |candidates| ==> !IsImageTab(candidates[j])
  {
    FindFirst(candidates, IsImageTab, 0)
  }

  /** The result of `findBtn()` is the first control in document order that passes the test. */
  lemma FindButtonSpec(controls: seq<Control>)
    ensures FindButton(controls).Some? ==>
      exists n :: 0 <= n < |controls| && controls[n] == FindButton(controls).value && IsDownloadButton(controls[n]) &&
        forall j :: 0 <= j < n ==> !IsDownloadButton(controls[j])
    ensures FindButton(controls).None? <==> forall j :: 0 <= j < |controls| ==> !IsDownloadButton(controls[j])
  {
    var r := FindFirst(controls, IsDownloadButton, 0);
    if r.Some? {
      assert controls[r.value] == FindButton(controls).value;
    }
  }

  /** A control whose text or label mentions upscaling is never taken for the download button. */
  lemma UpscaleIsNotDownload(c: Control)
    requires Contains(Lower(c.text), "upscale") || Contains(Lower(c.ariaLabel), "upscale")
    ensures !IsDownloadButton(c)
  {
  }

  // ---- waiting for the button ----

  /** `findBtn()` is tried once, then after each of up to 15 pauses. */
  const ButtonRetries: nat := 15

  /** The controls on the page at the `k`-th `findBtn()` call (none past the given snapshots). */
  function ControlsAt(snapshots: seq<seq<Control>>, k: nat): seq<Control> {
    if k < |snapshots| then snapshots[k] else []
  }

  /** The button found from the `k`-th try on. */
  function ButtonFrom(snapshots: seq<seq<Control>>, k: nat): Option<Control>
    requires k <= ButtonRetries
    decreases ButtonRetries - k
  {
    match FindButton(ControlsAt(snapshots, k))
    case Some(c) => Some(c)
    case None => if k == ButtonRetries then None else ButtonFrom(snapshots, k + 1)
  }

  /** The wait yields a download button present at one of the tries, or nothing when no try showed one. */
  lemma {:induction false} ButtonFromSpec(snapshots: seq<seq<Control>>, k: nat)
    requires k <= ButtonRetries
    ensures var r := ButtonFrom(snapshots, k);
      (r.Some? ==> IsDownloadButton(r.value) && exists t :: k <= t <= ButtonRetries && r.value in ControlsAt(snapshots, t)) &&
      (r.None? <==> forall t, j :: k <= t <= ButtonRetries && 0 <= j < |ControlsAt(snapshots, t)| ==>
         !IsDownloadButton(ControlsAt(snapshots, t)[j]))
    decreases ButtonRetries - k
  {
    FindButtonSpec(ControlsAt(snapshots, k));
    if FindButton(ControlsAt(snapshots, k)).None? && k < ButtonRetries {
      ButtonFromSpec(snapshots, k + 1);
    }
  }

  /** Step 1 of `scrapeAndIntercept`: `findBtn()`, retried up to 15 times while it finds nothing. */
  method WaitForButton(snapshots: seq<seq<Control>>) returns (dlBtn: Option<Control>)
    ensures dlBtn == ButtonFrom(snapshots, 0)
  {
    dlBtn := FindButton(ControlsAt(snapshots, 0));
    if dlBtn.None? {
      var i := 0;
      while i < ButtonRetries
        invariant i <= ButtonRetries
        invariant dlBtn.None? && (if i < ButtonRetries then ButtonFrom(snapshots, i + 1) else None) == ButtonFrom(snapshots, 0)
        decreases ButtonRetries - i
      {
        dlBtn := FindButton(ControlsAt(snapshots, i + 1));
        if dlBtn.Some? {
          return;
        }
        i := i + 1;
      }
    }
  }

  // ---- waiting for network idle ----

  const MaxWaitMs := 4000
  const QuietMs := 600
  const EmptyWaitWithButtonMs := 2000
  const EmptyWaitWithoutButtonMs := 1500

  /**
   * One pass of the idle loop: the clock read by the loop condition,
   * the clock read after the pause, and the number of URLs the relay
   * then held.
   */
  datatype Tick = Tick(before: int, after: int, count: nat)

  /** Past the given ticks the clock has run out. */
  function TickAt(start: int, ticks: seq<Tick>, k: nat): Tick {
    if k < |ticks| then ticks[k] else Tick(start + MaxWaitMs, start + MaxWaitMs, 0)
  }

  /** `lastCount` before pass `k`. */
  function PrevCount(start: int, ticks: seq<Tick>, k: nat): nat {
    if k == 0 then 0 else TickAt(start, ticks, k - 1).count
  }

  /** On pass `k` the relay holds URLs and their number did not change. */
  predicate Steady(start: int, ticks: seq<Tick>, k: nat) {
    TickAt(start, ticks, k).count > 0 && TickAt(start, ticks, k).count == PrevCount(start, ticks, k)
  }

  /** The first pass of the steady stretch that ends at pass `k`. */
  function RunStart(start: int, ticks: seq<Tick>, k: nat): (j: nat)
    requires Steady(start, ticks, k)
    ensures j <= k && forall i :: j <= i <= k ==> Steady(start, ticks, i)
    ensures j > 0 ==> !Steady(start, ticks, j - 1)
  {
    if k > 0 && Steady(start, ticks, k - 1) then RunStart(start, ticks, k - 1) else k
  }

  predicate TimeUpAt(start: int, ticks: seq<Tick>, k: nat) {
    TickAt(start, ticks, k).before - start >= MaxWaitMs
  }

  /** URLs are held and their number has not changed for at least 600 ms. */
  predicate QuietAt(start: int, ticks: seq<Tick>, k: nat) {
    Steady(start, ticks, k) &&
    TickAt(start, ticks, k).after - TickAt(start, ticks, RunStart(start, ticks, k)).after >= QuietMs
  }

  /** Nothing is held and the early timeout, 2 s with a button clicked or 1.5 s without, has passed. */
  predicate EmptyTimeoutAt(start: int, ticks: seq<Tick>, buttonFound: bool, k: nat) {
    TickAt(start, ticks, k).count == 0 &&
    TickAt(start, ticks, k).after - start >= (if buttonFound then EmptyWaitWithButtonMs else EmptyWaitWithoutButtonMs)
  }

  datatype IdleExit = TimeUp | Quiet | EmptyTimeout

  /** The pass at which the idle loop stops, from pass `k` on, and why: the first pass where a stop rule holds. */
  function IdleExitFrom(start: int, ticks: seq<Tick>, buttonFound: bool, k: nat): (r: (nat, IdleExit))
    decreases |ticks| - k
    ensures k <= r.0
    ensures forall j :: k <= j < r.0 ==>
      !TimeUpAt(start, ticks, j) && !QuietAt(start, ticks, j) && !EmptyTimeoutAt(start, ticks, buttonFound, j)
    ensures r.1 == TimeUp <==> TimeUpAt(start, ticks, r.0)
    ensures r.1 == Quiet ==> QuietAt(start, ticks, r.0)
    ensures r.1 == EmptyTimeout ==> EmptyTimeoutAt(start, ticks, buttonFound, r.0) && !QuietAt(start, ticks, r.0)
    ensures r.1 != TimeUp ==> TickAt(start, ticks, r.0).before - start < MaxWaitMs
  {
    if TimeUpAt(start, ticks, k) then (k, TimeUp)
    else if QuietAt(start, ticks, k) then (k, Quiet)
    else if EmptyTimeoutAt(start, ticks, buttonFound, k) then (k, EmptyTimeout)
    else IdleExitFrom(start, ticks, buttonFound, k + 1)
  }

  /** `firstDiscoveryTime` after the passes before `k`: the clock of the first pass that saw a URL. */
  function Discovery(start: int, ticks: seq<Tick>, k: nat): Option<int> {
    if k == 0 then None
    else if Discovery(start, ticks, k - 1).Some? then Discovery(start, ticks, k - 1)
    else if TickAt(start, ticks, k - 1).count > 0 then Some(TickAt(start, ticks, k - 1).after)
    else None
  }

  /** `idleStartTime` before pass `k`: the clock of the first pass of the current steady stretch. */
  function IdleStart(start: int, ticks: seq<Tick>, k: nat): Option<int> {
    if k > 0 && Steady(start, ticks, k - 1) then Some(TickAt(start, ticks, RunStart(start, ticks, k - 1)).after) else None
  }

  /**
   * Step 2 of `scrapeAndIntercept`: the time-bounded loop, returning the
   * pass it stopped at, why, and `firstDiscoveryTime`.
   */
  method AwaitNetworkIdle(start: int, ticks: seq<Tick>, buttonFound: bool)
    returns (exitPass: nat, reason: IdleExit, firstDiscoveryTime: Option<int>)
    ensures (exitPass, reason) == IdleExitFrom(start, ticks, buttonFound, 0)
    ensures firstDiscoveryTime == Discovery(start, ticks, if reason == TimeUp then exitPass else exitPass + 1)
  {
    firstDiscoveryTime := None;
    var idleStartTime: Option<int> := None;
    var lastCount: nat := 0;
    var k: nat := 0;
    while TickAt(start, ticks, k).before - start < MaxWaitMs
      invariant k <= |ticks|
      invariant IdleExitFrom(start, ticks, buttonFound, k) == IdleExitFrom(start, ticks, buttonFound, 0)
      invariant lastCount == PrevCount(start, ticks, k)
      invariant idleStartTime == IdleStart(start, ticks, k)
      invariant firstDiscoveryTime == Discovery(start, ticks, k)
      decreases |ticks| - k
    {
      var tick := TickAt(start, ticks, k);
      var currentCount := tick.count;
      var elapsed := tick.after - start;
      if currentCount > 0 {
        if firstDiscoveryTime.None? {
          firstDiscoveryTime := Some(tick.after);
        }
        if currentCount == lastCount {
          if idleStartTime.None? {
            idleStartTime := Some(tick.after);
          }
          var idleDuration := tick.after - idleStartTime.value;
          if idleDuration >= QuietMs {
            exitPass, reason := k, Quiet;
            return;
          }
        } else {
          idleStartTime := None;
        }
      } else {
        idleStartTime := None;
        if buttonFound && elapsed >= EmptyWaitWithButtonMs {
          exitPass, reason := k, EmptyTimeout;
          return;
        }
        if !buttonFound && elapsed >= EmptyWaitWithoutButtonMs {
          exitPass, reason := k, EmptyTimeout;
          return;
        }
      }
      lastCount := currentCount;
      k := k + 1;
    }
    exitPass, reason := k, TimeUp;
  }

  /** A change in the number of URLs held restarts the quiet period from the next pass. */
  lemma {:induction false} RunStartIsAfterChange(start: int, ticks: seq<Tick>, k: nat, j: nat)
    requires !Steady(start, ticks, k) && j > k && forall i :: k < i <= j ==> Steady(start, ticks, i)
    ensures RunStart(start, ticks, j) == k + 1
    decreases j
  {
    if j > k + 1 {
      RunStartIsAfterChange(start, ticks, k, j - 1);
    }
  }

  // ---- analyzePostInTab ----

  /** `collectedMedia.add(u)` for each URL: a Set keeps the first occurrence, in insertion order. */
  function AddAll(seen: seq<string>, urls: seq<string>): seq<string>
    decreases |urls|
  {
    if urls == [] then seen
    else
      var s := AddAll(seen, urls[..|urls| - 1]);
      if urls[|urls| - 1] in s then s else s + [urls[|urls| - 1]]
  }

  lemma {:induction false} AddAllSpec(seen: seq<string>, urls: seq<string>)
    ensures var r := AddAll(seen, urls);
      |seen| <= |r| && r[..|seen|] == seen &&
      (NoDuplicates(seen) ==> NoDuplicates(r)) &&
      forall u :: u in r <==> u in seen || u in urls
    decreases |urls|
  {
    if urls != [] {
      AddAllSpec(seen, urls[..|urls| - 1]);
      var s := AddAll(seen, urls[..|urls| - 1]);
      var r := AddAll(seen, urls);
      assert urls == urls[..|urls| - 1] + [urls[|urls| - 1]];
      assert r[..|s|] == s;
      assert r[..|seen|] == s[..|seen|];
    }
  }

  /** One step's `result.forEach(u => collectedMedia.add(u))`. */
  method AddResult(collected0: seq<string>, result: seq<string>) returns (collectedMedia: seq<string>)
    ensures collectedMedia == AddAll(collected0, result)
  {
    collectedMedia := collected0;
    var i := 0;
    while i < |result|
      invariant i <= |result|
      invariant collectedMedia == AddAll(collected0, result[..i])
    {
      if result[i] !in collectedMedia {
        collectedMedia := collectedMedia + [result[i]];
      }
      assert result[..i + 1][..i] == result[..i];
      i := i + 1;
    }
    assert result[..i] == result;
  }

  /** The video step's URLs come first; the image step only adds URLs not already seen; none repeats. */
  lemma CollectedMediaSpec(video: seq<string>, image: seq<string>)
    ensures var v := AddAll([], video);
      var r := AddAll(v, image);
      |v| <= |r| && r[..|v|] == v && NoDuplicates(r) &&
      forall u :: u in r <==> u in video || u in image
  {
    AddAllSpec([], video);
    AddAllSpec(AddAll([], video), image);
  }

  const PostPage := "https://grok.com/imagine/post/"

  /** The tab opened: the post's URL when given, else the post page of its id. */
  function TargetUrl(postId: string, postUrl: string): string {
    if postUrl != "" then postUrl else PostPage + postId
  }

  /** Without a given URL the tab opens a page that resolves back to the post's id. */
  lemma TargetUrlNamesPost(postId: string)
    requires IsUuid(postId)
    ensures ExtractPostIdFromUrl(TargetUrl(postId, "")) == Some(Lower(postId))
  {
    PostPageParts();
    forall j ensures !UuidAt(PostPage, j) {
      NoUuidWithoutDash(PostPage, j);
    }
    forall j ensures !UuidAt("", j) {
      NoUuidWithoutDash("", j);
    }
    SoleUuid(PostPage, postId, "");
    var url := PostPage + postId + "";
    assert url == PostPage + postId;
    assert url[|PostPage|..|PostPage| + Length] == postId;
    ExtractPostIdOfSole(url, |PostPage|);
    ExtractPostIdFromUrlAgrees(url);
  }

  lemma PostPageParts()
    ensures '-' !in PostPage
    ensures PostPage == "https://grok.com/imagine/post" + "/"
  {
  }

  /** The `{url, id, type}` of one collected URL. */
  function ToItem(url: string, postId: string): AnalysisItem {
    AnalysisItem(url, ExtractPostIdFromUrl(url).GetOr(postId), if Contains(url, ".mp4") then "video" else "image")
  }

  /** `.filter(url => url && url.length > 5).map(...)`. */
  function MapResults(urls: seq<string>, postId: string): seq<AnalysisItem>
    decreases |urls|
  {
    if urls == [] then []
    else
      var rest := MapResults(urls[..|urls| - 1], postId);
      var u := urls[|urls| - 1];
      if |u| > 5 then rest + [ToItem(u, postId)] else rest
  }

  /**
   * Exactly the collected URLs longer than five characters are
   * reported, each typed by its `.mp4` and identified by its own post
   * id when it has one, else by the analysed post's.
   */
  lemma {:induction false} MapResultsSpec(urls: seq<string>, postId: string)
    ensures forall it :: it in MapResults(urls, postId) ==>
      it.url in urls && |it.url| > 5 && (it.kind == "video" <==> Contains(it.url, ".mp4")) &&
      it.id == ExtractPostIdFromUrl(it.url).GetOr(postId)
    ensures forall u :: u in urls && |u| > 5 ==> exists it :: it in MapResults(urls, postId) && it.url == u
    decreases |urls|
  {
    if urls != [] {
      MapResultsSpec(urls[..|urls| - 1], postId);
      assert urls == urls[..|urls| - 1] + [urls[|urls| - 1]];
      var u := urls[|urls| - 1];
      if |u| > 5 {
        assert ToItem(u, postId) in MapResults(urls, postId);
      }
    }
  }

  /**
   * `analyzePostInTab` after its tab work: the tab it opens and its
   * reply, built from what the video and image scrape steps returned
   * (a missing result adds nothing).
   */
  method AnalyzePostInTab(postId: string, postUrl: string, videoResult: Option<seq<string>>, imageResult: Option<seq<string>>)
    returns (targetUrl: string, reply: seq<AnalysisItem>)
    ensures targetUrl == TargetUrl(postId, postUrl)
    ensures reply == MapResults(AddAll(AddAll([], videoResult.GetOr([])), imageResult.GetOr([])), postId)
  {
    targetUrl := TargetUrl(postId, postUrl);
    var collectedMedia: seq<string> := [];
    if videoResult.Some? {
      collectedMedia := AddResult(collectedMedia, videoResult.value);
    }
    if imageResult.Some? {
      collectedMedia := AddResult(collectedMedia, imageResult.value);
    }
    reply := MapResults(collectedMedia, postId);
  }
}
