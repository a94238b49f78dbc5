/**
 * `MediaScanner` (js/scanner.js): the download scan and the unsave sweep.
 *
 * The scan runs a fixed number of rounds over the visible cards,
 * files static images straight into a URL-keyed map under a synthesised
 * URL, queues everything else for deep analysis, merges the analysis
 * replies without overwriting, and filters the map by the requested
 * mode. The page, the cancel flag and the analysis calls are inputs:
 * `rounds[k]` is the card list seen on scroll attempt `k` (no cards
 * after the last given round), `cancelled(p)` is the answer to the
 * `p`-th `isCancelled()` poll, and `analyze(id, url)` is the reply to a
 * `requestAnalysis` call.
 */
module MediaScanner {
  import opened Text
  import opened Wrappers
  import opened Dom
  import opened Utils
  import opened ItemClassifier
  import opened Quiescence
  import opened Polling

  /** `CONFIG.SCROLL_ATTEMPTS`. */
  const ScrollAttempts: nat := 3

  const StaticPrefix := "https://imagine-public.x.ai/imagine-public/images/"
  const StaticQuery := ".jpg?cache=1&dl=1"

  datatype MediaItem = MediaItem(url: string, filename: string)

  // ---- the `allMediaData` Map, as its entries in insertion order ----

  function Urls(m: seq<MediaItem>): (r: seq<string>)
    ensures |r| == |m| && forall k :: 0 <= k < |m| ==> r[k] == m[k].url
  {
    seq(|m|, k requires 0 <= k < |m| => m[k].url)
  }

  /** `map.has(url)`. */
  predicate HasUrl(m: seq<MediaItem>, url: string) { url in Urls(m) }

  /** A Map has one entry per key. */
  predicate ValidMap(m: seq<MediaItem>) { NoDuplicates(Urls(m)) }

  function IndexOfUrl(m: seq<MediaItem>, url: string, from: nat): (r: Option<nat>)
    decreases |m| - from
    ensures r.Some? ==> from <= r.value < |m| && m[r.value].url == url
    ensures r.None? ==> forall k :: from <= k < |m| ==> m[k].url != url
  {
    if from >= |m| then None else if m[from].url == url then Some(from) else IndexOfUrl(m, url, from + 1)
  }

  /** `map.set(e.url, e)`: an existing key keeps its place and takes the new value; a new key goes last. */
  function Put(m: seq<MediaItem>, e: MediaItem): (r: seq<MediaItem>)
    ensures Urls(r) == if HasUrl(m, e.url) then Urls(m) else Urls(m) + [e.url]
    ensures e in r && forall x :: x in r ==> x == e || x in m
    ensures ValidMap(m) ==> ValidMap(r)
  {
    match IndexOfUrl(m, e.url, 0)
    case Some(k) =>
      assert Urls(m[k := e]) == Urls(m);
      m[k := e]
    case None =>
      assert Urls(m + [e]) == Urls(m) + [e.url];
      m + [e]
  }

  // ---- phase 1: scroll and identify ----

  /** `Utils.extractPostId(postData.id)` as a template literal prints it: "null" when there is none. */
  function UuidText(id: string): string {
    match ExtractPostId(id)
    case Some(u) => u
    case None => "null"
  }

  /** The entry a static card files under its synthesised URL. */
  function StaticEntry(id: string): MediaItem {
    var uuid := UuidText(id);
    MediaItem(StaticPrefix + uuid + StaticQuery, uuid + ".jpg")
  }

  /** The locals of phase 1: `allMediaData`, `complexPostsToAnalyze`, `processedPostIds`, `processedCardElements`. */
  datatype Phase1 = Phase1(media: seq<MediaItem>, queue: seq<PostData>, ids: set<string>, cards: set<nat>)

  const Start := Phase1([], [], {}, {})

  /** One pass of the inner `for` loop over a card. */
  function VisitCard(st: Phase1, card: Card, origin: string): Phase1 {
    match ExtractPostDataFromElement(card.links, card.image, origin)
    case None => st
    case Some(pd) =>
      if card.identity in st.cards then st
      else
        var classification := Classify(card);
        var st1 := st.(cards := st.cards + {card.identity});
        if pd.id in st1.ids then st1
        else
          var st2 := st1.(ids := st1.ids + {pd.id});
          if classification.kind == StaticImage then st2.(media := Put(st2.media, StaticEntry(pd.id)))
          else st2.(queue := st2.queue + [pd])
  }

  function VisitCards(st: Phase1, cards: seq<Card>, origin: string): Phase1
    decreases |cards|
  {
    if cards == [] then st
    else VisitCard(VisitCards(st, cards[..|cards| - 1], origin), cards[|cards| - 1], origin)
  }

  /** The cards `querySelectorAll` returns on attempt `k`. */
  function Visible(rounds: seq<seq<Card>>, k: nat): seq<Card> {
    if k < |rounds| then rounds[k] else []
  }

  /** The phase-1 state after `n` attempts. */
  function Identify(rounds: seq<seq<Card>>, origin: string, n: nat): Phase1 {
    if n == 0 then Start else VisitCards(Identify(rounds, origin, n - 1), Visible(rounds, n - 1), origin)
  }

  /**
   * What phase 1 keeps true: one map entry per URL, every entry a
   * static entry of a recorded id, every queued post a recorded id, no
   * id queued twice.
   */
  predicate Phase1Valid(st: Phase1) {
    ValidMap(st.media) &&
    (forall x :: x in st.media ==> exists id :: id in st.ids && x == StaticEntry(id)) &&
    (forall k :: 0 <= k < |st.queue| ==> st.queue[k].id in st.ids) &&
    (forall j, k :: 0 <= j < k < |st.queue| ==> st.queue[j].id != st.queue[k].id)
  }

  lemma VisitCardKeepsValid(st: Phase1, card: Card, origin: string)
    requires Phase1Valid(st)
    ensures Phase1Valid(VisitCard(st, card, origin))
  {
  }

  /** A card element already seen does nothing: it is classified at most once. */
  lemma RevisitedCardIsIgnored(st: Phase1, card: Card, origin: string)
    requires card.identity in st.cards
    ensures VisitCard(st, card, origin) == st
  {
  }

  /** A post id already recorded is neither queued nor filed again. */
  lemma RecordedIdIsIgnored(st: Phase1, card: Card, origin: string)
    requires ExtractPostDataFromElement(card.links, card.image, origin).Some?
    requires ExtractPostDataFromElement(card.links, card.image, origin).value.id in st.ids
    ensures var st' := VisitCard(st, card, origin);
      st'.media == st.media && st'.queue == st.queue && st'.ids == st.ids
  {
  }

  /** A fresh card with a fresh id is filed (static) or queued last (otherwise). */
  lemma FreshCardIsRecorded(st: Phase1, card: Card, origin: string, pd: PostData)
    requires ExtractPostDataFromElement(card.links, card.image, origin) == Some(pd)
    requires card.identity !in st.cards && pd.id !in st.ids
    ensures var st' := VisitCard(st, card, origin);
      st'.ids == st.ids + {pd.id} && st'.cards == st.cards + {card.identity} &&
      if Classify(card).kind == StaticImage then
        st'.queue == st.queue && StaticEntry(pd.id) in st'.media &&
        HasUrl(st'.media, StaticPrefix + UuidText(pd.id) + StaticQuery)
      else
        st'.media == st.media && st'.queue == st.queue + [pd]
  {
    var e := StaticEntry(pd.id);
    if Classify(card).kind == StaticImage {
      var m := Put(st.media, e);
      assert e in m;
      var k :| 0 <= k < |m| && m[k] == e;
      assert Urls(m)[k] == e.url;
    }
  }

  lemma {:induction false} VisitCardsKeepsValid(st: Phase1, cards: seq<Card>, origin: string)
    requires Phase1Valid(st)
    ensures Phase1Valid(VisitCards(st, cards, origin))
    decreases |cards|
  {
    if cards != [] {
      VisitCardsKeepsValid(st, cards[..|cards| - 1], origin);
      VisitCardKeepsValid(VisitCards(st, cards[..|cards| - 1], origin), cards[|cards| - 1], origin);
    }
  }

  lemma {:induction false} IdentifyValid(rounds: seq<seq<Card>>, origin: string, n: nat)
    ensures Phase1Valid(Identify(rounds, origin, n))
  {
    if n > 0 {
      IdentifyValid(rounds, origin, n - 1);
      VisitCardsKeepsValid(Identify(rounds, origin, n - 1), Visible(rounds, n - 1), origin);
    }
  }

  /** Phase 1 is a fixed number of rounds: what the page shows after them never matters. */
  lemma {:induction false} IdentifyIgnoresLaterRounds(rounds: seq<seq<Card>>, more: seq<seq<Card>>, origin: string, n: nat)
    requires n <= |rounds|
    ensures Identify(rounds + more, origin, n) == Identify(rounds, origin, n)
  {
    if n > 0 {
      IdentifyIgnoresLaterRounds(rounds, more, origin, n - 1);
      assert Visible(rounds + more, n - 1) == Visible(rounds, n - 1);
    }
  }

  // ---- phase 2: deep analysis of the queued posts ----

  /** The filename a reply item is filed under: `{id}.mp4` for a video, `{id}.jpg` otherwise. */
  function Filename(item: AnalysisItem): (f: string)
    ensures EndsWith(f, ".mp4") <==> item.kind == "video"
  {
    item.id + (if item.kind == "video" then ".mp4" else ".jpg")
  }

  /** One `results.forEach` step: an item with a URL not yet in the map is added last; nothing is overwritten. */
  function MergeItem(m: seq<MediaItem>, item: AnalysisItem): seq<MediaItem> {
    if item.url != "" && !HasUrl(m, item.url) then m + [MediaItem(item.url, Filename(item))] else m
  }

  function MergeAll(m: seq<MediaItem>, items: seq<AnalysisItem>): seq<MediaItem>
    decreases |items|
  {
    if items == [] then m else MergeItem(MergeAll(m, items[..|items| - 1]), items[|items| - 1])
  }

  /** The effect of one reply: a rejection (caught and logged) changes nothing. */
  function MergeReply(m: seq<MediaItem>, reply: Analysis): seq<MediaItem> {
    match reply
    case Rejected => m
    case Resolved(items) => MergeAll(m, items)
  }

  /** The map after the first `n` queued posts were analysed. */
  function AfterAnalysis(m: seq<MediaItem>, queue: seq<PostData>, analyze: (string, string) -> Analysis, n: nat): seq<MediaItem>
    requires n <= |queue|
  {
    if n == 0 then m
    else
      var pd := queue[n - 1];
      MergeReply(AfterAnalysis(m, queue, analyze, n - 1), analyze(pd.id, pd.url))
  }

  /** One step adds the item last exactly when its URL is non-empty and new. */
  lemma MergeItemSpec(p: seq<MediaItem>, item: AnalysisItem)
    ensures var r := MergeItem(p, item);
      |p| <= |r| <= |p| + 1 && r[..|p|] == p && (ValidMap(p) ==> ValidMap(r)) &&
      (|r| == |p| + 1 <==> item.url != "" && !HasUrl(p, item.url)) &&
      (|r| == |p| + 1 ==> r[|p|] == MediaItem(item.url, Filename(item))) &&
      Urls(r) == (if |r| == |p| then Urls(p) else Urls(p) + [item.url])
  {
    var r := MergeItem(p, item);
    if item.url != "" && !HasUrl(p, item.url) {
      assert Urls(r) == Urls(p) + [item.url];
      if ValidMap(p) {
        NoDuplicatesAppend(Urls(p), item.url);
      }
    }
  }

  /** Merging keeps every old entry in place and one entry per URL. */
  lemma {:induction false} MergeAllExtends(m: seq<MediaItem>, items: seq<AnalysisItem>)
    ensures var r := MergeAll(m, items);
      |m| <= |r| && r[..|m|] == m && (ValidMap(m) ==> ValidMap(r))
    decreases |items|
  {
    if items != [] {
      var init := items[..|items| - 1];
      MergeAllExtends(m, init);
      var p := MergeAll(m, init);
      MergeItemSpec(p, items[|items| - 1]);
      var r := MergeAll(m, items);
      assert r[..|m|] == r[..|p|][..|m|];
    }
  }

  /** Every item with a URL has that URL in the merged map. */
  lemma {:induction false} MergeAllCovers(m: seq<MediaItem>, items: seq<AnalysisItem>)
    ensures forall it :: it in items && it.url != "" ==> HasUrl(MergeAll(m, items), it.url)
    decreases |items|
  {
    if items != [] {
      var init := items[..|items| - 1];
      var last := items[|items| - 1];
      MergeAllCovers(m, init);
      var p := MergeAll(m, init);
      var r := MergeAll(m, items);
      MergeItemSpec(p, last);
      forall it | it in items && it.url != "" ensures HasUrl(r, it.url) {
        if it != last {
          assert it in init;
          assert it.url in Urls(p);
        }
      }
    }
  }

  /** The entry `e` is the one some item of `items` with a URL absent from `m` is filed under. */
  predicate NewEntryFrom(m: seq<MediaItem>, items: seq<AnalysisItem>, e: MediaItem) {
    exists it :: it in items && it.url != "" && !HasUrl(m, it.url) && e == MediaItem(it.url, Filename(it))
  }

  /** Every entry past the old ones comes from an item whose URL the old map lacked. */
  lemma {:induction false} MergeAllAddsOnlyNew(m: seq<MediaItem>, items: seq<AnalysisItem>)
    ensures var r := MergeAll(m, items);
      forall k :: |m| <= k < |r| ==> NewEntryFrom(m, items, r[k])
    decreases |items|
  {
    if items != [] {
      var init := items[..|items| - 1];
      var last := items[|items| - 1];
      MergeAllAddsOnlyNew(m, init);
      MergeAllExtends(m, init);
      var p := MergeAll(m, init);
      var r := MergeAll(m, items);
      MergeItemSpec(p, last);
      forall k | |m| <= k < |r| ensures NewEntryFrom(m, items, r[k]) {
        if k < |p| {
          assert NewEntryFrom(m, init, p[k]);
          var it :| it in init && it.url != "" && !HasUrl(m, it.url) && p[k] == MediaItem(it.url, Filename(it));
          assert r[k] == p[k];
          assert it in items;
        } else {
          ExtensionKeepsUrls(m, p);
          assert !HasUrl(m, last.url);
          assert last in items;
        }
      }
    }
  }

  /** Merging keeps every old entry in place, adds only new URLs, and adds every new URL it meets. */
  lemma MergeAllSpec(m: seq<MediaItem>, items: seq<AnalysisItem>)
    ensures var r := MergeAll(m, items);
      |m| <= |r| && r[..|m|] == m &&
      (ValidMap(m) ==> ValidMap(r)) &&
      (forall it :: it in items && it.url != "" ==> HasUrl(r, it.url)) &&
      (forall k :: |m| <= k < |r| ==> NewEntryFrom(m, items, r[k]))
  {
    MergeAllExtends(m, items);
    MergeAllCovers(m, items);
    MergeAllAddsOnlyNew(m, items);
  }

  /** An entry list that extends another keeps all of its URLs. */
  lemma ExtensionKeepsUrls(p: seq<MediaItem>, r: seq<MediaItem>)
    requires |p| <= |r| && r[..|p|] == p
    ensures forall u :: HasUrl(p, u) ==> HasUrl(r, u)
  {
    forall u | HasUrl(p, u) ensures HasUrl(r, u) {
      var k :| 0 <= k < |p| && Urls(p)[k] == u;
      assert Urls(r)[k] == u;
    }
  }

  lemma MergeReplySpec(p: seq<MediaItem>, reply: Analysis)
    ensures var r := MergeReply(p, reply);
      |p| <= |r| && r[..|p|] == p && (ValidMap(p) ==> ValidMap(r)) &&
      (forall u :: HasUrl(p, u) ==> HasUrl(r, u)) &&
      (reply.Resolved? ==> forall it :: it in reply.items && it.url != "" ==> HasUrl(r, it.url))
  {
    if reply.Resolved? {
      MergeAllSpec(p, reply.items);
    }
    ExtensionKeepsUrls(p, MergeReply(p, reply));
  }

  /** Analysis never disturbs what is already filed and keeps one entry per URL. */
  lemma {:induction false} AfterAnalysisExtends(m: seq<MediaItem>, queue: seq<PostData>, analyze: (string, string) -> Analysis, n: nat)
    requires n <= |queue|
    ensures var r := AfterAnalysis(m, queue, analyze, n);
      |m| <= |r| && r[..|m|] == m && (ValidMap(m) ==> ValidMap(r))
  {
    if n > 0 {
      AfterAnalysisExtends(m, queue, analyze, n - 1);
      var p := AfterAnalysis(m, queue, analyze, n - 1);
      MergeReplySpec(p, analyze(queue[n - 1].id, queue[n - 1].url));
      var r := AfterAnalysis(m, queue, analyze, n);
      assert r[..|m|] == r[..|p|][..|m|];
    }
  }

  /**
   * A post whose analysis resolved has all its URLs filed, whatever
   * happened to the analyses of the posts before and after it.
   */
  lemma {:induction false} AfterAnalysisCovers(m: seq<MediaItem>, queue: seq<PostData>, analyze: (string, string) -> Analysis,
                                               n: nat, j: nat, it: AnalysisItem)
    requires j < n <= |queue|
    requires analyze(queue[j].id, queue[j].url).Resolved? && it in analyze(queue[j].id, queue[j].url).items && it.url != ""
    ensures HasUrl(AfterAnalysis(m, queue, analyze, n), it.url)
  {
    var p := AfterAnalysis(m, queue, analyze, n - 1);
    MergeReplySpec(p, analyze(queue[n - 1].id, queue[n - 1].url));
    if j < n - 1 {
      AfterAnalysisCovers(m, queue, analyze, n - 1, j, it);
    }
  }

  // ---- the final mode filter ----

  /** Whether the mode keeps an entry: by its filename's (case-insensitive) `.mp4` ending. */
  predicate Keeps(mode: string, x: MediaItem) {
    if mode == "saveImages" then !EndsWithIgnoringCase(x.filename, ".mp4")
    else if mode == "saveVideos" then EndsWithIgnoringCase(x.filename, ".mp4")
    else true
  }

  function FilterMode(mode: string, xs: seq<MediaItem>): seq<MediaItem>
    decreases |xs|
  {
    if xs == [] then []
    else FilterMode(mode, xs[..|xs| - 1]) + (if Keeps(mode, xs[|xs| - 1]) then [xs[|xs| - 1]] else [])
  }

  /** The filter keeps exactly the entries the mode admits, in map order, one per URL. */
  lemma {:induction false} FilterModeSpec(mode: string, xs: seq<MediaItem>)
    ensures forall x :: x in FilterMode(mode, xs) <==> x in xs && Keeps(mode, x)
    ensures ValidMap(xs) ==> ValidMap(FilterMode(mode, xs))
    ensures mode != "saveImages" && mode != "saveVideos" ==> FilterMode(mode, xs) == xs
    decreases |xs|
  {
    if xs != [] {
      var init := xs[..|xs| - 1];
      var last := xs[|xs| - 1];
      FilterModeSpec(mode, init);
      assert xs == init + [last];
      var f := FilterMode(mode, init);
      var r := FilterMode(mode, xs);
      if ValidMap(xs) {
        assert Urls(xs) == Urls(init) + [last.url];
        assert ValidMap(init);
        if Keeps(mode, last) {
          assert Urls(r) == Urls(f) + [last.url];
          forall k | 0 <= k < |f| ensures f[k].url != last.url {
            assert f[k] in init;
            var j :| 0 <= j < |init| && init[j] == f[k];
            assert Urls(xs)[j] == f[k].url;
          }
        }
      }
    }
  }

  // ---- the whole scan ----

  datatype ScanResult = Done(media: seq<MediaItem>) | Aborted

  /** `scan(type)`: aborted when a phase-1 poll reports a cancel; otherwise the filtered map. */
  function ScanSpec(mode: string, rounds: seq<seq<Card>>, origin: string, cancelled: nat -> bool,
                    analyze: (string, string) -> Analysis): ScanResult
  {
    if exists k :: 0 <= k < ScrollAttempts && cancelled(k) then Aborted
    else
      var st := Identify(rounds, origin, ScrollAttempts);
      var analysed := FirstCancel(cancelled, ScrollAttempts, |st.queue|, 0);
      Done(FilterMode(mode, AfterAnalysis(st.media, st.queue, analyze, analysed)))
  }

  /** The inner `for` loop of one phase-1 attempt over the visible cards. */
  method IdentifyVisible(cards: seq<Card>, origin: string,
                         media0: seq<MediaItem>, queue0: seq<PostData>, postIds0: set<string>, cardIds0: set<nat>)
    returns (media: seq<MediaItem>, queue: seq<PostData>, postIds: set<string>, cardIds: set<nat>)
    ensures Phase1(media, queue, postIds, cardIds) == VisitCards(Phase1(media0, queue0, postIds0, cardIds0), cards, origin)
  {
    media, queue, postIds, cardIds := media0, queue0, postIds0, cardIds0;
    var idx := 0;
    while idx < |cards|
      invariant idx <= |cards|
      invariant Phase1(media, queue, postIds, cardIds) == VisitCards(Phase1(media0, queue0, postIds0, cardIds0), cards[..idx], origin)
    {
      var card := cards[idx];
      var postData := ExtractPostDataFromElement(card.links, card.image, origin);
      if postData.Some? && card.identity !in cardIds {
        var classification := Classify(card);
        cardIds := cardIds + {card.identity};
        if postData.value.id !in postIds {
          postIds := postIds + {postData.value.id};
          if classification.kind == StaticImage {
            media := Put(media, StaticEntry(postData.value.id));
          } else {
            queue := queue + [postData.value];
          }
        }
      }
      assert cards[..idx + 1][..idx] == cards[..idx];
      idx := idx + 1;
    }
    assert cards[..idx] == cards;
  }

  /** The `results.forEach` callback over one analysis reply. */
  method MergeResults(media0: seq<MediaItem>, items: seq<AnalysisItem>) returns (media: seq<MediaItem>)
    ensures media == MergeAll(media0, items)
  {
    media := media0;
    var j := 0;
    while j < |items|
      invariant j <= |items|
      invariant media == MergeAll(media0, items[..j])
    {
      var item := items[j];
      if item.url != "" {
        var filename := Filename(item);
        if !HasUrl(media, item.url) {
          media := media + [MediaItem(item.url, filename)];
        }
      }
      assert items[..j + 1][..j] == items[..j];
      j := j + 1;
    }
    assert items[..j] == items;
  }

  method Scan(mode: string, rounds: seq<seq<Card>>, origin: string, cancelled: nat -> bool,
              analyze: (string, string) -> Analysis) returns (r: ScanResult)
    ensures r == ScanSpec(mode, rounds, origin, cancelled, analyze)
  {
    var media: seq<MediaItem> := [];
    var queue: seq<PostData> := [];
    var postIds: set<string> := {};
    var cardIds: set<nat> := {};

    var attempts: nat := 0;
    while attempts < ScrollAttempts
      invariant attempts <= ScrollAttempts
      invariant forall k :: 0 <= k < attempts ==> !cancelled(k)
      invariant Phase1(media, queue, postIds, cardIds) == Identify(rounds, origin, attempts)
    {
      if cancelled(attempts) {
        return Aborted;
      }
      media, queue, postIds, cardIds := IdentifyVisible(Visible(rounds, attempts), origin, media, queue, postIds, cardIds);
      attempts := attempts + 1;
    }

    ghost var filed := media;
    var i := 0;
    while i < |queue|
      invariant i <= |queue|
      invariant forall p :: ScrollAttempts <= p < ScrollAttempts + i ==> !cancelled(p)
      invariant media == AfterAnalysis(filed, queue, analyze, i)
    {
      if cancelled(ScrollAttempts + i) {
        break;
      }
      var results := analyze(queue[i].id, queue[i].url);
      if results.Resolved? {
        media := MergeResults(media, results.items);
      }
      assert media == MergeReply(AfterAnalysis(filed, queue, analyze, i), results);
      i := i + 1;
    }
    assert i == FirstCancel(cancelled, ScrollAttempts, |queue|, 0);
    r := Done(FilterMode(mode, media));
  }

  /** A finished scan lists each URL once, and every entry is one the mode admits. */
  lemma ScanResultSpec(mode: string, rounds: seq<seq<Card>>, origin: string, cancelled: nat -> bool,
                       analyze: (string, string) -> Analysis)
    requires ScanSpec(mode, rounds, origin, cancelled, analyze).Done?
    ensures var r := ScanSpec(mode, rounds, origin, cancelled, analyze).media;
      ValidMap(r) && forall x :: x in r ==> Keeps(mode, x)
  {
    var st := Identify(rounds, origin, ScrollAttempts);
    IdentifyValid(rounds, origin, ScrollAttempts);
    var analysed := FirstCancel(cancelled, ScrollAttempts, |st.queue|, 0);
    AfterAnalysisExtends(st.media, st.queue, analyze, analysed);
    FilterModeSpec(mode, AfterAnalysis(st.media, st.queue, analyze, analysed));
  }

  /** Every static image filed in phase 1 survives into an unfiltered result, at its place. */
  lemma ScanKeepsStaticEntries(mode: string, rounds: seq<seq<Card>>, origin: string, cancelled: nat -> bool,
                               analyze: (string, string) -> Analysis)
    requires mode != "saveImages" && mode != "saveVideos"
    requires ScanSpec(mode, rounds, origin, cancelled, analyze).Done?
    ensures var filed := Identify(rounds, origin, ScrollAttempts).media;
      var r := ScanSpec(mode, rounds, origin, cancelled, analyze).media;
      |filed| <= |r| && r[..|filed|] == filed
  {
    var st := Identify(rounds, origin, ScrollAttempts);
    var analysed := FirstCancel(cancelled, ScrollAttempts, |st.queue|, 0);
    AfterAnalysisExtends(st.media, st.queue, analyze, analysed);
    FilterModeSpec(mode, AfterAnalysis(st.media, st.queue, analyze, analysed));
  }

  /** Scroll attempts beyond the third never influence the scan. */
  lemma ScanIgnoresLaterRounds(mode: string, rounds: seq<seq<Card>>, more: seq<seq<Card>>, origin: string,
                               cancelled: nat -> bool, analyze: (string, string) -> Analysis)
    requires |rounds| >= ScrollAttempts
    ensures ScanSpec(mode, rounds + more, origin, cancelled, analyze) == ScanSpec(mode, rounds, origin, cancelled, analyze)
  {
    IdentifyIgnoresLaterRounds(rounds, more, origin, ScrollAttempts);
  }

  // ---- the unsave sweep ----

  /** One observed sweep round: the list items visible, and the container's `scrollHeight` after them. */
  datatype SweepRound = SweepRound(cards: seq<Card>, scrollHeight: int)

  datatype SweepExit = Sweeping | CancelledExit | QuietExit

  /**
   * The sweep's state: `totalProcessed`, `processedIds`,
   * `unchangedCount`, `lastScrollHeight` and `actedOnThisTurn` of the
   * source, the `unlikePost` calls made, and, for the proofs, the
   * number of clicks, the polls used and the heights read.
   */
  datatype Sweep = Sweep(total: nat, clicks: nat, calls: seq<string>, processed: set<string>, poll: nat,
                         heights: seq<int>, lastHeight: int, unchangedRounds: nat, acted: nat, exit: SweepExit)

  const SweepStart := Sweep(0, 0, [], {}, 0, [], 0, 0, 0, Sweeping)

  /** The work on one card: click its unsave button, else unlike a post id not yet processed. */
  function SweepCard(s: Sweep, card: Card, origin: string): Sweep {
    var clicked := card.hasUnsaveButton;
    var s1 := if clicked then s.(total := s.total + 1, clicks := s.clicks + 1, acted := s.acted + 1) else s;
    match ExtractPostDataFromElement(card.links, card.image, origin)
    case Some(pd) =>
      if pd.id != "" && pd.id !in s1.processed then
        var s2 := s1.(processed := s1.processed + {pd.id});
        if !clicked then s2.(calls := s2.calls + [pd.id], total := s2.total + 1, acted := s2.acted + 1) else s2
      else s1
    case None => s1
  }

  /** The inner loop from card `i`: a cancel poll before each card, a cancel ends the loop. */
  function SweepCards(s: Sweep, cards: seq<Card>, i: nat, cancelled: nat -> bool, origin: string): (r: Sweep)
    requires i <= |cards|
    decreases |cards| - i
    ensures r.heights == s.heights && r.lastHeight == s.lastHeight && r.unchangedRounds == s.unchangedRounds && r.exit == s.exit
    ensures i == |cards| ==> r == s
  {
    if i == |cards| then s
    else if cancelled(s.poll) then s.(poll := s.poll + 1)
    else SweepCards(SweepCard(s.(poll := s.poll + 1), cards[i], origin), cards, i + 1, cancelled, origin)
  }

  /** The end of a round: the height comparison and the exit test. */
  function EndRound(s: Sweep, h: int): Sweep {
    var s1 := if h == s.lastHeight then s.(unchangedRounds := s.unchangedRounds + 1) else s.(unchangedRounds := 0, lastHeight := h);
    var s2 := s1.(heights := s1.heights + [h]);
    s2.(exit := if s2.acted == 0 && s2.unchangedRounds >= 2 then QuietExit else Sweeping)
  }

  function FinalHeight(rounds: seq<SweepRound>): int {
    if rounds == [] then 0 else rounds[|rounds| - 1].scrollHeight
  }

  /** Past the observed rounds the page shows no more items and its height stays put. */
  function RoundCards(rounds: seq<SweepRound>, r: nat): seq<Card> {
    if r < |rounds| then rounds[r].cards else []
  }

  function RoundHeight(rounds: seq<SweepRound>, r: nat): int {
    if r < |rounds| then rounds[r].scrollHeight else FinalHeight(rounds)
  }

  /** What holds before round `r`; it bounds the rounds left (the sweep ends at most two rounds after the page does). */
  predicate SweepReady(rounds: seq<SweepRound>, s: Sweep, r: nat) {
    r <= |rounds| + 1 && (r >= |rounds| ==> s.lastHeight == FinalHeight(rounds) && s.unchangedRounds >= r - |rounds|)
  }

  /** One pass of the `while (!isCancelled())` body, after the poll: the cards, then the end of the round. */
  function PlayRound(s: Sweep, rounds: seq<SweepRound>, r: nat, cancelled: nat -> bool, origin: string): Sweep {
    EndRound(SweepCards(s.(poll := s.poll + 1, acted := 0), RoundCards(rounds, r), 0, cancelled, origin), RoundHeight(rounds, r))
  }

  /** A round that does not end the sweep leaves it ready for the next one. */
  lemma PlayRoundReady(s: Sweep, rounds: seq<SweepRound>, r: nat, cancelled: nat -> bool, origin: string)
    requires SweepReady(rounds, s, r)
    ensures var s2 := PlayRound(s, rounds, r, cancelled, origin);
      s2.exit != QuietExit ==> SweepReady(rounds, s2, r + 1)
  {
    var s0 := s.(poll := s.poll + 1, acted := 0);
    if r >= |rounds| {
      assert SweepCards(s0, RoundCards(rounds, r), 0, cancelled, origin) == s0;
    }
  }

  /** The `while (!isCancelled())` loop from round `r` on. */
  function SweepFrom(s: Sweep, rounds: seq<SweepRound>, r: nat, cancelled: nat -> bool, origin: string): Sweep
    requires SweepReady(rounds, s, r)
    decreases |rounds| + 1 - r
  {
    if cancelled(s.poll) then s.(poll := s.poll + 1, exit := CancelledExit)
    else
      var s2 := PlayRound(s, rounds, r, cancelled, origin);
      if s2.exit == QuietExit then s2
      else
        PlayRoundReady(s, rounds, r, cancelled, origin);
        SweepFrom(s2, rounds, r + 1, cancelled, origin)
  }

  /**
   * One unfolding of the sweep loop at a poll that does not cancel: the
   * round's cards and end give the next state, which either is the
   * result (a quiet exit) or is where the loop goes on.
   */
  lemma SweepFromStep(s: Sweep, played: Sweep, rounds: seq<SweepRound>, r: nat, cancelled: nat -> bool, origin: string)
    requires SweepReady(rounds, s, r) && !cancelled(s.poll)
    requires played == SweepCards(s.(poll := s.poll + 1, acted := 0), RoundCards(rounds, r), 0, cancelled, origin)
    ensures var next := EndRound(played, RoundHeight(rounds, r));
      (next.exit == QuietExit ==> SweepFrom(s, rounds, r, cancelled, origin) == next) &&
      (next.exit != QuietExit ==>
         next.exit == Sweeping && SweepReady(rounds, next, r + 1) &&
         SweepFrom(s, rounds, r, cancelled, origin) == SweepFrom(next, rounds, r + 1, cancelled, origin))
  {
    PlayRoundReady(s, rounds, r, cancelled, origin);
  }

  /**
   * What the sweep keeps true: every action is a click or an unlike
   * call, no post is unliked twice, and the unchanged counter is the
   * one the heights read so far determine.
   */
  predicate SweepValid(s: Sweep) {
    s.total == s.clicks + |s.calls| && NoDuplicates(s.calls) &&
    (forall k :: 0 <= k < |s.calls| ==> s.calls[k] in s.processed) &&
    s.lastHeight == Prev(s.heights, |s.heights|) && s.unchangedRounds == Unchanged(s.heights)
  }

  /** The API is called for a card exactly when it has no unsave button and a new, non-empty post id. */
  lemma SweepCardCallsIff(s: Sweep, card: Card, origin: string)
    ensures var pd := ExtractPostDataFromElement(card.links, card.image, origin);
      var s' := SweepCard(s, card, origin);
      (s'.calls != s.calls <==> !card.hasUnsaveButton && pd.Some? && pd.value.id != "" && pd.value.id !in s.processed) &&
      (s'.calls != s.calls ==> s'.calls == s.calls + [pd.value.id])
  {
    var s' := SweepCard(s, card, origin);
    if s'.calls != s.calls {
      assert |s'.calls| == |s.calls| + 1;
    }
  }

  lemma SweepCardKeepsValid(s: Sweep, card: Card, origin: string)
    requires SweepValid(s)
    ensures var s' := SweepCard(s, card, origin);
      SweepValid(s') && s'.acted - s.acted == s'.total - s.total && s'.heights == s.heights
  {
  }

  lemma {:induction false} SweepCardsKeepsValid(s: Sweep, cards: seq<Card>, i: nat, cancelled: nat -> bool, origin: string)
    requires i <= |cards| && SweepValid(s)
    ensures var r := SweepCards(s, cards, i, cancelled, origin);
      SweepValid(r) && r.acted - s.acted == r.total - s.total
    decreases |cards| - i
  {
    if i < |cards| && !cancelled(s.poll) {
      var s0 := s.(poll := s.poll + 1);
      SweepCardKeepsValid(s0, cards[i], origin);
      SweepCardsKeepsValid(SweepCard(s0, cards[i], origin), cards, i + 1, cancelled, origin);
    }
  }

  lemma EndRoundKeepsValid(s: Sweep, h: int)
    requires SweepValid(s)
    ensures var s' := EndRound(s, h);
      SweepValid(s') && s'.heights == s.heights + [h] && s'.acted == s.acted && s'.total == s.total
  {
    UnchangedStep(s.heights, h);
  }

  /** A round keeps the sweep's invariant; it ends the sweep only when it acted on nothing and two heights repeated. */
  lemma PlayRoundSpec(s: Sweep, rounds: seq<SweepRound>, r: nat, cancelled: nat -> bool, origin: string)
    requires SweepValid(s)
    ensures var s2 := PlayRound(s, rounds, r, cancelled, origin);
      SweepValid(s2) && (s2.exit == QuietExit <==> s2.acted == 0 && Unchanged(s2.heights) >= 2)
  {
    var s0 := s.(poll := s.poll + 1, acted := 0);
    SweepCardsKeepsValid(s0, RoundCards(rounds, r), 0, cancelled, origin);
    EndRoundKeepsValid(SweepCards(s0, RoundCards(rounds, r), 0, cancelled, origin), RoundHeight(rounds, r));
  }

  /** The sweep ends either on a cancel poll, or after a round that acted on nothing while the height had settled. */
  lemma {:induction false} SweepFromSpec(s: Sweep, rounds: seq<SweepRound>, r: nat, cancelled: nat -> bool, origin: string)
    requires SweepReady(rounds, s, r) && SweepValid(s)
    ensures var res := SweepFrom(s, rounds, r, cancelled, origin);
      SweepValid(res) && res.exit != Sweeping &&
      (res.exit == CancelledExit ==> res.poll > 0 && cancelled(res.poll - 1)) &&
      (res.exit == QuietExit ==> res.acted == 0 && Unchanged(res.heights) >= 2)
    decreases |rounds| + 1 - r
  {
    if !cancelled(s.poll) {
      PlayRoundSpec(s, rounds, r, cancelled, origin);
      var s2 := PlayRound(s, rounds, r, cancelled, origin);
      if s2.exit != QuietExit {
        PlayRoundReady(s, rounds, r, cancelled, origin);
        SweepFromSpec(s2, rounds, r + 1, cancelled, origin);
      }
    }
  }

  /**
   * The whole sweep, from the start: every processed item is a click or
   * one `unlikePost` call, no post is unliked twice, and it ends on a
   * cancel or once a round did nothing after the height settled.
   */
  lemma SweepSpec(rounds: seq<SweepRound>, cancelled: nat -> bool, origin: string)
    ensures var res := SweepFrom(SweepStart, rounds, 0, cancelled, origin);
      res.total == res.clicks + |res.calls| && NoDuplicates(res.calls) && res.exit != Sweeping &&
      (res.exit == CancelledExit ==> res.poll > 0 && cancelled(res.poll - 1)) &&
      (res.exit == QuietExit ==> res.acted == 0 && Unchanged(res.heights) >= 2)
  {
    SweepFromSpec(SweepStart, rounds, 0, cancelled, origin);
  }

  /** A quiet exit means the last two heights read each equal the value recorded before them. */
  lemma QuietExitMeansSettled(s: Sweep)
    requires SweepValid(s) && Unchanged(s.heights) >= 2
    ensures |s.heights| >= 2 && s.heights[|s.heights| - 1] == s.heights[|s.heights| - 2] &&
      s.heights[|s.heights| - 2] == Prev(s.heights, |s.heights| - 2)
  {
    UnchangedIffStable(s.heights, 2);
  }

  /**
   * The inner `for` loop of one sweep round over the visible items,
   * starting from the counters `total0`, `calls0`, `processed0` and the
   * poll index `poll0`; it returns them updated and the round's
   * `actedOnThisTurn`.
   */
  method UnsaveVisible(cards: seq<Card>, origin: string, cancelled: nat -> bool,
                       total0: nat, calls0: seq<string>, processed0: set<string>, poll0: nat,
                       ghost clicks0: nat, ghost heights: seq<int>, ghost lastHeight: int, ghost unchangedRounds: nat)
    returns (total: nat, calls: seq<string>, processedIds: set<string>, poll: nat, actedOnThisTurn: nat, ghost clicks: nat)
    ensures Sweep(total, clicks, calls, processedIds, poll, heights, lastHeight, unchangedRounds, actedOnThisTurn, Sweeping)
      == SweepCards(Sweep(total0, clicks0, calls0, processed0, poll0, heights, lastHeight, unchangedRounds, 0, Sweeping),
                    cards, 0, cancelled, origin)
  {
    total, calls, processedIds, poll, actedOnThisTurn, clicks := total0, calls0, processed0, poll0, 0, clicks0;
    ghost var start := Sweep(total0, clicks0, calls0, processed0, poll0, heights, lastHeight, unchangedRounds, 0, Sweeping);
    var i := 0;
    while i < |cards|
      invariant i <= |cards|
      invariant SweepCards(Sweep(total, clicks, calls, processedIds, poll, heights, lastHeight, unchangedRounds, actedOnThisTurn, Sweeping),
                           cards, i, cancelled, origin) == SweepCards(start, cards, 0, cancelled, origin)
    {
      ghost var cur := Sweep(total, clicks, calls, processedIds, poll, heights, lastHeight, unchangedRounds, actedOnThisTurn, Sweeping);
      if cancelled(poll) {
        poll := poll + 1;
        assert SweepCards(cur, cards, i, cancelled, origin) == cur.(poll := poll);
        return;
      }
      poll := poll + 1;
      var card := cards[i];
      assert SweepCards(cur, cards, i, cancelled, origin)
          == SweepCards(SweepCard(cur.(poll := poll), card, origin), cards, i + 1, cancelled, origin);
      var clicked := false;
      if card.hasUnsaveButton {
        clicked := true;
        actedOnThisTurn := actedOnThisTurn + 1;
        total := total + 1;
        clicks := clicks + 1;
      }
      var postData := ExtractPostDataFromElement(card.links, card.image, origin);
      if postData.Some? && postData.value.id != "" && postData.value.id !in processedIds {
        processedIds := processedIds + {postData.value.id};
        if !clicked {
          calls := calls + [postData.value.id];
          actedOnThisTurn := actedOnThisTurn + 1;
          total := total + 1;
        }
      }
      assert Sweep(total, clicks, calls, processedIds, poll, heights, lastHeight, unchangedRounds, actedOnThisTurn, Sweeping)
          == SweepCard(cur.(poll := poll), card, origin);
      i := i + 1;
    }
  }

  /**
   * One pass of the `while (!isCancelled())` body after its poll at
   * `poll`: the card loop, then the height comparison of js/scanner.js:164-166.
   */
  method SweepRoundBody(rounds: seq<SweepRound>, r: nat, origin: string, cancelled: nat -> bool,
                        total0: nat, calls0: seq<string>, processed0: set<string>, poll0: nat,
                        lastScrollHeight0: int, unchangedCount0: nat,
                        ghost clicks0: nat, ghost heights0: seq<int>, ghost acted0: nat)
    returns (total: nat, calls: seq<string>, processedIds: set<string>, poll: nat,
             lastScrollHeight: int, unchangedCount: nat, actedOnThisTurn: nat,
             ghost clicks: nat, ghost heights: seq<int>)
    ensures var next := Sweep(total, clicks, calls, processedIds, poll, heights, lastScrollHeight, unchangedCount, actedOnThisTurn,
                              if actedOnThisTurn == 0 && unchangedCount >= 2 then QuietExit else Sweeping);
      next == PlayRound(Sweep(total0, clicks0, calls0, processed0, poll0, heights0, lastScrollHeight0, unchangedCount0, acted0, Sweeping),
                        rounds, r, cancelled, origin)
  {
    total, calls, processedIds, poll, actedOnThisTurn, clicks :=
      UnsaveVisible(RoundCards(rounds, r), origin, cancelled, total0, calls0, processed0, poll0 + 1,
                    clicks0, heights0, lastScrollHeight0, unchangedCount0);
    var currentScrollHeight := RoundHeight(rounds, r);
    if currentScrollHeight == lastScrollHeight0 {
      unchangedCount := unchangedCount0 + 1;
      lastScrollHeight := lastScrollHeight0;
    } else {
      unchangedCount := 0;
      lastScrollHeight := currentScrollHeight;
    }
    heights := heights0 + [currentScrollHeight];
  }

  /** `unsaveAll()`: returns `totalProcessed`, and the post ids it unliked through the API, in order. */
  method UnsaveAll(rounds: seq<SweepRound>, origin: string, cancelled: nat -> bool) returns (total: nat, calls: seq<string>)
    ensures total == SweepFrom(SweepStart, rounds, 0, cancelled, origin).total
    ensures calls == SweepFrom(SweepStart, rounds, 0, cancelled, origin).calls
  {
    total := 0;
    calls := [];
    var processedIds: set<string> := {};
    var unchangedCount: nat := 0;
    var lastScrollHeight := 0;
    var poll: nat := 0;
    var r: nat := 0;
    ghost var clicks: nat := 0;
    ghost var heights: seq<int> := [];
    ghost var acted: nat := 0;
    ghost var goal := SweepFrom(SweepStart, rounds, 0, cancelled, origin);

    while true
      invariant SweepReady(rounds, Sweep(total, clicks, calls, processedIds, poll, heights, lastScrollHeight, unchangedCount, acted, Sweeping), r)
      invariant SweepFrom(Sweep(total, clicks, calls, processedIds, poll, heights, lastScrollHeight, unchangedCount, acted, Sweeping),
                          rounds, r, cancelled, origin) == goal
      decreases |rounds| + 1 - r
    {
      ghost var before := Sweep(total, clicks, calls, processedIds, poll, heights, lastScrollHeight, unchangedCount, acted, Sweeping);
      if cancelled(poll) {
        poll := poll + 1;
        assert SweepFrom(before, rounds, r, cancelled, origin) == before.(poll := poll, exit := CancelledExit);
        break;
      }
      var actedOnThisTurn: nat;
      total, calls, processedIds, poll, lastScrollHeight, unchangedCount, actedOnThisTurn, clicks, heights :=
        SweepRoundBody(rounds, r, origin, cancelled, total, calls, processedIds, poll, lastScrollHeight, unchangedCount,
                       clicks, heights, acted);
      acted := actedOnThisTurn;
      PlayRoundReady(before, rounds, r, cancelled, origin);
      if actedOnThisTurn == 0 && unchangedCount >= 2 {
        break;
      }
      r := r + 1;
    }
  }
}
