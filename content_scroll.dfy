/**
 * The loops of the older content script (content.js): the post-id
 * collection of `scrollAndCollectPostIds`, which scrolls until the card
 * count has stayed the same for five rounds; the success/fail counting
 * loop of the three unfavorite handlers; and the card walk of
 * `collectMediaFromVisibleCards`, which appends download entries to a
 * shared list and records the URLs it has seen.
 *
 * The page is an input: `rounds[r]` is the list of listing items at
 * round `r` (none after the last given round). `cancelled(p)` answers the
 * `p`-th `isCancelled()` poll, `unliked(i)` is the outcome of the `i`-th
 * `unlikePost` call (a thrown error counts as `false`), and
 * `hdExists(url)` is the answer of `checkVideoExists`.
 */
module ContentScroll {
  import opened Wrappers
  import opened Text
  import opened Uuid
  import opened Dom
  import opened Quiescence
  import opened Polling
  import opened ContentNames

  // ================================================================ post-id collection

  /** The three `handleUnsave*` handlers, by the filter each passes to `scrollAndCollectPostIds`. */
  datatype UnsaveKind = UnsaveBoth | UnsaveImages | UnsaveVideos

  /** `filterFn(hasVideo, hasImage)`. */
  predicate Wants(kind: UnsaveKind, hasVideo: bool, hasImage: bool) {
    match kind
    case UnsaveBoth => hasImage
    case UnsaveImages => !hasVideo && hasImage
    case UnsaveVideos => hasVideo
  }

  /** `maxUnchangedAttempts`. */
  const MaxUnchangedAttempts: nat := 5

  /** The id a listing item contributes: the first UUID of its image `src`, when the filter accepts it. */
  function ItemPostId(kind: UnsaveKind, item: Card): Option<string> {
    if Wants(kind, item.hasVideo, item.image.Some?) && item.image.Some? && item.image.value != ""
    then ContentNames.ExtractPostId(item.image.value)
    else None
  }

  /** `seenPostIds.add(id)`: a set that remembers insertion order (`Array.from(set)`). */
  function Note(ids: seq<string>, id: Option<string>): seq<string> {
    match id
    case None => ids
    case Some(x) => if x in ids then ids else ids + [x]
  }

  /** The ids after `items.forEach(…)` over the items in order. */
  function AddItems(kind: UnsaveKind, ids: seq<string>, items: seq<Card>): seq<string>
    decreases |items|
  {
    if |items| == 0 then ids
    else Note(AddItems(kind, ids, items[..|items| - 1]), ItemPostId(kind, items[|items| - 1]))
  }

  function RoundItems(rounds: seq<seq<Card>>, r: nat): seq<Card> {
    if r < |rounds| then rounds[r] else []
  }

  /** The card counts read in the first `n` rounds. */
  function Counts(rounds: seq<seq<Card>>, n: nat): (c: seq<int>)
    ensures |c| == n
  {
    seq(n, j requires 0 <= j < n => |RoundItems(rounds, j)|)
  }

  /** The ids collected in the first `n` rounds. */
  function IdsAfter(kind: UnsaveKind, rounds: seq<seq<Card>>, n: nat): seq<string> {
    if n == 0 then [] else AddItems(kind, IdsAfter(kind, rounds, n - 1), RoundItems(rounds, n - 1))
  }

  lemma CountsStep(rounds: seq<seq<Card>>, n: nat)
    ensures Counts(rounds, n + 1) == Counts(rounds, n) + [|RoundItems(rounds, n)|]
  {
  }

  /** The outcome of `scrollAndCollectPostIds`: the ids and the number of rounds, or the thrown cancel. */
  datatype Collected = Ids(ids: seq<string>, rounds: nat) | CancelledAt(poll: nat)

  /**
   * A bound on the rounds still to play: the rounds that load cards, then
   * at most one reset of the counter, then its climb to five.
   */
  function Remaining(rounds: seq<seq<Card>>, n: nat): nat {
    (if n < |rounds| then |rounds| - n else 0) * 12 +
    (if Prev(Counts(rounds, n), n) != 0 then 6 else 0) +
    (if Unchanged(Counts(rounds, n)) < MaxUnchangedAttempts then MaxUnchangedAttempts - Unchanged(Counts(rounds, n)) else 0)
  }

  /** One round of an unsettled loop: how the counters move, and that the bound shrinks. */
  lemma RoundAdvances(rounds: seq<seq<Card>>, n: nat)
    requires Unchanged(Counts(rounds, n)) < MaxUnchangedAttempts
    ensures Prev(Counts(rounds, n + 1), n + 1) == |RoundItems(rounds, n)|
    ensures Unchanged(Counts(rounds, n + 1)) ==
      if |RoundItems(rounds, n)| == Prev(Counts(rounds, n), n) then Unchanged(Counts(rounds, n)) + 1 else 0
    ensures Remaining(rounds, n + 1) < Remaining(rounds, n)
  {
    CountsStep(rounds, n);
    UnchangedStep(Counts(rounds, n), |RoundItems(rounds, n)|);
  }

  /**
   * The collection loop from round `n` on: it stops once the counter of
   * unchanged card counts reaches five, and otherwise polls the cancel
   * flag and plays the round.
   */
  function CollectFrom(kind: UnsaveKind, rounds: seq<seq<Card>>, cancelled: nat -> bool, n: nat): Collected
    decreases Remaining(rounds, n)
  {
    if Unchanged(Counts(rounds, n)) >= MaxUnchangedAttempts then Ids(IdsAfter(kind, rounds, n), n)
    else if cancelled(n) then CancelledAt(n)
    else
      RoundAdvances(rounds, n);
      CollectFrom(kind, rounds, cancelled, n + 1)
  }

  /** Collecting keeps the ids already there, in place, and adds no duplicate. */
  lemma {:induction false} AddItemsExtends(kind: UnsaveKind, ids: seq<string>, items: seq<Card>)
    ensures var r := AddItems(kind, ids, items);
      |ids| <= |r| && r[..|ids|] == ids && (NoDuplicates(ids) ==> NoDuplicates(r))
    decreases |items|
  {
    if |items| > 0 {
      var init := items[..|items| - 1];
      AddItemsExtends(kind, ids, init);
      var p := AddItems(kind, ids, init);
      match ItemPostId(kind, items[|items| - 1]) {
        case None =>
        case Some(x) =>
          if x !in p {
            if NoDuplicates(ids) {
              NoDuplicatesAppend(p, x);
            }
            assert (p + [x])[..|ids|] == p[..|ids|];
          }
      }
    }
  }

  /** Some accepted item of `items` has the id `x`, looking from the last item back. */
  predicate InRound(kind: UnsaveKind, items: seq<Card>, x: string)
    decreases |items|
  {
    |items| > 0 && (InRound(kind, items[..|items| - 1], x) || ItemPostId(kind, items[|items| - 1]) == Some(x))
  }

  /** Some accepted item of the first `n` rounds has the id `x`. */
  predicate InRounds(kind: UnsaveKind, rounds: seq<seq<Card>>, n: nat, x: string) {
    n > 0 && (InRounds(kind, rounds, n - 1, x) || InRound(kind, RoundItems(rounds, n - 1), x))
  }

  /** `InRound` says that some item of the round yields `x`. */
  lemma {:induction false} InRoundWitness(kind: UnsaveKind, items: seq<Card>, x: string)
    ensures InRound(kind, items, x) <==> exists k :: 0 <= k < |items| && ItemPostId(kind, items[k]) == Some(x)
    decreases |items|
  {
    if |items| > 0 {
      var n := |items| - 1;
      var init := items[..n];
      InRoundWitness(kind, init, x);
      if InRound(kind, init, x) {
        var k :| 0 <= k < n && ItemPostId(kind, init[k]) == Some(x);
        assert items[k] == init[k];
      }
      if exists k :: 0 <= k < |items| && ItemPostId(kind, items[k]) == Some(x) {
        var k :| 0 <= k < |items| && ItemPostId(kind, items[k]) == Some(x);
        if k < n {
          assert init[k] == items[k];
        }
      }
    }
  }

  /** `InRounds` says that some round among the first `n` has an item yielding `x`. */
  lemma {:induction false} InRoundsWitness(kind: UnsaveKind, rounds: seq<seq<Card>>, n: nat, x: string)
    ensures InRounds(kind, rounds, n, x) <==> exists j :: 0 <= j < n && InRound(kind, RoundItems(rounds, j), x)
  {
    if n > 0 {
      InRoundsWitness(kind, rounds, n - 1, x);
      if exists j :: 0 <= j < n && InRound(kind, RoundItems(rounds, j), x) {
        var j :| 0 <= j < n && InRound(kind, RoundItems(rounds, j), x);
        if j < n - 1 {
          assert InRounds(kind, rounds, n - 1, x);
        }
      }
    }
  }

  lemma NoteMembers(ids: seq<string>, id: Option<string>, x: string)
    ensures x in Note(ids, id) <==> x in ids || id == Some(x)
  {
  }

  /** The ids after a round are the earlier ones and those of the round's accepted items. */
  lemma {:induction false} AddItemsMembers(kind: UnsaveKind, ids: seq<string>, items: seq<Card>, x: string)
    ensures x in AddItems(kind, ids, items) <==> x in ids || InRound(kind, items, x)
    decreases |items|
  {
    if |items| > 0 {
      var n := |items| - 1;
      AddItemsMembers(kind, ids, items[..n], x);
      NoteMembers(AddItems(kind, ids, items[..n]), ItemPostId(kind, items[n]), x);
    }
  }

  /** After `n` rounds the ids are distinct. */
  lemma {:induction false} IdsAfterDistinct(kind: UnsaveKind, rounds: seq<seq<Card>>, n: nat)
    ensures NoDuplicates(IdsAfter(kind, rounds, n))
  {
    if n > 0 {
      IdsAfterDistinct(kind, rounds, n - 1);
      AddItemsExtends(kind, IdsAfter(kind, rounds, n - 1), RoundItems(rounds, n - 1));
    }
  }

  /** After `n` rounds the ids are exactly those of the accepted items of those rounds. */
  lemma {:induction false} IdsAfterMembers(kind: UnsaveKind, rounds: seq<seq<Card>>, n: nat, x: string)
    ensures x in IdsAfter(kind, rounds, n) <==> InRounds(kind, rounds, n, x)
  {
    if n > 0 {
      IdsAfterMembers(kind, rounds, n - 1, x);
      AddItemsMembers(kind, IdsAfter(kind, rounds, n - 1), RoundItems(rounds, n - 1), x);
    }
  }

  /** Rounds `m` to `n - 1` all began unsettled and without a cancel. */
  predicate Unsettled(rounds: seq<seq<Card>>, cancelled: nat -> bool, m: nat, n: nat) {
    forall j :: m <= j < n ==> Unchanged(Counts(rounds, j)) < MaxUnchangedAttempts && !cancelled(j)
  }

  lemma UnsettledStep(rounds: seq<seq<Card>>, cancelled: nat -> bool, m: nat, n: nat)
    requires Unchanged(Counts(rounds, m)) < MaxUnchangedAttempts && !cancelled(m)
    requires Unsettled(rounds, cancelled, m + 1, n)
    ensures Unsettled(rounds, cancelled, m, n)
  {
  }

  /**
   * From round `m`, a loop that returns does so after the first round
   * whose counter reaches five, with no cancel polled on the way.
   */
  lemma {:induction false} CollectFromReturns(kind: UnsaveKind, rounds: seq<seq<Card>>, cancelled: nat -> bool, m: nat)
    ensures var r := CollectFrom(kind, rounds, cancelled, m);
      r.Ids? ==>
        m <= r.rounds && r.ids == IdsAfter(kind, rounds, r.rounds) &&
        Unchanged(Counts(rounds, r.rounds)) >= MaxUnchangedAttempts &&
        Unsettled(rounds, cancelled, m, r.rounds)
    decreases Remaining(rounds, m)
  {
    if Unchanged(Counts(rounds, m)) < MaxUnchangedAttempts && !cancelled(m) {
      RoundAdvances(rounds, m);
      var r := CollectFrom(kind, rounds, cancelled, m + 1);
      CollectFromReturns(kind, rounds, cancelled, m + 1);
      if r.Ids? {
        UnsettledStep(rounds, cancelled, m, r.rounds);
      }
    }
  }

  /** From round `m`, a loop that throws does so at the first poll that says cancel, before it settled. */
  lemma {:induction false} CollectFromThrows(kind: UnsaveKind, rounds: seq<seq<Card>>, cancelled: nat -> bool, m: nat)
    ensures var r := CollectFrom(kind, rounds, cancelled, m);
      r.CancelledAt? ==>
        m <= r.poll && cancelled(r.poll) && Unchanged(Counts(rounds, r.poll)) < MaxUnchangedAttempts &&
        Unsettled(rounds, cancelled, m, r.poll)
    decreases Remaining(rounds, m)
  {
    if Unchanged(Counts(rounds, m)) < MaxUnchangedAttempts && !cancelled(m) {
      RoundAdvances(rounds, m);
      var r := CollectFrom(kind, rounds, cancelled, m + 1);
      CollectFromThrows(kind, rounds, cancelled, m + 1);
      if r.CancelledAt? {
        UnsettledStep(rounds, cancelled, m, r.poll);
      }
    }
  }

  /**
   * A collection that returns has seen the same card count in each of its
   * last five rounds as in the round before, had not settled earlier,
   * and holds each accepted id of those rounds exactly once.
   */
  lemma CollectedIdsSpec(kind: UnsaveKind, rounds: seq<seq<Card>>, cancelled: nat -> bool)
    ensures var r := CollectFrom(kind, rounds, cancelled, 0);
      r.Ids? ==>
        MaxUnchangedAttempts <= r.rounds &&
        (forall j :: r.rounds - MaxUnchangedAttempts <= j < r.rounds ==>
           Counts(rounds, r.rounds)[j] == Prev(Counts(rounds, r.rounds), j)) &&
        NoDuplicates(r.ids) &&
        forall x :: x in r.ids <==> InRounds(kind, rounds, r.rounds, x)
  {
    var r := CollectFrom(kind, rounds, cancelled, 0);
    CollectFromReturns(kind, rounds, cancelled, 0);
    if r.Ids? {
      UnchangedIffStable(Counts(rounds, r.rounds), MaxUnchangedAttempts);
      IdsAfterDistinct(kind, rounds, r.rounds);
      forall x {
        IdsAfterMembers(kind, rounds, r.rounds, x);
      }
    }
  }

  /** Without a cancel the collection returns. */
  lemma {:induction false} CollectionEnds(kind: UnsaveKind, rounds: seq<seq<Card>>, cancelled: nat -> bool, m: nat)
    requires forall p :: !cancelled(p)
    ensures CollectFrom(kind, rounds, cancelled, m).Ids?
    decreases Remaining(rounds, m)
  {
    if Unchanged(Counts(rounds, m)) < MaxUnchangedAttempts {
      RoundAdvances(rounds, m);
      CollectionEnds(kind, rounds, cancelled, m + 1);
    }
  }

  /** `items.forEach(…)` of one round. */
  method AddRoundIds(kind: UnsaveKind, items: seq<Card>, ids0: seq<string>) returns (ids: seq<string>)
    ensures ids == AddItems(kind, ids0, items)
  {
    ids := ids0;
    var i := 0;
    while i < |items|
      invariant 0 <= i <= |items|
      invariant ids == AddItems(kind, ids0, items[..i])
    {
      assert items[..i + 1][..i] == items[..i];
      var item := items[i];
      var postId: Option<string> := None;
      if Wants(kind, item.hasVideo, item.image.Some?) {
        if item.image.Some? && item.image.value != "" {
          postId := ContentNames.ExtractPostId(item.image.value);
        }
        if postId.Some? && postId.value !in ids {
          ids := ids + [postId.value];
        }
      }
      i := i + 1;
    }
    assert items[..i] == items;
  }

  /** An unsettled round without a cancel adds its ids, and the loop goes on from the next round. */
  lemma CollectStep(kind: UnsaveKind, rounds: seq<seq<Card>>, cancelled: nat -> bool, n: nat)
    requires Unchanged(Counts(rounds, n)) < MaxUnchangedAttempts && !cancelled(n)
    ensures IdsAfter(kind, rounds, n + 1) == AddItems(kind, IdsAfter(kind, rounds, n), RoundItems(rounds, n))
    ensures CollectFrom(kind, rounds, cancelled, n + 1) == CollectFrom(kind, rounds, cancelled, n)
  {
  }

  /** `scrollAndCollectPostIds(filterFn)`. */
  method CollectPostIds(kind: UnsaveKind, rounds: seq<seq<Card>>, cancelled: nat -> bool) returns (r: Collected)
    ensures r == CollectFrom(kind, rounds, cancelled, 0)
  {
    var seenPostIds: seq<string> := [];
    var lastCardCount := 0;
    var unchangedCount := 0;
    var round: nat := 0;
    while unchangedCount < MaxUnchangedAttempts
      invariant lastCardCount == Prev(Counts(rounds, round), round)
      invariant unchangedCount == Unchanged(Counts(rounds, round))
      invariant seenPostIds == IdsAfter(kind, rounds, round)
      invariant CollectFrom(kind, rounds, cancelled, round) == CollectFrom(kind, rounds, cancelled, 0)
      decreases Remaining(rounds, round)
    {
      if cancelled(round) {
        return CancelledAt(round);
      }
      var items := RoundItems(rounds, round);
      seenPostIds := AddRoundIds(kind, items, seenPostIds);
      var currentCardCount := |items|;
      RoundAdvances(rounds, round);
      CollectStep(kind, rounds, cancelled, round);
      if currentCardCount == lastCardCount {
        unchangedCount := unchangedCount + 1;
      } else {
        unchangedCount := 0;
        lastCardCount := currentCardCount;
      }
      round := round + 1;
    }
    r := Ids(seenPostIds, round);
  }

  // ================================================================ unfavorite loop

  /** The number of successful `unlikePost` calls among the first `n`. */
  function Successes(unliked: nat -> bool, n: nat): (s: nat)
    ensures s <= n
  {
    if n == 0 then 0 else Successes(unliked, n - 1) + (if unliked(n - 1) then 1 else 0)
  }

  /** All calls succeeded exactly when the count is full; none did exactly when it is zero. */
  lemma {:induction false} SuccessesSpec(unliked: nat -> bool, n: nat)
    ensures Successes(unliked, n) == n <==> forall i :: 0 <= i < n ==> unliked(i)
    ensures Successes(unliked, n) == 0 <==> forall i :: 0 <= i < n ==> !unliked(i)
  {
    if n > 0 {
      SuccessesSpec(unliked, n - 1);
    }
  }

  /** `successCount`, `failCount`, and the item at which a cancel stopped the loop. */
  datatype Tally = Tally(success: nat, fail: nat, cancelledAt: Option<nat>)

  /**
   * The `for` loop of `handleUnsaveBoth` (and its two copies): before item
   * `i` it polls `cancelled(offset + i)`; each finished item adds one to
   * exactly one of the two counters.
   */
  method UnfavoriteAll(postIds: seq<string>, cancelled: nat -> bool, offset: nat, unliked: nat -> bool) returns (t: Tally)
    ensures var c := FirstCancel(cancelled, offset, |postIds|, 0);
      t.success == Successes(unliked, c) && t.success + t.fail == c &&
      t.cancelledAt == (if c < |postIds| then Some(c) else None)
  {
    var successCount := 0;
    var failCount := 0;
    var i := 0;
    while i < |postIds|
      invariant 0 <= i <= |postIds|
      invariant FirstCancel(cancelled, offset, |postIds|, i) == FirstCancel(cancelled, offset, |postIds|, 0)
      invariant successCount == Successes(unliked, i) && successCount + failCount == i
    {
      if cancelled(offset + i) {
        return Tally(successCount, failCount, Some(i));
      }
      var success := unliked(i);
      if success {
        successCount := successCount + 1;
      } else {
        failCount := failCount + 1;
      }
      i := i + 1;
    }
    t := Tally(successCount, failCount, None);
  }

  /** What a `handleUnsave*` run ends with. */
  datatype UnsaveOutcome =
    | CollectionCancelled               // the thrown "Operation cancelled by user"
    | NothingFound                      // "No items found."
    | Unfavorited(found: nat, tally: Tally)

  /** `handleUnsaveBoth`, `handleUnsaveImages`, `handleUnsaveVideos`: collect the ids, then unfavorite each. */
  method HandleUnsave(kind: UnsaveKind, rounds: seq<seq<Card>>, cancelled: nat -> bool, unliked: nat -> bool)
    returns (outcome: UnsaveOutcome)
    ensures var c := CollectFrom(kind, rounds, cancelled, 0);
      (c.CancelledAt? <==> outcome == CollectionCancelled) &&
      (c.Ids? && c.ids == [] <==> outcome == NothingFound) &&
      (outcome.Unfavorited? ==>
         c.Ids? && outcome.found == |c.ids| > 0 &&
         outcome.tally.success + outcome.tally.fail <= outcome.found &&
         (outcome.tally.cancelledAt.None? <==> forall p :: c.rounds <= p < c.rounds + |c.ids| ==> !cancelled(p)) &&
         var n := FirstCancel(cancelled, c.rounds, |c.ids|, 0);
         outcome.tally.success == Successes(unliked, n) && outcome.tally.success + outcome.tally.fail == n &&
         outcome.tally.cancelledAt == (if n < |c.ids| then Some(n) else None))
  {
    var collected := CollectPostIds(kind, rounds, cancelled);
    if collected.CancelledAt? {
      return CollectionCancelled;
    }
    var postIds := collected.ids;
    if |postIds| == 0 {
      return NothingFound;
    }
    var t := UnfavoriteAll(postIds, cancelled, collected.rounds, unliked);
    outcome := Unfavorited(|postIds|, t);
  }

  // ================================================================ download card walk

  /** The download modes the walk is called with. */
  datatype DownloadKind = SaveImages | SaveVideos | SaveBoth

  /** A card as the walk reads it: the `src` of its image and of its video ("" for no element or no `src`). */
  datatype MediaCard = MediaCard(imageSrc: string, videoSrc: string)

  /** One `{url, filename}` pushed onto `media`. */
  datatype Entry = Entry(url: string, filename: string)

  /** The shared `media` list and `seen` set. */
  datatype Store = Store(media: seq<Entry>, seen: set<string>)

  const VideoAsset := "generated_video.mp4"
  const HdVideoAsset := "generated_video_hd.mp4"

  /** The image half of a card: the entry it may push, and the `imageName` the video half reads. */
  function ImageStep(kind: DownloadKind, card: MediaCard, st: Store, now: nat): (Store, string) {
    if card.imageSrc == "" then (st, "")
    else
      var url := StripQuery(card.imageSrc);
      var filename := DetermineFilename(PathName(url), "", false, now);
      var imageName := ExtractBaseName(url);
      if (kind == SaveImages || kind == SaveBoth) && url !in st.seen && IsValidUrl(url, ImagePatterns)
      then (Store(st.media + [Entry(card.imageSrc, filename)], st.seen + {url}), imageName)
      else (st, imageName)
  }

  /** The video filename: the image's UUID name, or the chooser with the image name as fallback. */
  function VideoFilename(imageName: string, url: string, now: nat): string {
    if imageName != "" && IsUuid(imageName) then imageName + ".mp4"
    else DetermineFilename(PathName(url), imageName, true, now)
  }

  /** The video half of a card: the video entry and, when it exists, its HD twin. */
  function VideoStep(card: MediaCard, imageName: string, st: Store, now: nat, hdExists: string -> bool): Store {
    if card.videoSrc == "" then st
    else
      var url := StripQuery(card.videoSrc);
      if url in st.seen then st
      else
        var filename := VideoFilename(imageName, url, now);
        var st1 := Store(st.media + [Entry(card.videoSrc, filename)], st.seen + {url});
        if !Contains(url, VideoAsset) then st1
        else
          var hdUrl := ReplaceFirst(card.videoSrc, VideoAsset, HdVideoAsset);
          if hdUrl !in st1.seen && hdExists(hdUrl) then Store(st1.media + [Entry(hdUrl, HdName(filename))], st1.seen + {hdUrl})
          else st1
  }

  /**
   * One card. In `saveImages` mode the video condition reads the
   * undeclared `shouldUpscale` and throws a ReferenceError (`false`).
   */
  function CardStep(kind: DownloadKind, card: MediaCard, st: Store, now: nat, hdExists: string -> bool): (Store, bool) {
    var (st1, imageName) := ImageStep(kind, card, st, now);
    if kind == SaveImages then (st1, false)
    else (VideoStep(card, imageName, st1, now, hdExists), true)
  }

  /** The walk from card `i` on; it ends at the first thrown error. */
  function VisitCards(kind: DownloadKind, cards: seq<MediaCard>, i: nat, st: Store, now: nat, hdExists: string -> bool): (Store, bool)
    requires i <= |cards|
    decreases |cards| - i
  {
    if i == |cards| then (st, true)
    else
      var (st1, ok) := CardStep(kind, cards[i], st, now, hdExists);
      if !ok then (st1, false) else VisitCards(kind, cards, i + 1, st1, now, hdExists)
  }

  /**
   * `e` is an entry `card` may push over a `seen` set that lacks the URL
   * `key` it records: the card's image (not in `saveVideos` mode), its
   * video, or the video's HD twin once `checkVideoExists` confirms it
   * (neither in `saveImages` mode).
   */
  predicate PushedBy(kind: DownloadKind, card: MediaCard, seen: set<string>, hdExists: string -> bool, e: Entry, key: string) {
    key !in seen &&
    ((kind != SaveVideos && card.imageSrc != "" && e.url == card.imageSrc && key == StripQuery(card.imageSrc) &&
      IsValidUrl(key, ImagePatterns)) ||
     (kind != SaveImages && card.videoSrc != "" && e.url == card.videoSrc && key == StripQuery(card.videoSrc)) ||
     (kind != SaveImages && card.videoSrc != "" && Contains(StripQuery(card.videoSrc), VideoAsset) &&
      e.url == ReplaceFirst(card.videoSrc, VideoAsset, HdVideoAsset) && key == e.url && hdExists(key)))
  }

  /** Each of `es` is an entry `card` may push, the k-th recording `keys[k]`. */
  predicate AllPushedBy(kind: DownloadKind, card: MediaCard, seen: set<string>, hdExists: string -> bool,
                        es: seq<Entry>, keys: seq<string>) {
    |es| == |keys| && forall k :: 0 <= k < |es| ==> PushedBy(kind, card, seen, hdExists, es[k], keys[k])
  }

  /** Each of `es` is an entry one of the cards from `i` on may push, the k-th recording `keys[k]`. */
  predicate WalkPushed(kind: DownloadKind, cards: seq<MediaCard>, i: nat, seen: set<string>, hdExists: string -> bool,
                       es: seq<Entry>, keys: seq<string>) {
    |es| == |keys| &&
    forall k :: 0 <= k < |es| ==> exists j :: i <= j < |cards| && PushedBy(kind, cards[j], seen, hdExists, es[k], keys[k])
  }

  /**
   * `st2` is `st1` with one entry appended per URL of `keys`, in order:
   * every key is new to `st1.seen` and no key is recorded twice.
   */
  predicate GrowsBy(st1: Store, st2: Store, keys: seq<string>) {
    |st1.media| + |keys| == |st2.media| && st2.media[..|st1.media|] == st1.media &&
    st2.seen == st1.seen + (set x | x in keys) &&
    (forall k :: 0 <= k < |keys| ==> keys[k] !in st1.seen) &&
    (forall x, y :: 0 <= x < y < |keys| ==> keys[x] != keys[y])
  }

  lemma GrowsByRefl(a: Store)
    ensures GrowsBy(a, a, [])
  {
    var none: seq<string> := [];
    assert (set x | x in none) == {};
  }

  lemma GrowsByTrans(a: Store, b: Store, c: Store, k1: seq<string>, k2: seq<string>)
    requires GrowsBy(a, b, k1) && GrowsBy(b, c, k2)
    ensures GrowsBy(a, c, k1 + k2)
    ensures c.media[|a.media|..] == b.media[|a.media|..] + c.media[|b.media|..]
  {
    assert c.media[..|a.media|] == c.media[..|b.media|][..|a.media|];
    assert (set x | x in k1 + k2) == (set x | x in k1) + (set x | x in k2);
    assert c.media == b.media + c.media[|b.media|..];
    forall x, y | 0 <= x < y < |k1 + k2| ensures (k1 + k2)[x] != (k1 + k2)[y] {
      if x < |k1| <= y {
        assert (k1 + k2)[x] in b.seen;
      }
    }
  }

  /**
   * `st2` extends `st1`: old entries stay in place, recorded URLs stay,
   * and every new entry comes with exactly one newly recorded URL.
   */
  predicate Grows(st1: Store, st2: Store) {
    st1.seen <= st2.seen && |st1.media| <= |st2.media| && st2.media[..|st1.media|] == st1.media &&
    |st2.media| - |st1.media| == |st2.seen - st1.seen|
  }

  /** A run of distinct keys makes a set of as many keys. */
  lemma {:induction false} DistinctKeysCount(keys: seq<string>)
    requires forall x, y :: 0 <= x < y < |keys| ==> keys[x] != keys[y]
    ensures |set x | x in keys| == |keys|
  {
    if keys != [] {
      var init := keys[..|keys| - 1];
      DistinctKeysCount(init);
      assert (set x | x in keys) == (set x | x in init) + {keys[|keys| - 1]};
      assert keys[|keys| - 1] !in (set x | x in init);
    }
  }

  /** Growth by distinct new keys is growth by the count: one entry per newly recorded URL. */
  lemma GrowsByGrows(st1: Store, st2: Store, keys: seq<string>)
    requires GrowsBy(st1, st2, keys)
    ensures Grows(st1, st2)
  {
    DistinctKeysCount(keys);
    assert st2.seen - st1.seen == (set x | x in keys);
  }

  lemma AllPushedByConcat(kind: DownloadKind, card: MediaCard, seen0: set<string>, seen1: set<string>,
                          hdExists: string -> bool, e1: seq<Entry>, k1: seq<string>, e2: seq<Entry>, k2: seq<string>)
    requires seen0 <= seen1
    requires AllPushedBy(kind, card, seen0, hdExists, e1, k1) && AllPushedBy(kind, card, seen1, hdExists, e2, k2)
    ensures AllPushedBy(kind, card, seen0, hdExists, e1 + e2, k1 + k2)
  {
    forall k | 0 <= k < |e1 + e2| ensures PushedBy(kind, card, seen0, hdExists, (e1 + e2)[k], (k1 + k2)[k]) {
      if k >= |e1| {
        assert PushedBy(kind, card, seen1, hdExists, e2[k - |e1|], k2[k - |e1|]);
      }
    }
  }

  lemma WalkPushedConcat(kind: DownloadKind, cards: seq<MediaCard>, i: nat, seen0: set<string>, seen1: set<string>,
                         hdExists: string -> bool, e1: seq<Entry>, k1: seq<string>, e2: seq<Entry>, k2: seq<string>)
    requires i < |cards| && seen0 <= seen1
    requires AllPushedBy(kind, cards[i], seen0, hdExists, e1, k1) && WalkPushed(kind, cards, i + 1, seen1, hdExists, e2, k2)
    ensures WalkPushed(kind, cards, i, seen0, hdExists, e1 + e2, k1 + k2)
  {
    forall k | 0 <= k < |e1 + e2|
      ensures exists j :: i <= j < |cards| && PushedBy(kind, cards[j], seen0, hdExists, (e1 + e2)[k], (k1 + k2)[k])
    {
      if k < |e1| {
        assert PushedBy(kind, cards[i], seen0, hdExists, e1[k], k1[k]);
      } else {
        var j :| i + 1 <= j < |cards| && PushedBy(kind, cards[j], seen1, hdExists, e2[k - |e1|], k2[k - |e1|]);
        assert PushedBy(kind, cards[j], seen0, hdExists, (e1 + e2)[k], (k1 + k2)[k]);
      }
    }
  }

  /** The image half pushes at most the card's image, under its query-stripped URL. */
  lemma ImageStepEntries(kind: DownloadKind, card: MediaCard, st: Store, now: nat, hdExists: string -> bool)
    ensures var r := ImageStep(kind, card, st, now).0;
      exists keys :: GrowsBy(st, r, keys) && AllPushedBy(kind, card, st.seen, hdExists, r.media[|st.media|..], keys)
  {
    var r := ImageStep(kind, card, st, now).0;
    if r == st {
      assert GrowsBy(st, r, []) && AllPushedBy(kind, card, st.seen, hdExists, r.media[|st.media|..], []);
    } else {
      var keys := [StripQuery(card.imageSrc)];
      assert (set x | x in keys) == {StripQuery(card.imageSrc)};
      assert r.media[|st.media|..] == [r.media[|st.media|]];
      assert GrowsBy(st, r, keys) && AllPushedBy(kind, card, st.seen, hdExists, r.media[|st.media|..], keys);
    }
  }

  /** The video half pushes at most the card's video and, after it, the video's confirmed HD twin. */
  lemma VideoStepEntries(kind: DownloadKind, card: MediaCard, imageName: string, st: Store, now: nat,
                         hdExists: string -> bool)
    requires kind != SaveImages
    ensures var r := VideoStep(card, imageName, st, now, hdExists);
      exists keys :: GrowsBy(st, r, keys) && AllPushedBy(kind, card, st.seen, hdExists, r.media[|st.media|..], keys)
  {
    var r := VideoStep(card, imageName, st, now, hdExists);
    if card.videoSrc == "" || StripQuery(card.videoSrc) in st.seen {
      assert GrowsBy(st, r, []) && AllPushedBy(kind, card, st.seen, hdExists, r.media[|st.media|..], []);
    } else {
      var url := StripQuery(card.videoSrc);
      var hdUrl := ReplaceFirst(card.videoSrc, VideoAsset, HdVideoAsset);
      if |r.media| == |st.media| + 1 {
        var keys := [url];
        assert (set x | x in keys) == {url};
        assert r.media[|st.media|..] == [r.media[|st.media|]];
        assert GrowsBy(st, r, keys) && AllPushedBy(kind, card, st.seen, hdExists, r.media[|st.media|..], keys);
      } else {
        var keys := [url, hdUrl];
        assert (set x | x in keys) == {url, hdUrl};
        assert r.media[|st.media|..] == [r.media[|st.media|], r.media[|st.media| + 1]];
        assert GrowsBy(st, r, keys) && AllPushedBy(kind, card, st.seen, hdExists, r.media[|st.media|..], keys);
      }
    }
  }

  /**
   * Every entry a card appends is its image, its video or the video's
   * HD twin, each under a URL `seen` lacked before the card, and no URL
   * is recorded twice.
   */
  lemma CardStepEntries(kind: DownloadKind, card: MediaCard, st: Store, now: nat, hdExists: string -> bool)
    ensures var r := CardStep(kind, card, st, now, hdExists).0;
      exists keys :: GrowsBy(st, r, keys) && AllPushedBy(kind, card, st.seen, hdExists, r.media[|st.media|..], keys)
  {
    var (st1, imageName) := ImageStep(kind, card, st, now);
    ImageStepEntries(kind, card, st, now, hdExists);
    var k1 :| GrowsBy(st, st1, k1) && AllPushedBy(kind, card, st.seen, hdExists, st1.media[|st.media|..], k1);
    if kind != SaveImages {
      var r := VideoStep(card, imageName, st1, now, hdExists);
      VideoStepEntries(kind, card, imageName, st1, now, hdExists);
      var k2 :| GrowsBy(st1, r, k2) && AllPushedBy(kind, card, st1.seen, hdExists, r.media[|st1.media|..], k2);
      GrowsByTrans(st, st1, r, k1, k2);
      AllPushedByConcat(kind, card, st.seen, st1.seen, hdExists, st1.media[|st.media|..], k1, r.media[|st1.media|..], k2);
      assert GrowsBy(st, r, k1 + k2) && AllPushedBy(kind, card, st.seen, hdExists, r.media[|st.media|..], k1 + k2);
    } else {
      assert GrowsBy(st, st1, k1) && AllPushedBy(kind, card, st.seen, hdExists, st1.media[|st.media|..], k1);
    }
  }

  /**
   * Every entry the walk appends is the image, the video or the HD twin
   * of one of the cards it visits, under a URL `seen` lacked when the
   * walk began; no URL is recorded twice, so no recorded URL is pushed
   * again.
   */
  lemma {:induction false} VisitCardsEntries(kind: DownloadKind, cards: seq<MediaCard>, i: nat, st: Store, now: nat,
                                             hdExists: string -> bool)
    requires i <= |cards|
    ensures exists keys ::
      GrowsBy(st, VisitCards(kind, cards, i, st, now, hdExists).0, keys) &&
      WalkPushed(kind, cards, i, st.seen, hdExists, VisitCards(kind, cards, i, st, now, hdExists).0.media[|st.media|..], keys)
    decreases |cards| - i
  {
    var r := VisitCards(kind, cards, i, st, now, hdExists).0;
    if i == |cards| {
      GrowsByRefl(st);
      assert r == st && r.media[|st.media|..] == [];
      assert WalkPushed(kind, cards, i, st.seen, hdExists, r.media[|st.media|..], []);
    } else {
      var (st1, ok) := CardStep(kind, cards[i], st, now, hdExists);
      CardStepEntries(kind, cards[i], st, now, hdExists);
      var k1 :| GrowsBy(st, st1, k1) && AllPushedBy(kind, cards[i], st.seen, hdExists, st1.media[|st.media|..], k1);
      var r2 := if ok then r else st1;
      var k2: seq<string> := [];
      if ok {
        VisitCardsEntries(kind, cards, i + 1, st1, now, hdExists);
        k2 :| GrowsBy(st1, r, k2) && WalkPushed(kind, cards, i + 1, st1.seen, hdExists, r.media[|st1.media|..], k2);
      } else {
        assert GrowsBy(st1, r, k2);
      }
      assert r == r2;
      GrowsByTrans(st, st1, r, k1, k2);
      WalkPushedConcat(kind, cards, i, st.seen, st1.seen, hdExists, st1.media[|st.media|..], k1, r.media[|st1.media|..], k2);
      assert GrowsBy(st, r, k1 + k2) && WalkPushed(kind, cards, i, st.seen, hdExists, r.media[|st.media|..], k1 + k2);
    }
  }

  /** A card whose query-stripped URLs were all seen before adds nothing. */
  lemma SeenCardAddsNothing(kind: DownloadKind, card: MediaCard, st: Store, now: nat, hdExists: string -> bool)
    requires card.imageSrc != "" ==> StripQuery(card.imageSrc) in st.seen
    requires card.videoSrc != "" ==> StripQuery(card.videoSrc) in st.seen
    ensures CardStep(kind, card, st, now, hdExists).0 == st
  {
  }

  /** In `saveImages` mode the walk stops with the ReferenceError after the first card's image. */
  lemma SaveImagesThrows(cards: seq<MediaCard>, st: Store, now: nat, hdExists: string -> bool)
    requires |cards| > 0
    ensures var (r, ok) := VisitCards(SaveImages, cards, 0, st, now, hdExists);
      !ok && r == ImageStep(SaveImages, cards[0], st, now).0 && |r.media| <= |st.media| + 1
  {
  }

  /** Every video filename the walk chooses has an extension, so its HD name keeps it after `-HD`. */
  lemma VideoHdName(imageName: string, url: string, now: nat)
    ensures var f := VideoFilename(imageName, url, now);
      HasExtension(f) && HdName(f) == f[..|f| - |TrailingExtension(f).value|] + "-HD" + TrailingExtension(f).value
  {
    VideoFilenameHasExtension(imageName, url, now);
    HdNameOfExtension(VideoFilename(imageName, url, now));
  }

  lemma VideoFilenameHasExtension(imageName: string, url: string, now: nat)
    ensures HasExtension(VideoFilename(imageName, url, now))
  {
    if imageName != "" && IsUuid(imageName) {
      ExtensionAfter(imageName, ".mp4");
    } else {
      DetermineFilenameHasExtension(PathName(url), imageName, true, now);
    }
  }

  /** The `media` array and `seen` set one download run shares across its calls. */
  class MediaCollection {
    var media: seq<Entry>
    var seen: set<string>

    constructor()
      ensures media == [] && seen == {}
    {
      media := [];
      seen := {};
    }

    /** The body of the `for (const card of cards)` loop for one card. */
    method CollectCard(kind: DownloadKind, card: MediaCard, now: nat, hdExists: string -> bool) returns (ok: bool)
      modifies this
      ensures (Store(media, seen), ok) == CardStep(kind, card, Store(old(media), old(seen)), now, hdExists)
    {
      var imageName := "";
      if card.imageSrc != "" {
        var url := StripQuery(card.imageSrc);
        var filename := DetermineFilename(PathName(url), "", false, now);
        imageName := ExtractBaseName(url);
        if (kind == SaveImages || kind == SaveBoth) && url !in seen && IsValidUrl(url, ImagePatterns) {
          seen := seen + {url};
          media := media + [Entry(card.imageSrc, filename)];
        }
      }
      if !(kind == SaveVideos || kind == SaveBoth) {
        return false;
      }
      if card.videoSrc != "" {
        var url := StripQuery(card.videoSrc);
        if url !in seen {
          seen := seen + {url};
          var filename := VideoFilename(imageName, url, now);
          media := media + [Entry(card.videoSrc, filename)];
          if Contains(url, VideoAsset) {
            var hdUrl := ReplaceFirst(card.videoSrc, VideoAsset, HdVideoAsset);
            var hdFilename := HdName(filename);
            if hdUrl !in seen {
              var hdIsThere := hdExists(hdUrl);
              if hdIsThere {
                seen := seen + {hdUrl};
                media := media + [Entry(hdUrl, hdFilename)];
              }
            }
          }
        }
      }
      ok := true;
    }

    /** `collectMediaFromVisibleCards(type, media, seen)`; `false` when it throws. */
    method CollectFromVisibleCards(kind: DownloadKind, cards: seq<MediaCard>, now: nat, hdExists: string -> bool)
      returns (ok: bool)
      modifies this
      ensures (Store(media, seen), ok) == VisitCards(kind, cards, 0, Store(old(media), old(seen)), now, hdExists)
      ensures Grows(Store(old(media), old(seen)), Store(media, seen))
      ensures exists keys ::
        GrowsBy(Store(old(media), old(seen)), Store(media, seen), keys) &&
        WalkPushed(kind, cards, 0, old(seen), hdExists, media[|old(media)|..], keys)
    {
      ghost var start := Store(media, seen);
      var i := 0;
      while i < |cards|
        invariant 0 <= i <= |cards|
        invariant VisitCards(kind, cards, i, Store(media, seen), now, hdExists) == VisitCards(kind, cards, 0, start, now, hdExists)
      {
        ok := CollectCard(kind, cards[i], now, hdExists);
        if !ok {
          VisitCardsEntries(kind, cards, 0, start, now, hdExists);
          ghost var keys :| GrowsBy(start, VisitCards(kind, cards, 0, start, now, hdExists).0, keys);
          GrowsByGrows(start, VisitCards(kind, cards, 0, start, now, hdExists).0, keys);
          return;
        }
        i := i + 1;
      }
      ok := true;
      VisitCardsEntries(kind, cards, 0, start, now, hdExists);
      ghost var keys :| GrowsBy(start, VisitCards(kind, cards, 0, start, now, hdExists).0, keys);
      GrowsByGrows(start, VisitCards(kind, cards, 0, start, now, hdExists).0, keys);
    }
  }
}
