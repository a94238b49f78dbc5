/**
 * `ItemClassifier` (js/classifier.js): the rule that decides whether a
 * gallery card is a plain static image or something that needs deep
 * analysis (a video, or anything that looks like one).
 */
module ItemClassifier {
  import opened Text
  import opened Dom

  datatype ItemType = StaticImage | VideoComplex

  /** The `TYPES` table. */
  function TypeName(t: ItemType): (r: string)
    ensures r == "STATIC_IMAGE" || r == "VIDEO_COMPLEX"
    ensures (r == "STATIC_IMAGE") <==> t == StaticImage
  {
    match t
    case StaticImage => "STATIC_IMAGE"
    case VideoComplex => "VIDEO_COMPLEX"
  }

  datatype Details = Details(hasImage: bool, hasVideo: bool, hasPlayIcon: bool, hasDuration: bool)

  datatype Classification = Classification(kind: ItemType, details: Details)

  /** The length of the greedy `\d+` run starting at `p`. */
  function DigitRun(s: string, p: nat): (n: nat)
    decreases |s| - p
    ensures p + n <= |s| || n == 0
    ensures forall k :: p <= k < p + n ==> IsDigit(s[k])
    ensures p + n < |s| ==> !IsDigit(s[p + n])
  {
    if p < |s| && IsDigit(s[p]) then 1 + DigitRun(s, p + 1) else 0
  }

  /** The pattern `\d+:\d+` matches at position `i`. */
  predicate DurationMatchAt(s: string, i: nat) {
    var n := DigitRun(s, i);
    n > 0 && i + n < |s| && s[i + n] == ':' && DigitRun(s, i + n + 1) > 0
  }

  /** `innerText.match(/\d+:\d+/)` is non-null. */
  predicate HasDuration(s: string) {
    exists i: nat :: i < |s| && DurationMatchAt(s, i)
  }

  /** The plain reading of the duration pattern: a digit, a colon, a digit, side by side. */
  predicate HasDigitColonDigit(s: string) {
    exists k :: 1 <= k < |s| - 1 && s[k] == ':' && IsDigit(s[k - 1]) && IsDigit(s[k + 1])
  }

  /** A match of the pattern ends its first digit run at a colon followed by a digit. */
  lemma MatchGivesDigitColonDigit(s: string, i: nat)
    requires i < |s| && DurationMatchAt(s, i)
    ensures HasDigitColonDigit(s)
  {
    var k := i + DigitRun(s, i);
    assert IsDigit(s[k + 1]);
    assert IsDigit(s[k - 1]);
  }

  /** A digit, a colon and a digit side by side are a match starting at the first digit. */
  lemma DigitColonDigitGivesMatch(s: string, k: int)
    requires 1 <= k < |s| - 1 && s[k] == ':' && IsDigit(s[k - 1]) && IsDigit(s[k + 1])
    ensures HasDuration(s)
  {
    var i: nat := k - 1;
    assert DigitRun(s, k) == 0;
    assert DigitRun(s, i) == 1;
    assert DigitRun(s, k + 1) > 0;
    assert DurationMatchAt(s, i);
  }

  lemma DurationIffDigitColonDigit(s: string)
    ensures HasDuration(s) <==> HasDigitColonDigit(s)
  {
    if HasDuration(s) {
      var i: nat :| i < |s| && DurationMatchAt(s, i);
      MatchGivesDigitColonDigit(s, i);
    }
    if HasDigitColonDigit(s) {
      var k :| 1 <= k < |s| - 1 && s[k] == ':' && IsDigit(s[k - 1]) && IsDigit(s[k + 1]);
      DigitColonDigitGivesMatch(s, k);
    }
  }

  /** `ItemClassifier.classify(card)`. */
  function Classify(card: Card): (c: Classification)
    ensures c.kind == StaticImage <==>
      card.image.Some? && !card.hasVideo && !card.hasPlayIcon && !HasDigitColonDigit(card.text)
    ensures c.details.hasImage == card.image.Some? && c.details.hasVideo == card.hasVideo
    ensures c.details.hasPlayIcon == card.hasPlayIcon && c.details.hasDuration == HasDigitColonDigit(card.text)
  {
    DurationIffDigitColonDigit(card.text);
    var d := Details(card.image.Some?, card.hasVideo, card.hasPlayIcon, HasDuration(card.text));
    var strictlyImage := d.hasImage && !d.hasVideo && !d.hasPlayIcon && !d.hasDuration;
    Classification(if strictlyImage then StaticImage else VideoComplex, d)
  }

  lemma VideoNeverStatic(card: Card)
    requires card.hasVideo || card.hasPlayIcon
    ensures Classify(card).kind == VideoComplex
  {
  }

  lemma NoImageIsComplex(card: Card)
    requires card.image.None?
    ensures Classify(card).kind == VideoComplex
  {
  }

  /** A card showing a clock-like `m:ss` text is sent to deep analysis. */
  lemma DurationTextIsComplex(card: Card, k: nat)
    requires 1 <= k < |card.text| - 1 && card.text[k] == ':'
    requires IsDigit(card.text[k - 1]) && IsDigit(card.text[k + 1])
    ensures Classify(card).kind == VideoComplex
  {
  }
}
