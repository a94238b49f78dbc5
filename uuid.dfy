/**
 * The UUID layout the extension looks for: the 8-4-4-4-12 hexadecimal
 * shape of section 3 of RFC 4122, with no version or variant check, and
 * the two ways a JavaScript regular expression finds it in a string:
 * the leftmost match (`s.match(re)`) and the chain of non-overlapping
 * matches of a global search (`s.match(re /g)`).
 */
module Uuid {
  import opened Text
  import opened Wrappers

  const Length := 36

  predicate IsDashIndex(k: int) { k == 8 || k == 13 || k == 18 || k == 23 }

  /** `t` is exactly `[0-9a-f]{8}-[0-9a-f]{4}-[0-9a-f]{4}-[0-9a-f]{4}-[0-9a-f]{12}` under the `i` flag. */
  predicate IsUuid(t: string) {
    |t| == Length &&
    forall k :: 0 <= k < |t| ==> if IsDashIndex(k) then t[k] == '-' else IsHex(t[k])
  }

  /** The same layout without the `i` flag: lower-case digits only. */
  predicate IsLowerUuid(t: string) {
    |t| == Length &&
    forall k :: 0 <= k < |t| ==> if IsDashIndex(k) then t[k] == '-' else IsLowerHex(t[k])
  }

  /** A UUID-shaped substring (any case) starts at position `i` of `s`. */
  predicate UuidAt(s: string, i: int) {
    0 <= i && i + Length <= |s| && IsUuid(s[i..i + Length])
  }

  /** A lower-case UUID-shaped substring starts at position `i` of `s`. */
  predicate LowerUuidAt(s: string, i: int) {
    0 <= i && i + Length <= |s| && IsLowerUuid(s[i..i + Length])
  }

  lemma LowerOfUuid(t: string)
    requires IsUuid(t)
    ensures IsLowerUuid(Lower(t))
  {
  }

  lemma LowerUuidIsUuid(t: string)
    requires IsLowerUuid(t)
    ensures IsUuid(t) && Lower(t) == t
  {
  }

  /** No character of a UUID-shaped string is a `/`. */
  lemma UuidHasNoSlash(t: string, k: int)
    requires IsUuid(t) && 0 <= k < |t|
    ensures t[k] != '/' && LowerChar(t[k]) != '/'
  {
  }

  /** The leftmost UUID-shaped substring at or after `from` (a non-global `match`). */
  function FirstUuid(s: string, from: nat): (r: Option<nat>)
    decreases |s| - from
    ensures r.Some? ==> from <= r.value && UuidAt(s, r.value)
    ensures r.Some? ==> forall j :: from <= j < r.value ==> !UuidAt(s, j)
    ensures r.None? ==> forall j :: from <= j ==> !UuidAt(s, j)
  {
    if from + Length > |s| then None
    else if UuidAt(s, from) then Some(from)
    else FirstUuid(s, from + 1)
  }

  /**
   * The start positions of the matches of a global search from `from`:
   * after a match at `k` the search resumes at `k + 36`, so matches
   * never overlap.
   */
  function GlobalMatches(s: string, from: nat): seq<nat>
    decreases |s| - from
  {
    match FirstUuid(s, from)
    case None => []
    case Some(k) => [k] + GlobalMatches(s, k + Length)
  }

  /** Every element of the chain is a match, and matches are at least 36 apart. */
  lemma {:induction false} GlobalMatchesShape(s: string, from: nat)
    ensures forall i :: 0 <= i < |GlobalMatches(s, from)| ==>
      from <= GlobalMatches(s, from)[i] && UuidAt(s, GlobalMatches(s, from)[i])
    ensures forall i :: 0 <= i < |GlobalMatches(s, from)| - 1 ==>
      GlobalMatches(s, from)[i] + Length <= GlobalMatches(s, from)[i + 1]
    decreases |s| - from
  {
    match FirstUuid(s, from)
    case None =>
    case Some(k) =>
      GlobalMatchesShape(s, k + Length);
  }

  /** After the last match of the chain no UUID-shaped substring starts. */
  lemma {:induction false} GlobalMatchesLast(s: string, from: nat)
    requires GlobalMatches(s, from) != []
    ensures forall j :: GlobalMatches(s, from)[|GlobalMatches(s, from)| - 1] + Length <= j ==> !UuidAt(s, j)
    decreases |s| - from
  {
    var k := FirstUuid(s, from).value;
    if GlobalMatches(s, k + Length) != [] {
      GlobalMatchesLast(s, k + Length);
    }
  }

  /** The start of the last match of a global search, as `matches[matches.length - 1]`. */
  function LastUuid(s: string): (r: Option<nat>)
    ensures r.None? <==> forall j :: !UuidAt(s, j)
    ensures r.Some? ==> UuidAt(s, r.value)
    ensures r.Some? ==> forall j :: r.value + Length <= j ==> !UuidAt(s, j)
  {
    var m := GlobalMatches(s, 0);
    GlobalMatchesShape(s, 0);
    if m == [] then None
    else
      GlobalMatchesLast(s, 0);
      Some(m[|m| - 1])
  }

  /** The text of the UUID starting at `k`, lower-cased. */
  function LowerUuidFrom(s: string, k: nat): (r: string)
    requires UuidAt(s, k)
    ensures IsLowerUuid(r)
  {
    LowerOfUuid(s[k..k + Length]);
    Lower(s[k..k + Length])
  }

  /** Every character of a UUID-shaped substring is a hex digit or a dash. */
  lemma UuidCharIsHexOrDash(s: string, i: int, x: int)
    requires 0 <= i <= x < i + Length <= |s|
    ensures UuidAt(s, i) ==> IsHex(s[x]) || s[x] == '-'
  {
    assert s[i..i + Length][x - i] == s[x];
  }

  /** A string with dashes at two places only holds no UUID: a UUID has four. */
  lemma NoUuidWithTwoDashes(a: string, b: string, c: string, j: int)
    requires '-' !in a && '-' !in b && '-' !in c
    ensures !UuidAt(a + "-" + b + "-" + c, j)
  {
    var s := a + "-" + b + "-" + c;
    if 0 <= j && j + Length <= |s| {
      var t := s[j..j + Length];
      assert t[8] == s[j + 8] && t[13] == s[j + 13] && t[18] == s[j + 18];
      DashIsOneOfTwo(a, b, c, j + 8);
      DashIsOneOfTwo(a, b, c, j + 13);
      DashIsOneOfTwo(a, b, c, j + 18);
    }
  }

  lemma DashIsOneOfTwo(a: string, b: string, c: string, x: int)
    requires '-' !in a && '-' !in b && '-' !in c
    requires 0 <= x < |a + "-" + b + "-" + c|
    ensures (a + "-" + b + "-" + c)[x] == '-' ==> x == |a| || x == |a| + 1 + |b|
  {
    var s := a + "-" + b + "-" + c;
    if x < |a| {
      assert s[x] == a[x];
    } else if |a| < x < |a| + 1 + |b| {
      assert s[x] == b[x - |a| - 1];
    } else if x > |a| + 1 + |b| {
      assert s[x] == c[x - |a| - |b| - 2];
    }
  }

  /** A string without a dash holds no UUID. */
  lemma NoUuidWithoutDash(s: string, j: int)
    requires '-' !in s
    ensures !UuidAt(s, j)
  {
    if 0 <= j && j + Length <= |s| {
      assert s[j..j + Length][8] == s[j + 8];
    }
  }

  /**
   * A UUID between two strings that hold none, with a character that
   * cannot belong to a UUID on each side, is the only UUID of the whole.
   */
  lemma SoleUuid(x: string, u: string, y: string)
    requires IsUuid(u)
    requires forall j :: !UuidAt(x, j)
    requires forall j :: !UuidAt(y, j)
    requires x != [] ==> !IsHex(x[|x| - 1]) && x[|x| - 1] != '-'
    requires y != [] ==> !IsHex(y[0]) && y[0] != '-'
    ensures forall j :: UuidAt(x + u + y, j) <==> j == |x|
  {
    var s := x + u + y;
    assert s[|x|..|x| + Length] == u;
    forall j | j != |x| && 0 <= j && j + Length <= |s|
      ensures !UuidAt(s, j)
    {
      if j + Length <= |x| {
        assert s[j..j + Length] == x[j..j + Length];
        assert !UuidAt(x, j);
      } else if j < |x| {
        assert s[|x| - 1] == x[|x| - 1];
        UuidCharIsHexOrDash(s, j, |x| - 1);
      } else if j < |x| + Length {
        assert s[|x| + Length] == y[0];
        UuidCharIsHexOrDash(s, j, |x| + Length);
      } else {
        assert s[j..j + Length] == y[j - |x| - Length..j - |x|];
        assert !UuidAt(y, j - |x| - Length);
      }
    }
  }
}
