/**
 * The URL phase 1 of the media scanner (js/scanner.js) synthesises for a
 * static image, checked against the two readers of such URLs: the post-id
 * resolver of js/utils.js and the file-part helpers of content.js.
 */
module StaticUrls {
  import opened Text
  import opened Wrappers
  import opened Uuid
  import opened Utils
  import opened MediaScanner
  import ContentNames

  /**
   * The synthesised URL names the same post: resolving it gives the
   * card's id back, and its file part is the filename filed with it.
   */
  lemma StaticEntryRoundTrip(id: string)
    ensures ExtractPostId(StaticEntry(id).url) == ExtractPostId(id)
    ensures ContentNames.FileName(ContentNames.StripQuery(StaticEntry(id).url)) == StaticEntry(id).filename
  {
    match ExtractPostId(id)
    case Some(u) =>
      StaticUrlOfUuid(u);
      LowerUuidIsPlain(u);
      StaticFilePart(u);
    case None =>
      StaticUrlWithoutUuid();
      StaticFilePart("null");
  }

  const StaticDir := "https://imagine-public.x.ai/imagine-public/images"

  lemma StaticPrefixParts()
    ensures StaticPrefix == StaticDir + "/"
    ensures StaticDir == "https://imagine" + "-" + "public.x.ai/imagine" + "-" + "public/images"
    ensures '-' !in "https://imagine" && '-' !in "public.x.ai/imagine" && '-' !in "public/images/"
    ensures '?' !in StaticDir
  {
    StaticDirParts();
    StaticPrefixIsDir();
  }

  lemma StaticPrefixIsDir()
    ensures StaticPrefix == StaticDir + "/"
  {
  }

  lemma StaticDirParts()
    ensures StaticDir == "https://imagine" + "-" + "public.x.ai/imagine" + "-" + "public/images"
    ensures '-' !in "https://imagine" && '-' !in "public.x.ai/imagine" && '-' !in "public/images/"
    ensures '?' !in "https://imagine" && '?' !in "public.x.ai/imagine" && '?' !in "public/images"
  {
    StaticDirSplit();
    NoDashInPieces();
    NoMarkInPieces();
  }

  lemma StaticDirSplit()
    ensures StaticDir == "https://imagine" + "-" + "public.x.ai/imagine" + "-" + "public/images"
  {
    StaticDirHalves();
    assert "https://imagine-public.x.ai" == "https://imagine" + "-" + "public.x.ai";
    assert "/imagine-public/images" == "/imagine" + "-" + "public/images";
  }

  lemma StaticDirHalves()
    ensures StaticDir == "https://imagine-public.x.ai" + "/imagine-public/images"
  {
  }

  lemma NoDashInPieces()
    ensures '-' !in "https://imagine" && '-' !in "public.x.ai/imagine" && '-' !in "public/images/"
  {
  }

  lemma NoMarkInPieces()
    ensures '?' !in "https://imagine" && '?' !in "public.x.ai/imagine" && '?' !in "public/images"
  {
  }

  lemma StaticQueryParts()
    ensures StaticQuery == ".jpg" + "?" + "cache=1&dl=1"
    ensures '-' !in StaticQuery
  {
  }

  lemma StaticUrlOfUuid(u: string)
    requires IsLowerUuid(u)
    ensures ExtractPostId(StaticPrefix + u + StaticQuery) == Some(u)
  {
    StaticPrefixParts();
    StaticQueryParts();
    LowerUuidIsUuid(u);
    forall j ensures !UuidAt(StaticPrefix, j) {
      NoUuidWithTwoDashes("https://imagine", "public.x.ai/imagine", "public/images/", j);
    }
    forall j ensures !UuidAt(StaticQuery, j) {
      NoUuidWithoutDash(StaticQuery, j);
    }
    SoleUuid(StaticPrefix, u, StaticQuery);
    var url := StaticPrefix + u + StaticQuery;
    assert url[|StaticPrefix|..|StaticPrefix| + Length] == u;
    ExtractPostIdOfSole(url, |StaticPrefix|);
  }

  lemma StaticUrlWithoutUuid()
    ensures ExtractPostId(StaticPrefix + "null" + StaticQuery).None?
  {
    StaticPrefixParts();
    StaticQueryParts();
    var url := StaticPrefix + "null" + StaticQuery;
    var rest := "public/images/" + "null" + StaticQuery;
    assert '-' !in rest;
    assert url == "https://imagine" + "-" + "public.x.ai/imagine" + "-" + rest;
    forall j ensures !UuidAt(url, j) {
      NoUuidWithTwoDashes("https://imagine", "public.x.ai/imagine", rest, j);
    }
    ExtractPostIdSpec(url);
  }

  lemma LowerUuidIsPlain(u: string)
    requires IsLowerUuid(u)
    ensures '/' !in u && '?' !in u
  {
    forall k | 0 <= k < |u| ensures u[k] != '/' && u[k] != '?' {
      assert IsDashIndex(k) || IsLowerHex(u[k]);
    }
  }

  lemma StaticFilePart(uuid: string)
    requires '/' !in uuid && '?' !in uuid
    ensures ContentNames.FileName(ContentNames.StripQuery(StaticPrefix + uuid + StaticQuery)) == uuid + ".jpg"
  {
    StaticPrefixParts();
    StaticQueryParts();
    var path := StaticDir + "/" + uuid + ".jpg";
    assert StaticPrefix + uuid + StaticQuery == path + "?" + "cache=1&dl=1";
    assert '?' !in path;
    ContentNames.StripQueryAtMark(path, "cache=1&dl=1");
    assert path == StaticDir + "/" + (uuid + ".jpg");
    ContentNames.FileNameAfterSlash(StaticDir, uuid + ".jpg");
  }
}
