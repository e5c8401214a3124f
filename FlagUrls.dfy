/**
 The URLs a flag card is built from, and the file name a PNG download is
 saved under.
 */
module FlagUrls {
  import opened JsString

  datatype Option<T> = None | Some(value: T)

  /** Prefix of every vector-image URL. */
  const SvgPrefix: string := "https://flagcdn.com/"
  /** Prefix of every raster-image URL (256 by 192 pixels). */
  const PngPrefix: string := "https://flagcdn.com/256x192/"

  /** The vector image of a country: the host, the code, then `.svg`. */
  function SvgUrl(code: string): (u: string)
    ensures |u| == |SvgPrefix| + |code| + 4
    ensures u[..|SvgPrefix|] == SvgPrefix && u[|u| - 4..] == ".svg"
    ensures u[|SvgPrefix|..|u| - 4] == code
  {
    SvgPrefix + code + ".svg"
  }

  /** The raster image of a country: the 256x192 folder, the code, then `.png`. */
  function PngUrl(code: string): (u: string)
    ensures |u| == |PngPrefix| + |code| + 4
    ensures u[..|PngPrefix|] == PngPrefix && u[|u| - 4..] == ".png"
    ensures u[|PngPrefix|..|u| - 4] == code
  {
    PngPrefix + code + ".png"
  }

  /** Reads the country code back out of a vector-image URL. */
  function SvgCode(u: string): (r: Option<string>)
  {
    if |u| >= |SvgPrefix| + 4 && u[..|SvgPrefix|] == SvgPrefix && u[|u| - 4..] == ".svg"
    then Some(u[|SvgPrefix|..|u| - 4])
    else None
  }

  /** Reads the country code back out of a raster-image URL. */
  function PngCode(u: string): (r: Option<string>)
  {
    if |u| >= |PngPrefix| + 4 && u[..|PngPrefix|] == PngPrefix && u[|u| - 4..] == ".png"
    then Some(u[|PngPrefix|..|u| - 4])
    else None
  }

  /** The vector URL determines the code and every well-shaped URL is some code's. */
  lemma SvgUrlRoundTrip(code: string, u: string)
    ensures SvgCode(SvgUrl(code)) == Some(code)
    ensures SvgCode(u) == Some(code) <==> u == SvgUrl(code)
  {
  }

  /** The raster URL determines the code and every well-shaped URL is some code's. */
  lemma PngUrlRoundTrip(code: string, u: string)
    ensures PngCode(PngUrl(code)) == Some(code)
    ensures PngCode(u) == Some(code) <==> u == PngUrl(code)
  {
  }

  /**
   `f` is the last path segment of `url`: a suffix of it without `/` that is
   either all of `url` or stands right after a `/`.
   */
  predicate IsLastSegment(url: string, f: string)
  {
    && |f| <= |url|
    && url[|url| - |f|..] == f
    && '/' !in f
    && (|f| == |url| || url[|url| - |f| - 1] == '/')
  }

  /** A URL has one last segment. */
  lemma LastSegmentUnique(url: string, f: string, g: string)
    requires IsLastSegment(url, f) && IsLastSegment(url, g)
    ensures f == g
  {
  }

  /** The name a download is saved under: `url.substring(url.lastIndexOf("/") + 1)`. */
  function DownloadFilename(url: string): (f: string)
    ensures IsLastSegment(url, f)
  {
    url[LastIndexOf(url, '/') + 1..]
  }

  /** Without any `/` the whole URL is the file name. */
  lemma FilenameWithoutSlash(url: string)
    requires '/' !in url
    ensures DownloadFilename(url) == url
  {
  }

  /** A raster URL built from a `/`-free code downloads as `<code>.png`. */
  lemma PngFilename(code: string)
    requires '/' !in code
    ensures DownloadFilename(PngUrl(code)) == code + ".png"
  {
    var u := PngUrl(code);
    var f := code + ".png";
    assert u == PngPrefix + f;
    assert u[|u| - |f|..] == f;
    assert u[|u| - |f| - 1] == PngPrefix[|PngPrefix| - 1] == '/';
    assert '/' !in ".png";
    assert IsLastSegment(u, f);
    LastSegmentUnique(u, DownloadFilename(u), f);
  }
}
