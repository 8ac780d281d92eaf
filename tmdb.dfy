/** The movie-image URL builder of the movie-metadata client (`getImageUrl`). */
module Tmdb {

  import opened Wrappers

  const ImageBaseUrl: string := "https://image.tmdb.org/t/p"

  /** The two poster sizes the client asks for. */
  datatype ImageSize = W500 | Original

  function SizeName(size: ImageSize): string
  {
    match size
    case W500 => "w500"
    case Original => "original"
  }

  /** The part of every URL for `size` that precedes the image path. */
  function SizePrefix(size: ImageSize): (prefix: string)
    ensures ImageBaseUrl <= prefix
  {
    ImageBaseUrl + "/" + SizeName(size)
  }

  /**
   * The URL of the image at `path` in `size` (500 pixels wide unless told
   * otherwise); none when the path is null or empty, both being falsy.
   */
  function ImageUrl(path: Option<string>, size: ImageSize := W500): (url: Option<string>)
    ensures url.None? <==> path.None? || path.value == ""
    ensures url.Some? ==> SizePrefix(size) <= url.value
    ensures url.Some? ==> |url.value| == |SizePrefix(size)| + |path.value|
    ensures url.Some? ==> url.value[|SizePrefix(size)|..] == path.value
  {
    if path.None? || path.value == "" then None
    else Some(SizePrefix(size) + path.value)
  }

  /** Recovers the size and the path from an image URL; the inverse of `ImageUrl`. */
  function ParseImageUrl(url: string): (parts: Option<(ImageSize, string)>)
    ensures parts.Some? ==> parts.value.1 != [] && SizePrefix(parts.value.0) + parts.value.1 == url
  {
    if SizePrefix(W500) <= url && |url| > |SizePrefix(W500)| then
      Some((W500, url[|SizePrefix(W500)|..]))
    else if SizePrefix(Original) <= url && |url| > |SizePrefix(Original)| then
      Some((Original, url[|SizePrefix(Original)|..]))
    else None
  }

  /** No URL for one size starts with the prefix of the other. */
  lemma SizePrefixesDiffer(url: string)
    ensures !(SizePrefix(W500) <= url && SizePrefix(Original) <= url)
  {
    var n := |ImageBaseUrl| + 1;
    assert SizePrefix(W500)[n] == 'w';
    assert SizePrefix(Original)[n] == 'o';
  }

  /** Every URL the builder produces parses back to the size and path it was built from. */
  lemma ImageUrlRoundTrip(path: string, size: ImageSize)
    requires path != ""
    ensures ParseImageUrl(ImageUrl(Some(path), size).value) == Some((size, path))
  {
    var url := ImageUrl(Some(path), size).value;
    SizePrefixesDiffer(url);
  }

  /** Distinct (path, size) pairs give distinct URLs; in particular, for one size, distinct paths. */
  lemma ImageUrlInjective(p: string, q: string, s: ImageSize, t: ImageSize)
    requires p != "" && q != ""
    requires ImageUrl(Some(p), s) == ImageUrl(Some(q), t)
    ensures p == q && s == t
  {
    ImageUrlRoundTrip(p, s);
    ImageUrlRoundTrip(q, t);
  }
}
