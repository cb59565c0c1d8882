/** The metadata builder: a small string-to-string record beside the
    component list, with an excerpt taken from the content's intro and a
    thumbnail reference derived from its cover path. */
module Metadata {
  import opened Exporter

  const ExcerptKey: string := "excerpt"
  const ThumbnailKey: string := "thumbnailURL"
  const BundleScheme: string := "bundle://"

  /** The file-name part of a path: everything after its last '/', or the
      whole path when it has none. */
  function Basename(path: string): (name: string)
    ensures '/' !in name
    ensures |name| <= |path| && name == path[|path| - |name|..]
    ensures |name| < |path| ==> path[|path| - |name| - 1] == '/'
  {
    if path == [] || path[|path| - 1] == '/' then []
    else Basename(path[..|path| - 1]) + [path[|path| - 1]]
  }

  /** The metadata record of a content record. The excerpt is present exactly
      when there is an intro and is that intro verbatim; the thumbnail is
      present exactly when there is a cover and names the cover's file inside
      the bundle; there are no other keys. */
  function ToArray(c: Content): (meta: map<string, string>)
    ensures ExcerptKey in meta <==> c.intro != ""
    ensures ExcerptKey in meta ==> meta[ExcerptKey] == c.intro
    ensures ThumbnailKey in meta <==> c.cover != ""
    ensures ThumbnailKey in meta ==> meta[ThumbnailKey] == BundleScheme + Basename(c.cover)
    ensures forall key :: key in meta ==> key == ExcerptKey || key == ThumbnailKey
    ensures c.intro == "" && c.cover == "" ==> meta == map[]
  {
    var empty: map<string, string> := map[];
    var withExcerpt := if c.intro != "" then empty[ExcerptKey := c.intro] else empty;
    if c.cover != "" then withExcerpt[ThumbnailKey := BundleScheme + Basename(c.cover)] else withExcerpt
  }

  /** The thumbnail reference is the bundle scheme followed by a bare file
      name: no directory of the cover path survives, and that file name ends
      the cover path. */
  lemma ThumbnailIsBundleFileName(c: Content)
    requires c.cover != ""
    ensures var url := ToArray(c)[ThumbnailKey];
      && |url| >= |BundleScheme|
      && url[..|BundleScheme|] == BundleScheme
      && '/' !in url[|BundleScheme|..]
      && url[|BundleScheme|..] == c.cover[|c.cover| - (|url| - |BundleScheme|)..]
  {
    var url := ToArray(c)[ThumbnailKey];
    var name := Basename(c.cover);
    assert url == BundleScheme + name;
    assert url[|BundleScheme|..] == name;
  }

  /** The excerpt depends on the intro alone and the thumbnail on the cover
      alone: changing one field of the content leaves the other key as it
      was. */
  lemma KeysIndependent(c: Content, d: Content)
    ensures c.intro == d.intro ==>
      (ExcerptKey in ToArray(c) <==> ExcerptKey in ToArray(d))
      && (ExcerptKey in ToArray(c) ==> ToArray(c)[ExcerptKey] == ToArray(d)[ExcerptKey])
    ensures c.cover == d.cover ==>
      (ThumbnailKey in ToArray(c) <==> ThumbnailKey in ToArray(d))
      && (ThumbnailKey in ToArray(c) ==> ToArray(c)[ThumbnailKey] == ToArray(d)[ThumbnailKey])
  {
  }
}
