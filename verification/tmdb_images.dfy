/** Image URLs for posters and backdrops served by the movie-metadata
    service's image host. */
module TmdbImages {
  import opened Common

  const DefaultImageBase: string := "https://image.tmdb.org/t/p"
  const PosterPlaceholder: string := "/placeholder-movie.jpg"
  const BackdropPlaceholder: string := "/placeholder-backdrop.jpg"
  const PosterSize: string := "w500"
  const BackdropSize: string := "w1280"

  /** `IMAGE_BASE_URL`: the configured host, or the service's default when the
      setting is missing or empty. */
  function ImageBaseUrl(configured: Option<string>): (r: string)
    ensures Truthy(configured) ==> r == configured.value
    ensures !Truthy(configured) ==> r == DefaultImageBase
  {
    if Truthy(configured) then configured.value else DefaultImageBase
  }

  /** `${base}/${size}${path}`. */
  function Join(base: string, size: string, path: string): (r: string)
    ensures |r| == |base| + 1 + |size| + |path|
    ensures r[..|base|] == base && r[|base|] == '/'
    ensures r[|base| + 1..|base| + 1 + |size|] == size
    ensures r[|base| + 1 + |size|..] == path
  {
    base + "/" + size + path
  }

  /** `getImageUrl`: the placeholder for a missing or empty path, otherwise
      the path under the size directory (`w500` unless a size is passed). */
  function GetImageUrl(base: string, path: Option<string>, size: Option<string>): (r: string)
    ensures !Truthy(path) ==> r == PosterPlaceholder
    ensures Truthy(path) ==> r == Join(base, size.GetOr(PosterSize), path.value)
  {
    if !Truthy(path) then PosterPlaceholder else Join(base, size.GetOr(PosterSize), path.value)
  }

  /** `getBackdropUrl`: as `getImageUrl` with its own placeholder and `w1280`. */
  function GetBackdropUrl(base: string, path: Option<string>, size: Option<string>): (r: string)
    ensures !Truthy(path) ==> r == BackdropPlaceholder
    ensures Truthy(path) ==> r == Join(base, size.GetOr(BackdropSize), path.value)
  {
    if !Truthy(path) then BackdropPlaceholder else Join(base, size.GetOr(BackdropSize), path.value)
  }

  /** The image path can be read back off the URL, so two different paths
      never share a URL. */
  lemma PathRecoverable(base: string, size: string, p1: string, p2: string)
    ensures Join(base, size, p1)[|base| + 1 + |size|..] == p1
    ensures Join(base, size, p1) == Join(base, size, p2) ==> p1 == p2
  {
  }

  /** On the default host a real image never collapses to a placeholder. */
  lemma RealImageIsNotPlaceholder(path: string, size: Option<string>)
    requires path != ""
    ensures GetImageUrl(DefaultImageBase, Some(path), size) != PosterPlaceholder
    ensures GetBackdropUrl(DefaultImageBase, Some(path), size) != BackdropPlaceholder
  {
    var u := GetImageUrl(DefaultImageBase, Some(path), size);
    assert u[0] == 'h';
    var b := GetBackdropUrl(DefaultImageBase, Some(path), size);
    assert b[0] == 'h';
  }
}
