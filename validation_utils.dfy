/** `validationUtils` of the shared utility library: the form checks run before a
    request is sent. Each validator reports the first check that fails. */
module ValidationUtils {
  import opened Wrappers
  import Text
  import Http
  import YoutubeUtils

  datatype Validation = Valid | Invalid(error: string)

  const UrlRequired := "URL is required"
  const NotYoutube := "Must be a valid YouTube URL"
  const NoVideoId := "No video ID found in URL"
  const NoPlaylistId := "No playlist ID found in URL"
  const NoChannelInfo := "No channel information found in URL"
  const QueryRequired := "Search query is required"

  /** The shared shape of the three URL validators: the URL must be given, must be
      a YouTube URL, and must carry the item (`found`). */
  function ValidateUrl(api: Http.UrlApi, url: string, found: bool, missing: string): (r: Validation)
    ensures r.Valid? <==> url != "" && YoutubeUtils.IsValidYouTubeUrl(api, url) && found
    ensures url == "" ==> r == Invalid(UrlRequired)
    ensures r.Invalid? && url != "" && !YoutubeUtils.IsValidYouTubeUrl(api, url) ==> r.error == NotYoutube
    ensures r.Invalid? && url != "" && YoutubeUtils.IsValidYouTubeUrl(api, url) ==> r.error == missing
  {
    if url == "" then Invalid(UrlRequired)
    else if !YoutubeUtils.IsValidYouTubeUrl(api, url) then Invalid(NotYoutube)
    else if !found then Invalid(missing)
    else Valid
  }

  /** `validateVideoUrl`. */
  function ValidateVideoUrl(api: Http.UrlApi, url: string): (r: Validation)
    ensures r.Valid? <==> url != "" && YoutubeUtils.IsValidYouTubeUrl(api, url) && YoutubeUtils.VideoIdOf(url).Some?
    ensures r.Invalid? ==> r.error in {UrlRequired, NotYoutube, NoVideoId}
  {
    ValidateUrl(api, url, YoutubeUtils.VideoIdOf(url).Some?, NoVideoId)
  }

  /** `validatePlaylistUrl`. */
  function ValidatePlaylistUrl(api: Http.UrlApi, url: string): (r: Validation)
    ensures r.Valid? <==> url != "" && YoutubeUtils.IsValidYouTubeUrl(api, url) && YoutubeUtils.PlaylistIdOf(url).Some?
    ensures r.Invalid? ==> r.error in {UrlRequired, NotYoutube, NoPlaylistId}
  {
    ValidateUrl(api, url, YoutubeUtils.PlaylistIdOf(url).Some?, NoPlaylistId)
  }

  /** `validateChannelUrl`. */
  function ValidateChannelUrl(api: Http.UrlApi, url: string): (r: Validation)
    ensures r.Valid? <==> url != "" && YoutubeUtils.IsValidYouTubeUrl(api, url) && YoutubeUtils.ChannelInfoOf(url).Some?
    ensures r.Invalid? ==> r.error in {UrlRequired, NotYoutube, NoChannelInfo}
  {
    ValidateUrl(api, url, YoutubeUtils.ChannelInfoOf(url).Some?, NoChannelInfo)
  }

  /** A video URL that passes carries an 11-character id, found after one of the
      recognised prefixes or being the whole input. */
  lemma ValidVideoUrlHasId(api: Http.UrlApi, url: string)
    requires ValidateVideoUrl(api, url).Valid?
    ensures YoutubeUtils.VideoIdOf(url).Some?
    ensures var id := YoutubeUtils.VideoIdOf(url).value;
      |id| == 11 && (YoutubeUtils.HasPrefixedId(url, id) || id == url)
  {
    YoutubeUtils.VideoIdShape(url);
  }

  function TooShort(minLength: int): string {
    "Search query must be at least " + Text.IntToString(minLength) + " characters"
  }

  function TooLong(maxLength: int): string {
    "Search query must be less than " + Text.IntToString(maxLength) + " characters"
  }

  /** `validateSearchQuery`: the query must be given, and its trimmed `length` must lie
      between the two bounds, both included. JavaScript's `length` counts UTF-16 code
      units, so a character above U+FFFF counts twice. */
  function ValidateSearchQuery(query: string, minLength: int := 2, maxLength: int := 100): (r: Validation)
    ensures r.Valid? <==> query != "" && minLength <= Text.Utf16Length(Text.Trim(query)) <= maxLength
    ensures r == Invalid(QueryRequired) <==> query == ""
    ensures r.Invalid? && query != "" && Text.Utf16Length(Text.Trim(query)) < minLength ==> r.error == TooShort(minLength)
    ensures r.Invalid? && query != "" && minLength <= Text.Utf16Length(Text.Trim(query)) ==> r.error == TooLong(maxLength)
  {
    if query == "" then Invalid(QueryRequired)
    else
      var length := Text.Utf16Length(Text.Trim(query));
      if length < minLength then Invalid(TooShort(minLength))
      else if length > maxLength then Invalid(TooLong(maxLength))
      else Valid
  }

  /** One emoji is two code units long, so it passes the default minimum of two. */
  lemma EmojiQueryAccepted()
    ensures ValidateSearchQuery("\U{1F600}") == Valid
  {
    var q := "\U{1F600}";
    assert !Text.IsSpace(q[0]);
    assert Text.TrimStart(q) == q;
    assert Text.TrimEnd(q) == q;
    assert q[1..] == [];
    assert Text.Utf16Length(q) == 2;
  }

  /** A query of spaces only is refused as too short whenever `minLength` is positive. */
  lemma BlankQueryRefused(query: string, minLength: int, maxLength: int)
    requires query != [] && minLength > 0
    requires forall i :: 0 <= i < |query| ==> Text.IsSpace(query[i])
    ensures ValidateSearchQuery(query, minLength, maxLength) == Invalid(TooShort(minLength))
  {
    Text.TrimEmptyIff(query);
  }

  /** Only the trimmed text matters: a non-blank query is judged exactly as its
      trimmed form. */
  lemma SearchQueryTrimInvariant(query: string, minLength: int, maxLength: int)
    requires Text.Trim(query) != []
    ensures ValidateSearchQuery(Text.Trim(query), minLength, maxLength) == ValidateSearchQuery(query, minLength, maxLength)
  {
    Text.TrimIdempotent(query);
  }
}
