/** The MindReplay route: it finds the video id in a YouTube address, gathers a
    text about the video (its transcript, else its title and description, else a
    placeholder) and hands that text to the summarising model. */
module MindReplay {
  import opened Wrappers
  import Text
  import Js
  import Http
  import Scan
  import Patterns

  const UrlRequired := "URL is required"
  const InvalidUrl := "Invalid YouTube URL"
  const SummaryFailed := "Failed to generate summary"

  // ---------------------------------------------------------------- the video id

  /** The three forms tried in order: `watch?v=`, `embed/` and `youtu.be/`, each
      followed by a run of characters other than `&`, `?`, `#` and newline. The
      optional `https?://` and `www.` in front of each literal never change the
      capture: they contain no `y`, so the leftmost match always starts its
      literal part at the first occurrence that is followed by an id character. */
  const IdPrefixes: seq<string> := ["youtube.com/watch?v=", "youtube.com/embed/", "youtu.be/"]

  function IdPattern(k: nat): Scan.Pattern
    requires k < |IdPrefixes|
  {
    Scan.Search([IdPrefixes[k]], Scan.NotQuerySep, Scan.OneOrMore)
  }

  const IdPatterns: seq<Scan.Pattern> := [IdPattern(0), IdPattern(1), IdPattern(2)]

  /** The form `k` occurs in `url` and is followed by the id `g`. */
  ghost predicate IdAfter(url: string, k: nat, g: string)
    requires k < |IdPrefixes|
  {
    Scan.CapturedAfter(url, [IdPrefixes[k]], Scan.NotQuerySep, Scan.OneOrMore, g)
  }

  /** `g` follows the leftmost occurrence of form `k` that an id follows: the capture
      of pattern `k`. */
  ghost predicate IdFirst(url: string, k: nat, g: string)
    requires k < |IdPrefixes|
  {
    Scan.CapturedFirst(url, [IdPrefixes[k]], Scan.NotQuerySep, Scan.OneOrMore, g)
  }

  /** What `extractVideoId` returns: `match[1]` of the first pattern that matches. */
  function VideoIdOf(url: string): Option<string> {
    match Patterns.FirstMatch(IdPatterns, url)
    case Some((_, m)) => m.group
    case None => None
  }

  /** The id is a non-empty run free of `&`, `?`, `#` and newline that follows the
      first form present in `url` with such a run after it; there is no id exactly
      when none of the three forms is followed by one. Within the form that wins, the
      id follows its leftmost occurrence that has an id after it. */
  lemma VideoIdShape(url: string)
    ensures VideoIdOf(url).Some? ==>
      var id := VideoIdOf(url).value;
      && |id| >= 1 && Scan.AllInClass(id, Scan.NotQuerySep)
      && exists k :: 0 <= k < |IdPrefixes| && IdAfter(url, k, id)
                     && forall j, g :: 0 <= j < k ==> !IdAfter(url, j, g)
    ensures VideoIdOf(url).None? <==> forall k, g :: 0 <= k < |IdPrefixes| ==> !IdAfter(url, k, g)
    ensures VideoIdOf(url).Some? ==>
      exists k :: 0 <= k < |IdPrefixes| && IdFirst(url, k, VideoIdOf(url).value)
                  && forall j, g :: 0 <= j < k ==> !IdAfter(url, j, g)
  {
    var first := Patterns.FirstMatch(IdPatterns, url);
    if first.Some? {
      WinningFormLeftmost(url);
      var k := first.value.0;
      var id := VideoIdOf(url).value;
      assert IdAfter(url, k, id) && IdFirst(url, k, id);
    } else {
      forall k, g | 0 <= k < |IdPrefixes|
        ensures !IdAfter(url, k, g)
      {
        FormMissed(url, k, g);
      }
    }
  }

  /** A form whose pattern does not match has no id after it. */
  lemma FormMissed(url: string, k: nat, g: string)
    requires k < |IdPrefixes| && Scan.Exec(IdPatterns[k], url).None?
    ensures !IdAfter(url, k, g)
  {
    assert IdPatterns[k] == Scan.Search([IdPrefixes[k]], Scan.NotQuerySep, Scan.OneOrMore);
    Scan.SearchMissed([IdPrefixes[k]], Scan.NotQuerySep, Scan.OneOrMore, url, g);
  }

  /** The id comes from the leftmost occurrence of the winning form, and no earlier
      form has an id after it. */
  lemma WinningFormLeftmost(url: string)
    requires Patterns.FirstMatch(IdPatterns, url).Some?
    ensures VideoIdOf(url).Some?
    ensures Patterns.FirstMatch(IdPatterns, url).value.0 < |IdPrefixes|
    ensures var id := VideoIdOf(url).value;
      |id| >= 1 && Scan.AllInClass(id, Scan.NotQuerySep)
    ensures IdAfter(url, Patterns.FirstMatch(IdPatterns, url).value.0, VideoIdOf(url).value)
    ensures IdFirst(url, Patterns.FirstMatch(IdPatterns, url).value.0, VideoIdOf(url).value)
    ensures forall j, g :: 0 <= j < Patterns.FirstMatch(IdPatterns, url).value.0 ==> !IdAfter(url, j, g)
  {
    var k := Patterns.FirstMatch(IdPatterns, url).value.0;
    assert IdPatterns[k] == Scan.Search([IdPrefixes[k]], Scan.NotQuerySep, Scan.OneOrMore);
    Scan.SearchFound([IdPrefixes[k]], Scan.NotQuerySep, Scan.OneOrMore, url);
    Scan.SearchLeftmost([IdPrefixes[k]], Scan.NotQuerySep, Scan.OneOrMore, url);
    forall j, g | 0 <= j < k
      ensures !IdAfter(url, j, g)
    {
      FormMissed(url, j, g);
    }
  }

  /** `extractVideoId`: the loop over the three patterns with its early return. */
  method ExtractVideoId(url: string) returns (id: Option<string>)
    ensures id == VideoIdOf(url)
  {
    var m := Patterns.FindFirstMatch(IdPatterns, url);
    match m
    case Some((_, found)) => id := found.group;
    case None => id := None;
  }

  // ---------------------------------------------------------------- the source text

  /** What `ytdl.getBasicInfo` gives: the title and the description (`None` when
      it is null or undefined), or nothing when the call throws. */
  datatype Metadata = Details(title: string, description: Option<string>) | Unavailable

  /** The transcript segments' texts joined with single spaces; an empty text when
      the transcript cannot be fetched. */
  function TranscriptText(transcript: Option<seq<string>>): string {
    match transcript
    case Some(segments) => Text.Join(segments, " ")
    case None => ""
  }

  const TitleLead := "Video Title: "
  const DescriptionLead := "\n\nVideo Description: "
  const TitleOnlyLead := "\n\nThis video doesn't have a detailed description available, but based on the title, this appears to be about: "
  const IdLead := "This is a YouTube video with ID: "
  const IdTail := ". While we couldn't access the full video details, this appears to be a video that may contain educational, entertainment, or informational content. Please note that we couldn't retrieve specific details about this video's content."

  function DescribedText(title: string, description: string): string {
    TitleLead + title + DescriptionLead + description
  }

  function TitleOnlyText(title: string): string {
    TitleLead + title + TitleOnlyLead + title
  }

  function Placeholder(videoId: string): string {
    IdLead + videoId + IdTail
  }

  const Generic := "Unable to retrieve specific content for this YouTube video. However, this appears to be a valid YouTube video that may contain valuable information."

  /** The text the metadata gives when the transcript is blank: `valid` is what
      `ytdl.validateURL` says of the watch address built from the id. */
  function MetadataText(videoId: string, valid: bool, info: Metadata): string {
    if !valid || info.Unavailable? then Placeholder(videoId)
    else if info.description.Some? && !Text.Blank(info.description.value) then DescribedText(info.title, info.description.value)
    else TitleOnlyText(info.title)
  }

  /** The source text chosen from the transcript, the metadata and the fallbacks. */
  function SourceTextOf(videoId: string, transcript: Option<seq<string>>, valid: bool, info: Metadata): string {
    var t := TranscriptText(transcript);
    var s := if !Text.Blank(t) then t else MetadataText(videoId, valid, info);
    if Text.Blank(s) then Generic else s
  }

  /** Every metadata text, placeholder included, starts with a letter. */
  lemma MetadataNotBlank(videoId: string, valid: bool, info: Metadata)
    ensures !Text.Blank(MetadataText(videoId, valid, info))
  {
    assert TitleLead[0] == 'V' && IdLead[0] == 'T';
    assert MetadataText(videoId, valid, info)[0] in {'V', 'T'};
  }

  /** The text handed to the model is never blank; it is the transcript whenever
      that is not blank, else the text the metadata gives, so the generic sentence
      is never chosen. */
  lemma SourceTextChoice(videoId: string, transcript: Option<seq<string>>, valid: bool, info: Metadata)
    ensures !Text.Blank(SourceTextOf(videoId, transcript, valid, info))
    ensures !Text.Blank(TranscriptText(transcript)) ==> SourceTextOf(videoId, transcript, valid, info) == TranscriptText(transcript)
    ensures Text.Blank(TranscriptText(transcript)) ==> SourceTextOf(videoId, transcript, valid, info) == MetadataText(videoId, valid, info)
  {
    MetadataNotBlank(videoId, valid, info);
  }

  /** The metadata text is the placeholder exactly when the watch address is
      refused or the lookup fails, and the placeholder names the video id. */
  lemma PlaceholderWhenUnavailable(videoId: string, valid: bool, info: Metadata)
    ensures MetadataText(videoId, valid, info) == Placeholder(videoId) <==> !valid || info.Unavailable?
    ensures Text.OccursAt(Placeholder(videoId), videoId, |IdLead|)
  {
    var p := Placeholder(videoId);
    assert p[|IdLead|..|IdLead| + |videoId|] == videoId;
    if valid && info.Details? {
      var m := MetadataText(videoId, valid, info);
      assert TitleLead[0] == 'V' && IdLead[0] == 'T';
      assert m[0] == 'V' && p[0] == 'T';
    }
  }

  /** The handler's chain of assignments to the source text. */
  method ChooseSourceText(videoId: string, transcript: Option<seq<string>>, valid: bool, info: Metadata)
    returns (text: string)
    ensures text == SourceTextOf(videoId, transcript, valid, info)
    ensures !Text.Blank(text)
  {
    text := TranscriptText(transcript);
    if Text.Blank(text) {
      text := MetadataText(videoId, valid, info);
      MetadataNotBlank(videoId, valid, info);
    }
    if Text.Blank(text) {
      text := Generic;
    }
  }

  // ---------------------------------------------------------------- the handler

  /** `GET`. The transcript (`None` when its fetch throws), the verdict of
      `ytdl.validateURL`, the metadata and the model's summaries (`None` when a
      model call throws) are inputs; `prompt` is the text handed to the model. */
  method Get(q: Http.Query, transcript: Option<seq<string>>, valid: bool, info: Metadata, summaries: Option<Js.Val>)
    returns (resp: Http.Response, prompt: Option<string>)
    ensures Http.QueryGetOr(q, "url", "") == "" ==>
      prompt.None? && resp == Http.JsonResponse(Http.ErrorBody(UrlRequired), 400)
    ensures Http.QueryGetOr(q, "url", "") != "" && VideoIdOf(Http.QueryGetOr(q, "url", "")).None? ==>
      prompt.None? && resp == Http.JsonResponse(Http.ErrorBody(InvalidUrl), 400)
    ensures Http.QueryGetOr(q, "url", "") != "" && VideoIdOf(Http.QueryGetOr(q, "url", "")).Some? ==>
      prompt == Some(SourceTextOf(VideoIdOf(Http.QueryGetOr(q, "url", "")).value, transcript, valid, info))
    ensures prompt.Some? ==> !Text.Blank(prompt.value)
    ensures prompt.Some? && summaries.None? ==> resp == Http.JsonResponse(Http.ErrorBody(SummaryFailed), 500)
    ensures prompt.Some? && summaries.Some? ==>
      resp == Http.JsonResponse(Js.Obj([("summaries", summaries.value)]), 200)
  {
    prompt := None;
    var url := Http.QueryGetOr(q, "url", "");
    if url == "" {
      resp := Http.JsonResponse(Http.ErrorBody(UrlRequired), 400);
      return;
    }
    var videoId := ExtractVideoId(url);
    if videoId.None? {
      resp := Http.JsonResponse(Http.ErrorBody(InvalidUrl), 400);
      return;
    }
    var text := ChooseSourceText(videoId.value, transcript, valid, info);
    prompt := Some(text);
    if summaries.None? {
      resp := Http.JsonResponse(Http.ErrorBody(SummaryFailed), 500);
      return;
    }
    resp := Http.JsonResponse(Js.Obj([("summaries", summaries.value)]), 200);
  }
}
