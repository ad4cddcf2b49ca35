/** The download form on every platform page: its per-platform configuration with
    fallbacks, the platform guessed from an address, the `m:ss` duration text, and
    the submit handler that checks the address before asking the platform route. */
module HeroSection {
  import opened Wrappers
  import Text
  import Js
  import Http
  import YoutubeUtils

  // ---------------------------------------------------------------- configuration

  datatype Format = Format(value: string, caption: string, icon: string)

  /** How a configuration builds its download link: by the chosen format (video
      for `MP4`, the named field otherwise), always the video, or no link at all. */
  datatype LinkRule =
    | ByFormat(otherField: string, videoLabel: string, otherLabel: string)
    | VideoOnly(caption: string)
    | NoLinks

  datatype Config = Config(api: string, placeholder: string, formats: seq<Format>, links: LinkRule, showMeta: bool)

  const Mp4 := Format("MP4", "MP4 Video", "🎥")
  const Mp3 := Format("MP3", "MP3 Audio", "🎵")
  const Jpg := Format("JPG", "Image", "🖼️")

  const YoutubeConfig := Config("/api/youtube", "Paste your YouTube URL here...", [Mp4, Mp3],
    ByFormat("audioUrl", "Download Video", "Download Audio (MP3)"), true)

  /** The keys of the configuration table, and `Other` for any other non-empty
      page name (the MindReplay page's, say). */
  datatype Key = TikTok | YouTube | YouTubePlaylist | Instagram | Twitter | YouTubeSummary | Other(name: string)

  /** The name a key stands for. */
  function KeyName(k: Key): string {
    match k
    case TikTok => "tiktok"
    case YouTube => "youtube"
    case YouTubePlaylist => "youtube-playlist"
    case Instagram => "instagram"
    case Twitter => "twitter"
    case YouTubeSummary => "youtube-summary"
    case Other(name) => name
  }

  /** The key a page name is read as. */
  function KeyOf(name: string): Key {
    if name == "tiktok" then TikTok
    else if name == "youtube" then YouTube
    else if name == "youtube-playlist" then YouTubePlaylist
    else if name == "instagram" then Instagram
    else if name == "twitter" then Twitter
    else if name == "youtube-summary" then YouTubeSummary
    else Other(name)
  }

  /** `Other` carries none of the six table names. */
  predicate ProperKey(k: Key) {
    k.Other? ==> KeyOf(k.name) == k
  }

  /** Reading a name as a key loses nothing, and a proper key reads back as itself,
      so comparing keys is comparing the names the source compares. */
  lemma KeyNameRoundTrip(name: string, k: Key)
    ensures KeyName(KeyOf(name)) == name && ProperKey(KeyOf(name))
    ensures ProperKey(k) ==> KeyOf(KeyName(k)) == k
  {
  }

  /** The configuration table; `Other` keys are not in it. */
  function ConfigOf(key: Key): Option<Config> {
    match key
    case TikTok =>
      Some(Config("/api/tiktok", "Paste your TikTok URL here...", [Mp4, Mp3],
                  ByFormat("audioUrl", "Download Video (No Watermark)", "Download Audio (MP3)"), true))
    case YouTube => Some(YoutubeConfig)
    case YouTubePlaylist =>
      Some(Config("/api/youtube-playlist", "Paste your YouTube Playlist URL here...", [Mp4],
                  VideoOnly("Download Playlist Video"), true))
    case Instagram =>
      Some(Config("/api/instagram", "Paste your Instagram URL here...", [Mp4, Jpg],
                  ByFormat("imageUrl", "Download Video", "Download Image"), true))
    case Twitter =>
      Some(Config("/api/twitter", "Paste your Twitter URL here...", [Mp4], VideoOnly("Download Video"), true))
    case YouTubeSummary =>
      Some(Config("/api/youtube-summary", "Paste your YouTube URL here...", [], NoLinks, false))
    case Other(_) => None
  }

  /** `config[key] ?? config.youtube`: a key the table does not have gets the
      YouTube configuration. (The further fallback to an empty configuration is
      never reached, since the YouTube entry exists.) */
  function EffectiveConfig(key: Key): (c: Config)
    ensures ConfigOf(key).Some? ==> c == ConfigOf(key).value
    ensures ConfigOf(key).None? ==> c == YoutubeConfig
  {
    match ConfigOf(key)
    case Some(c) => c
    case None => YoutubeConfig
  }

  /** The page's `platform` property read as a key: `None` when it is missing or
      empty, both of which are falsy. */
  function PageKey(platform: Option<string>): (k: Option<Key>)
    ensures k.Some? <==> platform.Some? && platform.value != ""
    ensures k.Some? ==> KeyName(k.value) == platform.value && ProperKey(k.value)
  {
    if platform.Some? && platform.value != "" then Some(KeyOf(platform.value)) else None
  }

  /** The configuration the page starts with: `platform || 'youtube'`, then the table. */
  function PageConfig(page: Option<Key>): Config {
    EffectiveConfig(if page.Some? then page.value else YouTube)
  }

  /** The first format whose value is `selected`. */
  function FindFormat(formats: seq<Format>, selected: string, i: nat): (r: Option<nat>)
    requires i <= |formats|
    ensures r.Some? ==> i <= r.value < |formats| && formats[r.value].value == selected
    ensures r.Some? ==> forall k :: i <= k < r.value ==> formats[k].value != selected
    ensures r.None? ==> forall k :: i <= k < |formats| ==> formats[k].value != selected
    decreases |formats| - i
  {
    if i == |formats| then None
    else if formats[i].value == selected then Some(i)
    else FindFormat(formats, selected, i + 1)
  }

  /** `formats.find(f => f.value === selected) || formats[0] || { selected, selected, '🎥' }`. */
  function SelectedFormat(formats: seq<Format>, selected: string): (f: Format)
    ensures (exists k :: 0 <= k < |formats| && formats[k].value == selected) ==>
      f.value == selected && f in formats
    ensures (forall k :: 0 <= k < |formats| ==> formats[k].value != selected) && formats != [] ==> f == formats[0]
    ensures formats == [] ==> f == Format(selected, selected, "🎥")
  {
    match FindFormat(formats, selected, 0)
    case Some(k) => formats[k]
    case None => if formats != [] then formats[0] else Format(selected, selected, "🎥")
  }

  /** A download link: the address read from the route's answer (`None` for
      `undefined`) and its caption, or the empty object. */
  datatype Link = Link(url: Option<Js.Val>, caption: string) | NoLink

  /** `getDownloadLinks(data, format)`. */
  function DownloadLink(rule: LinkRule, data: Js.Val, format: string): (l: Link)
    ensures rule.ByFormat? && format == "MP4" ==> l == Link(Js.Get(Some(data), "videoUrl"), rule.videoLabel)
    ensures rule.ByFormat? && format != "MP4" ==> l == Link(Js.Get(Some(data), rule.otherField), rule.otherLabel)
    ensures rule.VideoOnly? ==> l == Link(Js.Get(Some(data), "videoUrl"), rule.caption)
    ensures rule.NoLinks? <==> l.NoLink?
  {
    match rule
    case ByFormat(other, videoLabel, otherLabel) =>
      if format == "MP4" then Link(Js.Get(Some(data), "videoUrl"), videoLabel)
      else Link(Js.Get(Some(data), other), otherLabel)
    case VideoOnly(caption) => Link(Js.Get(Some(data), "videoUrl"), caption)
    case NoLinks => NoLink
  }

  // ---------------------------------------------------------------- platform and duration

  /** The four answers of `detectPlatformFromUrl`. */
  predicate Detectable(k: Key) {
    k.TikTok? || k.YouTube? || k.Instagram? || k.Twitter?
  }

  /** `detectPlatformFromUrl`: the lower-cased host name is searched for each
      platform's domains in a fixed order; an unknown host, or an address that
      does not parse, counts as YouTube. */
  function DetectPlatform(api: Http.UrlApi, url: string): (r: Key)
    ensures Detectable(r)
    ensures api.parse(url).None? ==> r == YouTube
  {
    match api.parse(url)
    case None => YouTube
    case Some(u) =>
      var host := Text.Lower(u.hostname);
      if Text.Contains(host, "tiktok.com") then TikTok
      else if Text.Contains(host, "youtube.com") || Text.Contains(host, "youtu.be") then YouTube
      else if Text.Contains(host, "instagram.com") then Instagram
      else if Text.Contains(host, "twitter.com") || Text.Contains(host, "x.com") then Twitter
      else YouTube
  }

  /** Which host substrings select each platform: the first test in order that
      holds decides, and YouTube is the default. */
  lemma DetectPlatformHosts(api: Http.UrlApi, url: string)
    requires api.parse(url).Some?
    ensures var r := DetectPlatform(api, url);
      var host := Text.Lower(api.parse(url).value.hostname);
      && (r == TikTok <==> Text.Contains(host, "tiktok.com"))
      && (r == Instagram <==> !Text.Contains(host, "tiktok.com") && !Text.Contains(host, "youtube.com")
                              && !Text.Contains(host, "youtu.be") && Text.Contains(host, "instagram.com"))
      && (r == Twitter <==> !Text.Contains(host, "tiktok.com") && !Text.Contains(host, "youtube.com")
                            && !Text.Contains(host, "youtu.be") && !Text.Contains(host, "instagram.com")
                            && (Text.Contains(host, "twitter.com") || Text.Contains(host, "x.com")))
  {
  }

  /** `formatDuration`: nothing for zero, otherwise whole minutes (never split
      into hours), a colon and the seconds padded to two digits. */
  function FormatDuration(sec: nat): string {
    if sec == 0 then ""
    else Text.NatToString(sec / 60) + ":" + Text.PadStart2(Text.NatToString(sec % 60))
  }

  /** Any non-zero duration reads back as exactly two fields, the seconds field
      two digits wide, that give the duration again; zero gives the empty text. */
  lemma FormatDurationRoundTrip(sec: nat)
    ensures FormatDuration(sec) == "" <==> sec == 0
    ensures sec > 0 ==>
      var parts := Text.Split(FormatDuration(sec), ':');
      |parts| == 2 && |parts[1]| == 2 && YoutubeUtils.ParseDuration(FormatDuration(sec)) == Some(sec)
  {
    if sec > 0 {
      var mm := Text.NatToString(sec / 60);
      var ss := Text.PadStart2(Text.NatToString(sec % 60));
      Text.NatToStringRoundTrip(sec / 60);
      Text.Pad2RoundTrip(sec % 60);
      YoutubeUtils.MinutesText(sec / 60, sec % 60, mm, ss);
    }
  }

  // ---------------------------------------------------------------- the submit gate

  const EnterUrl := "Masukkan URL terlebih dahulu."
  const FetchFailed := "Gagal mengambil data."
  const NetworkError := "Terjadi kesalahan jaringan."

  /** The name the mismatch message uses: `names[platform] || platform`. */
  function PlatformName(k: Key): string {
    match k
    case TikTok => "TikTok"
    case YouTube => "YouTube"
    case YouTubePlaylist => "YouTube Playlist"
    case Instagram => "Instagram"
    case Twitter => "Twitter"
    case YouTubeSummary => "YouTube"
    case Other(name) => name
  }

  const MismatchLead := "Halaman ini hanya menerima URL "
  const MismatchMid := ". Silakan masukkan URL "

  function MismatchMessage(k: Key): string {
    MismatchLead + PlatformName(k) + MismatchMid + PlatformName(k) + "."
  }

  /** The checks before any request: `Some(message)` when the submit stops there.
      A blank address (`!input.trim()`, see `Text.TrimEmptyIff`) is refused; a
      page fixed to a platform refuses an address detected as another one. */
  function GateError(page: Option<Key>, api: Http.UrlApi, input: string): (r: Option<string>)
    ensures Text.Blank(input) ==> r == Some(EnterUrl)
    ensures r.None? <==> !Text.Blank(input) && (page.None? || DetectPlatform(api, input) == page.value)
    ensures r.Some? && !Text.Blank(input) ==> r == Some(MismatchMessage(page.value))
  {
    if Text.Blank(input) then Some(EnterUrl)
    else if page.Some? && DetectPlatform(api, input) != page.value then Some(MismatchMessage(page.value))
    else None
  }

  /** The route the form asks, and the request it sends: the configuration's
      route with the typed address encoded as `url`. */
  function RouteConfig(page: Option<Key>, api: Http.UrlApi, input: string): Config {
    EffectiveConfig(if page.Some? then page.value else DetectPlatform(api, input))
  }

  function Request(page: Option<Key>, api: Http.UrlApi, input: string): Http.Outbound {
    Http.Outbound(RouteConfig(page, api, input).api + "?url=" + api.encode(input), map[])
  }

  /** A page fixed to a platform that detection never yields (the playlist,
      summary and MindReplay pages) refuses every address before any request. */
  lemma UndetectablePageRefusesAll(page: Option<Key>, api: Http.UrlApi, input: string)
    requires page.Some? && !Detectable(page.value)
    ensures GateError(page, api, input).Some?
    ensures !Text.Blank(input) ==> GateError(page, api, input) == Some(MismatchMessage(page.value))
  {
  }

  /** A page that passes the gate asks the route of the platform detected from
      the address, and that route is always the one of a configured platform. */
  lemma AdmittedRoute(page: Option<Key>, api: Http.UrlApi, input: string)
    requires GateError(page, api, input).None?
    ensures RouteConfig(page, api, input) == ConfigOf(DetectPlatform(api, input)).value
  {
  }

  /** What the page shows once the route has answered: `u` is the network's
      answer and `parseJson` is `res.json()`. Reading `data.error` of a `null`
      answer throws, and every throw shows the network error. */
  datatype Shown = Shown(error: Js.Val, result: Option<Js.Val>)

  function Answered(u: Http.Upstream, parseJson: string -> Option<Js.Val>): (r: Shown)
    ensures u.Failure? || Js.AccessThrows(parseJson(u.text)) ==> r == Shown(Js.Str(NetworkError), None)
    ensures r.result.Some? <==>
      u.Reply? && !Js.AccessThrows(parseJson(u.text)) && Http.IsOk(u.status)
      && !Js.Truthy(Js.Get(parseJson(u.text), "error"))
    ensures r.result.Some? ==> r == Shown(Js.Str(""), parseJson(u.text))
    ensures r.result.None? ==> Js.Truthy(Some(r.error))
    ensures u.Reply? && !Js.AccessThrows(parseJson(u.text)) && r.result.None? ==>
      r.error == Js.FirstTruthy([Js.Get(parseJson(u.text), "error")], Js.Str(FetchFailed))
    ensures u.Reply? && !Js.AccessThrows(parseJson(u.text)) && r.result.None? && Js.Truthy(Js.Get(parseJson(u.text), "error")) ==>
      Some(r.error) == Js.Get(parseJson(u.text), "error")
    ensures u.Reply? && !Js.AccessThrows(parseJson(u.text)) && r.result.None? && !Js.Truthy(Js.Get(parseJson(u.text), "error")) ==>
      r.error == Js.Str(FetchFailed)
  {
    match u
    case Failure(_) => Shown(Js.Str(NetworkError), None)
    case Reply(status, _, _, text) =>
      match parseJson(text)
      case None => Shown(Js.Str(NetworkError), None)
      case Some(data) =>
        if data == Js.Null then Shown(Js.Str(NetworkError), None)
        else if !Http.IsOk(status) || Js.Truthy(Js.Get(Some(data), "error")) then
          Shown(Js.FirstTruthy([Js.Get(Some(data), "error")], Js.Str(FetchFailed)), None)
        else Shown(Js.Str(""), Some(data))
  }

  // ---------------------------------------------------------------- the form state

  /** The form's state: what the page shows and the configuration of its last
      submit. `page` is the `platform` property read as a key. */
  class Form {
    const page: Option<Key>
    var selectedFormat: string
    var inputUrl: string
    var result: Option<Js.Val>
    var loading: bool
    var error: Js.Val
    var currentConfig: Config

    constructor(platform: Option<string>)
      ensures page == PageKey(platform) && selectedFormat == "MP4" && inputUrl == ""
      ensures result.None? && !loading && error == Js.Str("")
      ensures currentConfig == PageConfig(PageKey(platform))
    {
      page := PageKey(platform);
      selectedFormat := "MP4";
      inputUrl := "";
      result := None;
      loading := false;
      error := Js.Str("");
      currentConfig := PageConfig(PageKey(platform));
    }

    /** The format shown in the picker, from the page's own configuration. */
    function ShownFormat(): Format
      reads this
    {
      SelectedFormat(PageConfig(page).formats, selectedFormat)
    }

    /** `handleDownload`. `u` is the network's answer to the request, if one is
        sent; `sent` is that request. */
    method HandleDownload(api: Http.UrlApi, u: Http.Upstream, parseJson: string -> Option<Js.Val>)
      returns (sent: Option<Http.Outbound>)
      modifies this
      ensures selectedFormat == old(selectedFormat) && inputUrl == old(inputUrl)
      ensures GateError(page, api, inputUrl).Some? ==>
        && sent.None? && result.None? && error == Js.Str(GateError(page, api, inputUrl).value)
        && currentConfig == old(currentConfig)
        && loading == (if Text.Blank(inputUrl) then old(loading) else false)
      ensures GateError(page, api, inputUrl).None? ==>
        && sent == Some(Request(page, api, inputUrl))
        && currentConfig == RouteConfig(page, api, inputUrl)
        && Shown(error, result) == Answered(u, parseJson) && !loading
    {
      error := Js.Str("");
      result := None;
      if Text.Blank(inputUrl) {
        error := Js.Str(EnterUrl);
        return None;
      }
      loading := true;
      var detected := DetectPlatform(api, inputUrl);
      if page.Some? && detected != page.value {
        error := Js.Str(MismatchMessage(page.value));
        loading := false;
        return None;
      }
      var config := EffectiveConfig(if page.Some? then page.value else detected);
      currentConfig := config;
      sent := Some(Http.Outbound(config.api + "?url=" + api.encode(inputUrl), map[]));
      var shown := Answered(u, parseJson);
      error := shown.error;
      result := shown.result;
      loading := false;
    }
  }
}
