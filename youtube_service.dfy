/** The server-side YouTube client (`YouTubeService`): the video-id check, the
    provider request, and the normalisation of the provider's video details and
    download streams. The provider's answer is an input; the JSON parser is a
    parameter. */
module YoutubeService {
  import opened Wrappers
  import Text
  import Js
  import Scan
  import Patterns
  import Seqs
  import Http
  import YoutubeUtils
  import StreamUtils

  const DefaultHost := "youtube-video-and-shorts-downloader.p.rapidapi.com"
  const MissingKey := "Missing RAPIDAPI_KEY in environment"
  const InvalidVideoUrl := "Invalid YouTube video URL"

  /** The configured client: the provider's base URL, its key and host. */
  datatype Service = Service(base: string, key: string, host: string)

  /** The constructor: the key must be set and non-empty; the host falls back to the
      default when unset or empty. */
  function NewService(keyEnv: Option<string>, hostEnv: Option<string>): (r: Result<Service>)
    ensures r.Err? <==> keyEnv.None? || keyEnv.value == ""
    ensures r.Err? ==> r.error == MissingKey
    ensures r.Ok? ==> r.value.key == keyEnv.value && r.value.base == "https://" + r.value.host
    ensures r.Ok? ==> r.value.host == if hostEnv.Some? && hostEnv.value != "" then hostEnv.value else DefaultHost
  {
    var host := if hostEnv.Some? && hostEnv.value != "" then hostEnv.value else DefaultHost;
    match keyEnv
    case Some(k) => if k != "" then Ok(Service("https://" + host, k, host)) else Err(MissingKey)
    case None => Err(MissingKey)
  }

  // ---------------------------------------------------------------- video id

  /** `extractVideoId` of the service: a bare 11-character id is returned as it is,
      else the id after a recognised prefix; otherwise the call throws. */
  function ExtractVideoId(input: string): (r: Result<string>)
    ensures r.Ok? ==> r.value != ""
  {
    Scan.WholeMatchIff("", Scan.IdChars, Scan.Exactly(11), input);
    if Scan.Exec(YoutubeUtils.BareVideoId, input).Some? then Ok(input)
    else match Scan.Exec(YoutubeUtils.PrefixedVideoId, input)
      case Some(m) => if m.group.Some? && m.group.value != "" then Ok(m.group.value) else Err(InvalidVideoUrl)
      case None => Err(InvalidVideoUrl)
  }

  /** Every character of a prefix found in a text of class characters is a class
      character. */
  lemma PrefixInClass(s: string, j: nat, p: string, cls: Scan.CharClass)
    ensures Scan.PrefixAt(s, j, p) && Scan.AllInClass(s, cls) ==> Scan.AllInClass(p, cls)
  {
    if Scan.PrefixAt(s, j, p) {
      forall k | 0 <= k < |p| ensures p[k] == s[j + k] {
        assert s[j..j + |p|][k] == s[j + k];
      }
    }
  }

  /** A bare id holds no recognised prefix: each prefix has a `.`, which ids lack. */
  lemma BareIdHasNoPrefix(url: string)
    requires YoutubeUtils.IsBareId(url)
    ensures forall id :: !YoutubeUtils.HasPrefixedId(url, id)
  {
    var ps := YoutubeUtils.VideoPrefixes;
    forall j: nat, t | 0 <= t < |ps| ensures !Scan.PrefixAt(url, j, ps[t]) {
      PrefixInClass(url, j, ps[t], Scan.IdChars);
      var k := [7, 5, 7, 7, 1, 7][t];
      assert ps[t][k] == '.';
      assert !Scan.InClass(ps[t][k], Scan.IdChars);
    }
  }

  /** Trying the bare form first finds the same id as the library's extractor, and
      the call throws exactly when the library finds none. */
  lemma ExtractVideoIdAgrees(input: string)
    ensures ExtractVideoId(input).Ok? <==> YoutubeUtils.VideoIdOf(input).Some?
    ensures ExtractVideoId(input).Ok? ==> ExtractVideoId(input).value == YoutubeUtils.VideoIdOf(input).value
    ensures ExtractVideoId(input).Err? ==> ExtractVideoId(input).error == InvalidVideoUrl
  {
    YoutubeUtils.VideoIdShape(input);
    Scan.WholeMatchIff("", Scan.IdChars, Scan.Exactly(11), input);
    assert input[|""|..] == input;
    assert Text.StartsWith(input, "");
    if Scan.Exec(YoutubeUtils.BareVideoId, input).Some? {
      BareIdHasNoPrefix(input);
    } else if Scan.Exec(YoutubeUtils.PrefixedVideoId, input).Some? {
      Scan.SearchFound(YoutubeUtils.VideoPrefixes, Scan.IdChars, Scan.Exactly(11), input);
      var first := Patterns.FirstMatch([YoutubeUtils.PrefixedVideoId, YoutubeUtils.BareVideoId], input);
      assert first.Some? && first.value.0 == 0;
    } else {
      var first := Patterns.FirstMatch([YoutubeUtils.PrefixedVideoId, YoutubeUtils.BareVideoId], input);
      assert first.None?;
    }
  }

  // ---------------------------------------------------------------- requests

  /** A parameter of `makeRequest`; `None` is `undefined`. */
  type Param = (string, Option<string>)

  /** A given, non-empty parameter value is sent; `undefined` and `''` are not. */
  predicate Sent(p: Param) {
    p.1.Some? && p.1.value != ""
  }

  /** The query the parameters make: the sent ones, in order. */
  function SentParams(params: seq<Param>): (r: Http.Query)
    ensures forall i :: 0 <= i < |r| ==> r[i].1 != ""
    ensures forall i :: 0 <= i < |r| ==> exists j :: 0 <= j < |params| && params[j].0 == r[i].0
    decreases |params|
  {
    if params == [] then []
    else
      var init := params[..|params| - 1];
      var p := params[|params| - 1];
      var r := SentParams(init) + (if Sent(p) then [(p.0, p.1.value)] else []);
      assert forall j :: 0 <= j < |init| ==> init[j] == params[j];
      r
  }

  /** An object's keys are distinct. */
  predicate DistinctNames(params: seq<Param>) {
    forall i, j :: 0 <= i < j < |params| ==> params[i].0 != params[j].0
  }

  /** The `forEach` over the parameters that fills the search string. */
  method BuildQuery(params: seq<Param>) returns (q: Http.Query)
    requires DistinctNames(params)
    ensures q == SentParams(params)
  {
    q := [];
    var i := 0;
    while i < |params|
      invariant 0 <= i <= |params|
      invariant q == SentParams(params[..i])
    {
      var (k, v) := params[i];
      assert params[..i + 1][..i] == params[..i];
      if v.Some? && v.value != "" {
        forall t | 0 <= t < |q| ensures q[t].0 != k {
          var j :| 0 <= j < |params[..i]| && params[..i][j].0 == q[t].0;
          assert params[j].0 == q[t].0;
        }
        Http.QuerySetAppends(q, k, v.value);
        q := Http.QuerySet(q, k, v.value);
      }
      i := i + 1;
    }
    assert params[..|params|] == params;
  }

  /** Each parameter reads back from the query exactly when it was sent, with its
      own value. */
  lemma {:induction false} SentParamsGet(params: seq<Param>, i: nat)
    requires DistinctNames(params) && i < |params|
    ensures Http.QueryGet(SentParams(params), params[i].0) == if Sent(params[i]) then params[i].1 else None
    decreases |params|
  {
    var init := params[..|params| - 1];
    var p := params[|params| - 1];
    var tail: Http.Query := if Sent(p) then [(p.0, p.1.value)] else [];
    assert SentParams(params) == SentParams(init) + tail;
    Http.QueryGetConcat(SentParams(init), tail, params[i].0);
    if i == |params| - 1 {
      LastNotSentBefore(params);
    } else {
      assert init[i] == params[i];
      assert DistinctNames(init);
      SentParamsGet(init, i);
      assert params[i].0 != p.0;
    }
  }

  /** The last parameter's name is not among those sent before it. */
  lemma LastNotSentBefore(params: seq<Param>)
    requires DistinctNames(params) && params != []
    ensures Http.QueryGet(SentParams(params[..|params| - 1]), params[|params| - 1].0).None?
  {
    var init := params[..|params| - 1];
    var r := SentParams(init);
    forall t | 0 <= t < |r| ensures r[t].0 != params[|params| - 1].0 {
      var j :| 0 <= j < |init| && init[j].0 == r[t].0;
      assert params[j].0 == r[t].0;
    }
  }

  /** The request `makeRequest` sends: the endpoint on the base URL, the sent
      parameters, and the provider's key and host headers. */
  datatype ProviderRequest = ProviderRequest(url: string, query: Http.Query, headers: Http.Headers)

  /** The request for an endpoint and its parameters. */
  function RequestOf(svc: Service, endpoint: string, params: seq<Param>): ProviderRequest {
    ProviderRequest(svc.base + endpoint, SentParams(params), map["x-rapidapi-key" := svc.key, "x-rapidapi-host" := svc.host])
  }

  /** `makeRequest`'s construction of the address and headers, with its
      parameter loop. */
  method MakeRequestTarget(svc: Service, endpoint: string, params: seq<Param>) returns (r: ProviderRequest)
    requires DistinctNames(params)
    ensures r == RequestOf(svc, endpoint, params)
    ensures r.url == svc.base + endpoint && r.query == SentParams(params)
    ensures r.headers == map["x-rapidapi-key" := svc.key, "x-rapidapi-host" := svc.host]
  {
    var q := BuildQuery(params);
    r := ProviderRequest(svc.base + endpoint, q, map["x-rapidapi-key" := svc.key, "x-rapidapi-host" := svc.host]);
  }

  /** The message of a non-2xx answer: status, status text and at most 300
      characters of the body. */
  function HttpErrorText(status: int, statusText: string, body: string): (r: string)
    ensures var cut := if |body| <= 300 then body else body[..300];
      r == "HTTP " + Text.IntToString(status) + " " + statusText + " \U{2013} " + cut
  {
    "HTTP " + Text.IntToString(status) + " " + statusText + " \U{2013} " + (if |body| <= 300 then body else body[..300])
  }

  /** What `makeRequest` resolves to: the parsed JSON of a 2xx answer. A rejected
      fetch, a non-2xx status and a body that is not JSON all throw. */
  function ReadReply(u: Http.Upstream, parseJson: string -> Option<Js.Val>): (r: Result<Js.Val>)
    ensures r.Ok? ==> u.Reply? && Http.IsOk(u.status) && parseJson(u.text) == Some(r.value)
    ensures u.Reply? && !Http.IsOk(u.status) ==> r == Err(HttpErrorText(u.status, u.statusText, u.text))
    ensures u.Failure? ==> r == Err(u.message)
  {
    match u
    case Failure(m) => Err(m)
    case Reply(status, statusText, _, text) =>
      if !Http.IsOk(status) then Err(HttpErrorText(status, statusText, text))
      else match parseJson(text)
        case Some(v) => Ok(v)
        case None => Err(Js.SyntaxErrorText)
  }

  /** The error text keeps at most 300 characters of the body, and all of a short one. */
  lemma HttpErrorTextBounded(status: int, statusText: string, body: string)
    ensures var prefix := "HTTP " + Text.IntToString(status) + " " + statusText + " \U{2013} ";
      Text.StartsWith(HttpErrorText(status, statusText, body), prefix)
      && |HttpErrorText(status, statusText, body)| <= |prefix| + 300
      && (|body| <= 300 ==> Text.EndsWith(HttpErrorText(status, statusText, body), body))
  {
    var prefix := "HTTP " + Text.IntToString(status) + " " + statusText + " \U{2013} ";
    var cut := if |body| <= 300 then body else body[..300];
    assert HttpErrorText(status, statusText, body) == prefix + cut;
    assert (prefix + cut)[..|prefix|] == prefix;
    assert (prefix + cut)[|prefix|..] == cut;
  }

  // ---------------------------------------------------------------- streams

  /** `/\d{3,4}p/i`: three digits followed by `p` or `P` occur somewhere (a fourth
      digit before them changes nothing, since its last three digits match too). */
  predicate HasResolutionTag(q: string) {
    exists i :: 0 <= i && i + 3 < |q| && Text.IsDigit(q[i]) && Text.IsDigit(q[i + 1]) && Text.IsDigit(q[i + 2])
      && (q[i + 3] == 'p' || q[i + 3] == 'P')
  }

  /** `/audio/i.test(mime)`. */
  predicate MentionsAudio(mime: string) {
    Text.Contains(Text.Lower(mime), "audio")
  }

  /** The format: the lower-cased part after the first `/`, or 'mp4' when the mime
      type is empty or has nothing there. */
  function FormatOf(mime: string): (r: string)
    ensures mime == "" ==> r == "mp4"
    ensures var parts := Text.Split(mime, '/');
      mime != "" && |parts| >= 2 && parts[1] != "" ==> r == Text.Lower(parts[1])
    ensures var parts := Text.Split(mime, '/');
      (|parts| < 2 || parts[1] == "") ==> r == "mp4"
  {
    if mime == "" then "mp4"
    else
      var parts := Text.Split(mime, '/');
      var m := if |parts| >= 2 then parts[1] else "";
      Text.Lower(if m != "" then m else "mp4")
  }

  /** The quality the item states, trimmed; empty when it states none. */
  function GivenQuality(item: Js.Val): string {
    Text.Trim(Js.ToStr(Js.Or(Js.Get(Some(item), "quality"), Some(Js.Str("")))))
  }

  /** The label of an item that states no quality: `<bitrate>kbps` or 'audio' for an
      audio mime type (a case-sensitive test), else 'unknown'. */
  function FallbackQuality(item: Js.Val, mime: string): (r: string)
    ensures r != ""
    ensures !Text.Contains(mime, "audio") ==> r == "unknown"
  {
    if Text.Contains(mime, "audio") then
      var bitrate := Js.Get(Some(item), "bitrate");
      if Js.Truthy(bitrate) then Js.ToStr(bitrate) + "kbps" else "audio"
    else "unknown"
  }

  /** The quality label: the trimmed given quality, else the fallback label. */
  function QualityOf(item: Js.Val, mime: string): (r: string)
    ensures GivenQuality(item) != "" ==> r == GivenQuality(item)
    ensures r != ""
  {
    var given := GivenQuality(item);
    if given != "" then given else FallbackQuality(item, mime)
  }

  /** `toNorm`: `None` drops an item without a truthy `url`. A truthy `mime` (or
      `mimetype`) that is not a string has no `split`, and the call throws. */
  function ToNorm(item: Js.Val): (r: Result<Option<StreamUtils.Stream>>)
    ensures r == Ok(None) <==> !Js.Truthy(Js.Get(Some(item), "url"))
    ensures r.Ok? && r.value.Some? ==> var st := r.value.value;
      && (st.size.Some? <==> Js.Truthy(Js.Get(Some(item), "size")))
      && (st.fps.Some? <==> Js.Get(Some(item), "fps").Some? && Js.Get(Some(item), "fps").value.Num?)
      && (st.codec.Some? <==> Js.Truthy(Js.Get(Some(item), "codec")) || Js.Truthy(Js.Get(Some(item), "encoding")))
      && (st.codec.Some? ==> Js.Truthy(st.codec))
  {
    var url := Js.Get(Some(item), "url");
    if !Js.Truthy(url) then Ok(None)
    else
      var mimeVal := Js.Or(Js.Or(Js.Get(Some(item), "mime"), Js.Get(Some(item), "mimetype")), Some(Js.Str(""))).value;
      if !mimeVal.Str? then Err("TypeError: mime.split is not a function")
      else
        var mime := mimeVal.s;
        var quality := QualityOf(item, mime);
        var audio := MentionsAudio(mime);
        var hasAudio := Js.Truthy(Js.Coalesce(Js.Get(Some(item), "has_audio"), Some(Js.Bool(audio))));
        var hasVideo := Js.Truthy(Js.Coalesce(Js.Get(Some(item), "has_video"), Some(Js.Bool(!audio || HasResolutionTag(quality)))));
        var size := Js.Get(Some(item), "size");
        var fps := Js.Get(Some(item), "fps");
        var codec := Js.Or(Js.Get(Some(item), "codec"), Js.Get(Some(item), "encoding"));
        Ok(Some(StreamUtils.Stream(quality, FormatOf(mime), Js.ValText(url.value), hasVideo, hasAudio,
                                   if Js.Truthy(size) then Some(Js.ToStr(size)) else None,
                                   if fps.Some? && fps.value.Num? then Some(fps.value.n) else None,
                                   if Js.Truthy(codec) then codec else None)))
  }

  /** Without explicit flags every kept item is audio or video (or both): a mime type
      that does not mention audio makes it video. With an explicit flag, the flag's
      truthiness is the answer. */
  lemma ToNormFlags(item: Js.Val)
    requires ToNorm(item).Ok? && ToNorm(item).value.Some?
    ensures var s := ToNorm(item).value.value;
      var a := Js.Get(Some(item), "has_audio");
      var v := Js.Get(Some(item), "has_video");
      (a.None? && v.None? ==> s.hasAudio || s.hasVideo)
      && (a.Some? && a != Some(Js.Null) ==> s.hasAudio == Js.Truthy(a))
      && (v.Some? && v != Some(Js.Null) ==> s.hasVideo == Js.Truthy(v))
  {
  }

  /** `results.map(toNorm).filter(Boolean)`: the first item that throws makes the
      whole call throw. */
  function NormalizeAll(results: seq<Js.Val>): (r: Result<seq<StreamUtils.Stream>>)
    ensures r.Ok? ==> |r.value| <= |results|
  {
    Collect(results, ToNorm)
  }

  /** `xs.map(f).filter(Boolean)` for an `f` that may throw. */
  function Collect<A, B>(xs: seq<A>, f: A -> Result<Option<B>>): (r: Result<seq<B>>)
    ensures r.Ok? ==> |r.value| <= |xs|
    decreases |xs|
  {
    if xs == [] then Ok([])
    else match f(xs[0])
      case Err(e) => Err(e)
      case Ok(head) =>
        match Collect(xs[1..], f)
        case Err(e) => Err(e)
        case Ok(rest) => Ok(if head.Some? then [head.value] + rest else rest)
  }

  /** `HasUrl`: `item?.url` is truthy, so the item is not dropped. */
  predicate HasUrl(item: Js.Val) {
    Js.Truthy(Js.Get(Some(item), "url"))
  }

  /** Normalising is all-or-nothing: it succeeds exactly when no item throws, and then
      yields, in order, the normalised stream of each item that has a url. */
  lemma NormalizeAllSpec(results: seq<Js.Val>)
    ensures NormalizeAll(results).Ok? <==> forall i :: 0 <= i < |results| ==> ToNorm(results[i]).Ok?
    ensures NormalizeAll(results).Ok? ==>
      var kept := Seqs.Filter(results, HasUrl);
      var n := NormalizeAll(results).value;
      |n| == |kept| && forall k :: 0 <= k < |n| ==> ToNorm(kept[k]) == Ok(Some(n[k]))
  {
    CollectOk(results, ToNorm);
    if NormalizeAll(results).Ok? {
      forall x ensures ToNorm(x).Ok? ==> (ToNorm(x).value.Some? <==> HasUrl(x)) {
      }
      CollectKept(results, ToNorm, HasUrl);
    }
  }

  lemma {:induction false} CollectOk<A, B>(xs: seq<A>, f: A -> Result<Option<B>>)
    ensures Collect(xs, f).Ok? <==> forall i :: 0 <= i < |xs| ==> f(xs[i]).Ok?
    decreases |xs|
  {
    if xs != [] {
      CollectOk(xs[1..], f);
      assert forall i :: 1 <= i < |xs| ==> xs[i] == xs[1..][i - 1];
    }
  }

  /** When `f` keeps exactly the items `p` holds of, the collected values are `f`'s
      values on those items, in order. */
  lemma {:induction false} CollectKept<A, B>(xs: seq<A>, f: A -> Result<Option<B>>, p: A -> bool)
    requires Collect(xs, f).Ok?
    requires forall x :: f(x).Ok? ==> (f(x).value.Some? <==> p(x))
    ensures var kept := Seqs.Filter(xs, p);
      var n := Collect(xs, f).value;
      |n| == |kept| && forall k :: 0 <= k < |n| ==> f(kept[k]) == Ok(Some(n[k]))
    decreases |xs|
  {
    if xs != [] {
      var x := xs[0];
      var t := f(x);
      assert t.Ok? && Collect(xs[1..], f).Ok?;
      CollectKept(xs[1..], f, p);
      var rest := Seqs.Filter(xs[1..], p);
      var n' := Collect(xs[1..], f).value;
      var kept := Seqs.Filter(xs, p);
      var n := Collect(xs, f).value;
      assert kept == (if p(x) then [x] else []) + rest;
      assert n == (if t.value.Some? then [t.value.value] else []) + n';
      forall k | 0 <= k < |n| ensures f(kept[k]) == Ok(Some(n[k])) {
        if p(x) {
          if k > 0 {
            assert kept[k] == rest[k - 1] && n[k] == n'[k - 1];
          }
        } else {
          assert kept[k] == rest[k] && n[k] == n'[k];
        }
      }
    }
  }

  /** The video and audio lists `getDownloadStreams` returns. */
  datatype StreamLists = StreamLists(videoFormats: seq<StreamUtils.Stream>, audioFormats: seq<StreamUtils.Stream>)

  /** The provider's `results` array, or nothing when it is not an array. */
  function ResultsOf(raw: Js.Val): seq<Js.Val> {
    var results := Js.Get(Some(raw), "results");
    if results.Some? && results.value.Arr? then results.value.elems else []
  }

  /** The normalisation of `getDownloadStreams` on the parsed answer: two empty lists
      unless the answer is truthy with status 'ok'; otherwise the video streams and
      the audio-only streams of the normalised results. */
  function DownloadStreams(raw: Js.Val): (r: Result<StreamLists>)
    ensures !Js.Truthy(Some(raw)) || !Js.IsString(Js.Get(Some(raw), "status"), "ok") ==> r == Ok(StreamLists([], []))
    ensures Js.Truthy(Some(raw)) && Js.IsString(Js.Get(Some(raw), "status"), "ok") ==>
      (r.Ok? <==> NormalizeAll(ResultsOf(raw)).Ok?)
    ensures Js.Truthy(Some(raw)) && Js.IsString(Js.Get(Some(raw), "status"), "ok") && r.Ok? ==>
      var n := NormalizeAll(ResultsOf(raw)).value;
      r.value.videoFormats == StreamUtils.FilterStreamsByType(n, StreamUtils.Video)
      && r.value.audioFormats == StreamUtils.FilterStreamsByType(n, StreamUtils.Audio)
  {
    if !Js.Truthy(Some(raw)) || !Js.IsString(Js.Get(Some(raw), "status"), "ok") then Ok(StreamLists([], []))
    else match NormalizeAll(ResultsOf(raw))
      case Err(e) => Err(e)
      case Ok(n) => Ok(StreamLists(Seqs.Filter(n, StreamUtils.IsVideo), Seqs.Filter(n, StreamUtils.IsAudioOnly)))
  }

  /** The two lists are disjoint, each holds only streams of its kind, and a
      normalised stream with neither flag is in neither. */
  lemma DownloadStreamsPartition(raw: Js.Val, x: StreamUtils.Stream)
    requires DownloadStreams(raw).Ok?
    ensures var r := DownloadStreams(raw).value;
      !(x in r.videoFormats && x in r.audioFormats)
      && (x in r.videoFormats ==> x.hasVideo)
      && (x in r.audioFormats ==> x.hasAudio && !x.hasVideo)
  {
    if Js.Truthy(Some(raw)) && Js.IsString(Js.Get(Some(raw), "status"), "ok") {
      var n := NormalizeAll(ResultsOf(raw)).value;
      StreamUtils.FilterStreamsSpec(n, StreamUtils.Video, x);
      StreamUtils.FilterStreamsSpec(n, StreamUtils.Audio, x);
    }
  }

  /** `getDownloadStreams`: the id check, then `makeRequest`'s reading of `u`, the
      answer to `DownloadRequest`, and the normalisation of the streams. */
  function GetDownloadStreams(input: string, geo: Option<string>, lang: Option<string>, u: Http.Upstream,
                              parseJson: string -> Option<Js.Val>): (r: Result<StreamLists>)
    ensures ExtractVideoId(input).Err? ==> r == Err(InvalidVideoUrl)
    ensures ExtractVideoId(input).Ok? && ReadReply(u, parseJson).Err? ==> r == Err(ReadReply(u, parseJson).error)
    ensures ExtractVideoId(input).Ok? && ReadReply(u, parseJson).Ok? ==> r == DownloadStreams(ReadReply(u, parseJson).value)
  {
    match ExtractVideoId(input)
    case Err(e) => Err(e)
    case Ok(_) =>
      match ReadReply(u, parseJson)
      case Err(e) => Err(e)
      case Ok(raw) => DownloadStreams(raw)
  }

  /** The request `getDownloadStreams` sends, to which `u` is the answer: none when
      the id check throws, else `/download.php` with the id always, and `geo` and
      `lang` only when given and non-empty. */
  function DownloadRequest(svc: Service, input: string, geo: Option<string>, lang: Option<string>): (r: Option<ProviderRequest>)
    ensures r.None? <==> ExtractVideoId(input).Err?
    ensures r.Some? ==> r.value == RequestOf(svc, "/download.php", StreamParams(ExtractVideoId(input).value, geo, lang))
    ensures r.Some? ==> r.value.url == svc.base + "/download.php"
    ensures r.Some? ==>
      && Http.QueryGet(r.value.query, "id") == Some(ExtractVideoId(input).value)
      && Http.QueryGet(r.value.query, "geo") == (if geo.Some? && geo.value != "" then geo else None)
      && Http.QueryGet(r.value.query, "lang") == (if lang.Some? && lang.value != "" then lang else None)
  {
    match ExtractVideoId(input)
    case Err(_) => None
    case Ok(id) =>
      StreamParamsSent(id, geo, lang);
      Some(RequestOf(svc, "/download.php", StreamParams(id, geo, lang)))
  }

  /** The parameters `getDownloadStreams` passes, in this order. */
  function StreamParams(id: string, geo: Option<string>, lang: Option<string>): seq<Param> {
    [("id", Some(id)), ("geo", geo), ("lang", lang)]
  }

  /** The id always goes out; `geo` and `lang` only when given and non-empty. */
  lemma StreamParamsSent(id: string, geo: Option<string>, lang: Option<string>)
    requires id != ""
    ensures Http.QueryGet(SentParams(StreamParams(id, geo, lang)), "id") == Some(id)
    ensures Http.QueryGet(SentParams(StreamParams(id, geo, lang)), "geo") == if geo.Some? && geo.value != "" then geo else None
    ensures Http.QueryGet(SentParams(StreamParams(id, geo, lang)), "lang") == if lang.Some? && lang.value != "" then lang else None
  {
    var ps := StreamParams(id, geo, lang);
    assert DistinctNames(ps);
    SentParamsGet(ps, 0);
    SentParamsGet(ps, 1);
    SentParamsGet(ps, 2);
  }

  // ---------------------------------------------------------------- details

  /** `Number(a) || Number(b) || ... || 0`: the first reading that is a non-zero
      number (NaN and 0 are falsy). */
  function FirstNonZero(xs: seq<Option<Js.Val>>): (r: int)
    ensures r != 0 ==> exists i :: 0 <= i < |xs| && Js.ToNumber(xs[i]) == Some(r)
    ensures r == 0 <==> forall i :: 0 <= i < |xs| ==> Js.ToNumber(xs[i]) in {None, Some(0)}
  {
    if xs == [] then 0
    else match Js.ToNumber(xs[0])
      case Some(n) =>
        if n != 0 then n
        else
          var r := FirstNonZero(xs[1..]);
          assert forall i :: 1 <= i < |xs| ==> xs[i] == xs[1..][i - 1];
          r
      case None =>
        var r := FirstNonZero(xs[1..]);
        assert forall i :: 1 <= i < |xs| ==> xs[i] == xs[1..][i - 1];
        r
  }

  /** Where the publication time comes from: a `publishDate` text for `Date` to
      parse, a `published` number read as milliseconds when above 10^12 and as
      seconds otherwise, or nothing (the empty string). */
  datatype Published = FromDate(text: Js.Val) | FromMillis(ms: int) | NoDate

  function PublishedOf(raw: Option<Js.Val>): (r: Published)
    ensures Js.Truthy(Js.Get(raw, "publishDate")) ==> r == FromDate(Js.Get(raw, "publishDate").value)
    ensures r.FromMillis? ==>
      (exists ts :: Js.ToNumber(Js.Get(raw, "published")) == Some(ts) && r.ms == (if ts > 1000000000000 then ts else ts * 1000))
    ensures r.NoDate? <==>
      (!Js.Truthy(Js.Get(raw, "publishDate")) && (!Js.Truthy(Js.Get(raw, "published")) || Js.ToNumber(Js.Get(raw, "published")).None?))
  {
    var date := Js.Get(raw, "publishDate");
    var published := Js.Get(raw, "published");
    if Js.Truthy(date) then FromDate(date.value)
    else if Js.Truthy(published) then
      match Js.ToNumber(published)
      case Some(ts) => FromMillis(ts * (if ts > 1000000000000 then 1 else 1000))
      case None => NoDate
    else NoDate
  }

  /** The largest time value, in milliseconds either side of the epoch, that a
      `Date` can hold. */
  const MaxTimeValue := 8640000000000000

  /** The message of the `RangeError` that `toISOString` throws for an invalid date. */
  const InvalidTimeValue := "Invalid time value"

  /** A time value as `new Date` keeps it: `None` (NaN) beyond `MaxTimeValue`. */
  function TimeClip(ms: int): (r: Option<int>)
    ensures r.Some? <==> -MaxTimeValue <= ms <= MaxTimeValue
    ensures r.Some? ==> r.value == ms
  {
    if -MaxTimeValue <= ms <= MaxTimeValue then Some(ms) else None
  }

  /** `new Date(v)`'s time value: a number is used as it is, any other value is
      turned into text and parsed by `parseDate`, the platform's date parser
      (`None` when it cannot read the text). */
  function DateValue(v: Js.Val, parseDate: string -> Option<int>): (r: Option<int>)
    ensures r.Some? ==> -MaxTimeValue <= r.value <= MaxTimeValue
    ensures v.Num? ==> r == TimeClip(v.n)
    ensures v.Str? && parseDate(v.s).None? ==> r.None?
  {
    match v
    case Num(n) => TimeClip(n)
    case Bool(b) => TimeClip(if b then 1 else 0)
    case Null => TimeClip(0)
    case _ =>
      match parseDate(Js.ValText(v))
      case Some(ms) => TimeClip(ms)
      case None => None
  }

  /** `toISOString` succeeds on the chosen publication time: there is none, or it
      is a valid date. */
  predicate DateOk(p: Published, parseDate: string -> Option<int>) {
    match p
    case FromDate(v) => DateValue(v, parseDate).Some?
    case FromMillis(ms) => TimeClip(ms).Some?
    case NoDate => true
  }

  /** A timestamp far enough before the epoch is read as seconds, and the
      milliseconds it gives lie beyond what a `Date` holds, so `toISOString` throws. */
  lemma FarPastTimestampThrows(parseDate: string -> Option<int>)
    ensures var raw := Some(Js.Obj([("published", Js.Num(-10000000000000))]));
      PublishedOf(raw) == FromMillis(-10000000000000000) && !DateOk(PublishedOf(raw), parseDate)
  {
    var raw := Some(Js.Obj([("published", Js.Num(-10000000000000))]));
    assert Js.Get(raw, "publishDate").None?;
    assert Js.Get(raw, "published") == Some(Js.Num(-10000000000000));
  }

  /** The normalised video details. Fields copied from the provider keep their JSON
      value; `String(...)` fields are text; `Number(...)` fields are `None` for NaN. */
  datatype Details = Details(
    id: Js.Val, title: string, description: string, thumbnail: Js.Val, duration: int,
    channelName: Js.Val, channelId: Js.Val, channelThumb: Js.Val, verified: bool,
    views: Option<int>, likes: Option<int>, comments: Option<int>,
    published: Published, category: string, tags: seq<Js.Val>)

  /** `x?.[0]?.url`. */
  function FirstUrl(x: Option<Js.Val>): Option<Js.Val> {
    Js.Get(Js.At(x, 0), "url")
  }

  /** The address of a video's default thumbnail. */
  function DefaultThumbnail(id: string): string {
    "https://img.youtube.com/vi/" + id + "/hqdefault.jpg"
  }

  /** `raw?.id || raw?.videoId || id`: never empty when the extracted id is not. */
  function DetailsId(id: string, raw: Option<Js.Val>): (r: Js.Val)
    ensures id != "" ==> Js.Truthy(Some(r))
    ensures !Js.Truthy(Js.Get(raw, "id")) && !Js.Truthy(Js.Get(raw, "videoId")) ==> r == Js.Str(id)
    ensures r == Js.Str(id) || Js.Get(raw, "id") == Some(r) || Js.Get(raw, "videoId") == Some(r)
  {
    var r := Js.FirstTruthy([Js.Get(raw, "id"), Js.Get(raw, "videoId")], Js.Str(id));
    assert id != "" ==> Js.Truthy(Some(Js.Str(id)));
    r
  }

  /** The first thumbnail the provider names, else the default thumbnail of the
      video: never empty. */
  function DetailsThumbnail(id: string, raw: Option<Js.Val>): (r: Js.Val)
    ensures Js.Truthy(Some(r))
    ensures (!Js.Truthy(FirstUrl(Js.Get(raw, "thumbnails"))) && !Js.Truthy(FirstUrl(Js.Get(raw, "videoThumbnails")))
             && !Js.Truthy(Js.Get(Js.Get(raw, "thumbnail"), "url"))) ==> r == Js.Str(DefaultThumbnail(id))
  {
    var xs := [FirstUrl(Js.Get(raw, "thumbnails")), FirstUrl(Js.Get(raw, "videoThumbnails")), Js.Get(Js.Get(raw, "thumbnail"), "url")];
    var r := Js.FirstTruthy(xs, Js.Str(DefaultThumbnail(id)));
    assert Js.Truthy(Some(Js.Str(DefaultThumbnail(id))));
    assert (forall i :: 0 <= i < |xs| ==> !Js.Truthy(xs[i])) ==> r == Js.Str(DefaultThumbnail(id));
    r
  }

  /** The first non-zero number among `duration`, `lengthSeconds` and `stats.duration`. */
  function DetailsDuration(raw: Option<Js.Val>): (r: int)
    ensures r != 0 ==>
      (Js.ToNumber(Js.Get(raw, "duration")) == Some(r) || Js.ToNumber(Js.Get(raw, "lengthSeconds")) == Some(r)
       || Js.ToNumber(Js.Get(Js.Get(raw, "stats"), "duration")) == Some(r))
    ensures (Js.ToNumber(Js.Get(raw, "duration")).Some? && Js.ToNumber(Js.Get(raw, "duration")) != Some(0))
      ==> Some(r) == Js.ToNumber(Js.Get(raw, "duration"))
  {
    var xs := [Js.Get(raw, "duration"), Js.Get(raw, "lengthSeconds"), Js.Get(Js.Get(raw, "stats"), "duration")];
    FirstNonZero(xs)
  }

  /** `Array.isArray(raw?.keywords) ? raw.keywords : Array.isArray(raw?.tags) ? raw.tags : []`. */
  function DetailsTags(raw: Option<Js.Val>): (r: seq<Js.Val>)
    ensures Js.Get(raw, "keywords").Some? && Js.Get(raw, "keywords").value.Arr? ==> r == Js.Get(raw, "keywords").value.elems
    ensures r != [] ==> exists k :: k in {"keywords", "tags"} && Js.Get(raw, k).Some? && Js.Get(raw, k).value.Arr?
  {
    var keywords := Js.Get(raw, "keywords");
    var tags := Js.Get(raw, "tags");
    if keywords.Some? && keywords.value.Arr? then keywords.value.elems
    else if tags.Some? && tags.value.Arr? then tags.value.elems
    else []
  }

  /** A count read as `Number(a || b || 0)`. */
  function Count(a: Option<Js.Val>, b: Option<Js.Val>): (r: Option<int>)
    ensures !Js.Truthy(a) && !Js.Truthy(b) ==> r == Some(0)
  {
    Js.ToNumber(Some(Js.FirstTruthy([a, b], Js.Num(0))))
  }

  /** The normalisation of `getVideoDetails` for the extracted `id`. */
  function NormalizeDetails(id: string, raw: Option<Js.Val>): (d: Details)
    ensures d.id == DetailsId(id, raw) && d.thumbnail == DetailsThumbnail(id, raw)
    ensures d.duration == DetailsDuration(raw) && d.tags == DetailsTags(raw)
    ensures d.published == PublishedOf(raw)
  {
    var stats := Js.Get(raw, "stats");
    var channel := Js.Get(raw, "channel");
    Details(
      id := DetailsId(id, raw),
      title := Js.ToStr(Js.Or(Js.Get(raw, "title"), Some(Js.Str("")))),
      description := Js.ToStr(Js.Or(Js.Get(raw, "description"), Some(Js.Str("")))),
      thumbnail := DetailsThumbnail(id, raw),
      duration := DetailsDuration(raw),
      channelName := Js.FirstTruthy([Js.Get(raw, "author"), Js.Get(channel, "name"), Js.Get(raw, "uploader")], Js.Str("")),
      channelId := Js.FirstTruthy([Js.Get(raw, "authorId"), Js.Get(channel, "id")], Js.Str("")),
      channelThumb := Js.FirstTruthy([FirstUrl(Js.Get(raw, "authorThumbnails")), Js.Get(channel, "thumbnail")], Js.Str("")),
      verified := Js.Truthy(Js.Or(Js.Get(raw, "authorVerified"), Js.Get(channel, "verified"))),
      views := Count(Js.Get(raw, "viewCount"), Js.Get(stats, "views")),
      likes := Count(Js.Get(raw, "likeCount"), Js.Get(stats, "likes")),
      comments := Count(Js.Get(raw, "commentCount"), Js.Get(stats, "comments")),
      published := PublishedOf(raw),
      category := Js.ToStr(Js.Or(Js.Or(Js.Get(raw, "genre"), Js.Get(raw, "category")), Some(Js.Str("")))),
      tags := DetailsTags(raw))
  }

  /** `getVideoDetails`: the id check, then `makeRequest`'s reading of `u`, the
      answer to `DetailsRequest`, and the normalisation of the details, which carry
      a non-empty id and thumbnail whatever the provider sends. The publication
      time is turned into text by `toISOString`, which throws a `RangeError` when it
      is not a valid date; `parseDate` is how `new Date` reads a `publishDate` text. */
  function GetVideoDetails(input: string, u: Http.Upstream, parseJson: string -> Option<Js.Val>,
                           parseDate: string -> Option<int>): (r: Result<Details>)
    ensures ExtractVideoId(input).Err? ==> r == Err(InvalidVideoUrl)
    ensures r.Ok? <==> ExtractVideoId(input).Ok? && ReadReply(u, parseJson).Ok?
                       && DateOk(PublishedOf(Some(ReadReply(u, parseJson).value)), parseDate)
    ensures ExtractVideoId(input).Ok? && ReadReply(u, parseJson).Err? ==> r == Err(ReadReply(u, parseJson).error)
    ensures ExtractVideoId(input).Ok? && ReadReply(u, parseJson).Ok? && !DateOk(PublishedOf(Some(ReadReply(u, parseJson).value)), parseDate) ==>
      r == Err(InvalidTimeValue)
    ensures r.Ok? ==> r.value == NormalizeDetails(ExtractVideoId(input).value, Some(ReadReply(u, parseJson).value))
    ensures r.Ok? ==> Js.Truthy(Some(r.value.id)) && Js.Truthy(Some(r.value.thumbnail))
  {
    match ExtractVideoId(input)
    case Err(e) => Err(e)
    case Ok(id) =>
      match ReadReply(u, parseJson)
      case Err(e) => Err(e)
      case Ok(raw) =>
        if DateOk(PublishedOf(Some(raw)), parseDate) then Ok(NormalizeDetails(id, Some(raw)))
        else Err(InvalidTimeValue)
  }

  /** The request `getVideoDetails` sends, to which `u` is the answer: none when the
      id check throws, else `/video.php` with the extracted id as its only
      parameter. */
  function DetailsRequest(svc: Service, input: string): (r: Option<ProviderRequest>)
    ensures r.None? <==> ExtractVideoId(input).Err?
    ensures r.Some? ==> r.value == RequestOf(svc, "/video.php", [("id", Some(ExtractVideoId(input).value))])
    ensures r.Some? ==> r.value.url == svc.base + "/video.php" && r.value.query == [("id", ExtractVideoId(input).value)]
  {
    match ExtractVideoId(input)
    case Err(_) => None
    case Ok(id) =>
      assert SentParams([("id", Some(id))]) == [("id", id)] by {
        assert [("id", Some(id))][..0] == [];
      }
      Some(RequestOf(svc, "/video.php", [("id", Some(id))]))
  }
}
