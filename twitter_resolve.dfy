/** The Twitter resolve route: it asks a worker for a tweet's media and reshapes the
    answer into the preview the page shows: one item at most, the tweet's title,
    and the quality variants as links through the Twitter proxy route. */
module TwitterResolve {
  import opened Wrappers
  import Text
  import Seqs
  import Js
  import Http
  import TwitterProxy
  import TwitterDownload

  const DefaultWorker := "https://xmediahub.farelrasyah87.workers.dev"
  const DefaultTitle := "Twitter Media"
  const MissingUrl := "Parameter 'url' wajib diisi. Contoh: /api/twitter?url=https://x.com/.../status/123"
  const ResolverFailed := "Gagal memanggil resolver"

  // ---------------------------------------------------------------- the worker

  /** `s.replace(/\/+$/, '')`: the text without its trailing slashes. */
  function StripSlashes(s: string): (r: string)
    ensures |r| <= |s| && r == s[..|r|]
    ensures forall i :: |r| <= i < |s| ==> s[i] == '/'
    ensures r == [] || r[|r| - 1] != '/'
  {
    if s != [] && s[|s| - 1] == '/' then StripSlashes(s[..|s| - 1]) else s
  }

  /** `getWorkerBase`: the configured base without trailing slashes, or the default
      worker when none is configured or nothing is left. `env` is the environment
      variable, which the model takes as an input. */
  function WorkerBase(env: Option<string>): (r: string)
    ensures r != "" && r[|r| - 1] != '/'
    ensures env.Some? && StripSlashes(env.value) != "" ==> r == StripSlashes(env.value)
    ensures env.None? || StripSlashes(env.value) == "" ==> r == DefaultWorker
  {
    if env.Some? && StripSlashes(env.value) != "" then StripSlashes(env.value) else DefaultWorker
  }

  /** The configured base is the worker base followed by slashes only. */
  lemma WorkerBaseOfEnv(env: string)
    requires StripSlashes(env) != ""
    ensures Text.StartsWith(env, WorkerBase(Some(env)))
    ensures forall i :: |WorkerBase(Some(env))| <= i < |env| ==> env[i] == '/'
  {
  }

  /** The request to the worker for the tweet at `url`. */
  function WorkerRequest(env: Option<string>, api: Http.UrlApi, url: string): (r: Http.Outbound)
    ensures var head := WorkerBase(env) + "/twitter/resolve?url=";
      && |r.url| == |head| + |api.encode(url)| + |"&all=1"|
      && Text.StartsWith(r.url, head) && Text.EndsWith(r.url, "&all=1")
      && r.url[|head|..|r.url| - |"&all=1"|] == api.encode(url)
    ensures r.headers == map["user-agent" := "Mozilla/5.0"]
  {
    var head := WorkerBase(env) + "/twitter/resolve?url=";
    var u := head + api.encode(url) + "&all=1";
    assert u[..|head|] == head;
    assert u[|u| - |"&all=1"|..] == "&all=1";
    assert u[|head|..|u| - |"&all=1"|] == api.encode(url);
    Http.Outbound(u, map["user-agent" := "Mozilla/5.0"])
  }

  // ---------------------------------------------------------------- worker fields

  /** `normalizeUrl(x) || undefined` on a worker field: a falsy value is missing, a
      string is normalised, and any other value makes `startsWith` throw. */
  function UrlField(x: Option<Js.Val>): (r: Result<Option<string>>)
    ensures !Js.Truthy(x) ==> r == Ok(None)
    ensures Js.Truthy(x) && x.value.Str? ==> r == Ok(TwitterProxy.NormalizeUrl(x.value.s))
    ensures Js.Truthy(x) && !x.value.Str? ==> r == Err(Js.TypeErrorText)
    ensures r.Ok? && r.value.Some? ==> r.value.value != ""
  {
    if !Js.Truthy(x) then Ok(None)
    else match x.value
      case Str(s) =>
        var n := TwitterProxy.NormalizeUrl(s);
        assert n.Some? ==> n.value != "" by {
          if Text.StartsWith(s, "http://") { assert |s| >= 7; }
        }
        Ok(n)
      case _ => Err(Js.TypeErrorText)
  }

  /** `text?.trim() || 'Twitter Media'`: `?.` spares only `null` and `undefined`;
      any other value that is not a string throws. */
  function TitleOf(text: Option<Js.Val>): (r: Result<string>)
    ensures r.Ok? ==> r.value != "" && !Text.IsSpace(r.value[0])
    ensures text.None? || text == Some(Js.Null) ==> r == Ok(DefaultTitle)
    ensures text.Some? && text.value.Str? && Text.Trim(text.value.s) != "" ==> r == Ok(Text.Trim(text.value.s))
    ensures text.Some? && text.value.Str? && Text.Trim(text.value.s) == "" ==> r == Ok(DefaultTitle)
    ensures r.Err? <==> text.Some? && text.value != Js.Null && !text.value.Str?
  {
    match text
    case None => Ok(DefaultTitle)
    case Some(Null) => Ok(DefaultTitle)
    case Some(Str(s)) => if Text.Trim(s) == "" then Ok(DefaultTitle) else Ok(Text.Trim(s))
    case Some(_) => Err(Js.TypeErrorText)
  }

  // ---------------------------------------------------------------- items

  datatype Kind = Image | Video
  datatype Item = Item(kind: Kind, url: string, thumbnail: Option<string>)

  /** The link through the Twitter proxy route for a media address. */
  function ProxyLink(api: Http.UrlApi, target: string): string {
    TwitterDownload.ProxyPath + "?mediaUrl=" + api.encode(target)
  }

  /** `normalizedItems`: a photo with a thumbnail is shown as that image; a video or
      animated GIF with a best address is played through the proxy route; nothing
      else is shown. */
  function Items(api: Http.UrlApi, mediaType: Option<Js.Val>, best: Option<string>, thumbnail: Option<string>): (r: seq<Item>)
    ensures |r| <= 1
    ensures r != [] && r[0].kind == Image <==> Js.IsString(mediaType, "photo") && thumbnail.Some?
    ensures r != [] && r[0].kind == Image ==> r[0] == Item(Image, thumbnail.value, thumbnail)
    ensures r != [] && r[0].kind == Video <==>
      !(Js.IsString(mediaType, "photo") && thumbnail.Some?)
      && (Js.IsString(mediaType, "video") || Js.IsString(mediaType, "animated_gif")) && best.Some?
    ensures r != [] && r[0].kind == Video ==> r[0] == Item(Video, ProxyLink(api, best.value), thumbnail)
  {
    if Js.IsString(mediaType, "photo") && thumbnail.Some? then [Item(Image, thumbnail.value, thumbnail)]
    else if (Js.IsString(mediaType, "video") || Js.IsString(mediaType, "animated_gif")) && best.Some? then
      [Item(Video, ProxyLink(api, best.value), thumbnail)]
    else []
  }

  // ---------------------------------------------------------------- variants

  /** A variant as the page receives it. */
  datatype Variant = Variant(url: string, bitrate: Js.Val, width: Js.Val, height: Js.Val, labelText: Js.Val)

  /** `Math.round(n / 1000)`, halves rounded up. */
  function Round1000(n: int): (r: int)
    ensures 1000 * r - 500 <= n < 1000 * r + 500
  {
    (n + 500) / 1000
  }

  /** The label of a variant: its own label, else its height with 'p', else its
      bitrate in kilobits, rounded, with 'kbps' ('NaNkbps' for a bitrate that is not
      a number), else 'mp4'. */
  function Label(v: Option<Js.Val>): (r: Js.Val)
    ensures Js.Truthy(Js.Get(v, "label")) ==> Some(r) == Js.Get(v, "label")
    ensures !Js.Truthy(Js.Get(v, "label")) && Js.Truthy(Js.Get(v, "height")) ==>
      r == Js.Str(Js.ToStr(Js.Get(v, "height")) + "p")
    ensures !Js.Truthy(Js.Get(v, "label")) && !Js.Truthy(Js.Get(v, "height")) && Js.Truthy(Js.Get(v, "bitrate")) ==>
      var n := Js.ToNumber(Js.Get(v, "bitrate"));
      && (n.Some? ==> r == Js.Str(Text.IntToString(Round1000(n.value)) + "kbps"))
      && (n.None? ==> r == Js.Str("NaNkbps"))
    ensures !Js.Truthy(Js.Get(v, "label")) && !Js.Truthy(Js.Get(v, "height")) && !Js.Truthy(Js.Get(v, "bitrate")) ==>
      r == Js.Str("mp4")
    ensures !Js.Truthy(Js.Get(v, "label")) ==> r.Str? && r.s != ""
  {
    var own := Js.Get(v, "label");
    if Js.Truthy(own) then own.value
    else if Js.Truthy(Js.Get(v, "height")) then Js.Str(Js.ToStr(Js.Get(v, "height")) + "p")
    else if Js.Truthy(Js.Get(v, "bitrate")) then
      match Js.ToNumber(Js.Get(v, "bitrate"))
      case None => Js.Str("NaNkbps")
      case Some(n) => Js.Str(Text.IntToString(Round1000(n)) + "kbps")
    else Js.Str("mp4")
  }

  /** `v?.url` is set. */
  predicate HasUrl(v: Js.Val) { Js.Truthy(Js.Get(Some(v), "url")) }

  /** `v.url` is a string, so normalising it does not throw. */
  predicate UrlIsText(v: Js.Val) { Js.Get(Some(v), "url").Some? && Js.Get(Some(v), "url").value.Str? }

  /** The page's variant for a raw variant with a string address. */
  function VariantOf(api: Http.UrlApi, v: Js.Val): Variant {
    var url := match Js.Get(Some(v), "url") case Some(Str(s)) => TwitterProxy.NormalizeUrl(s).GetOr("") case _ => "";
    Variant(ProxyLink(api, url),
            Js.Or(Js.Get(Some(v), "bitrate"), Some(Js.Null)).value,
            Js.Or(Js.Get(Some(v), "width"), Some(Js.Null)).value,
            Js.Or(Js.Get(Some(v), "height"), Some(Js.Null)).value,
            Label(Some(v)))
  }

  /** The `filter`/`map` chains over the raw variants: those without an address
      are dropped, the others become proxy links; an address that is not a string
      throws. */
  function Variants(api: Http.UrlApi, raw: seq<Js.Val>): (r: Result<seq<Variant>>)
    ensures r.Err? ==> r.error == Js.TypeErrorText
    ensures r.Ok? ==> |r.value| <= |raw|
  {
    if raw == [] then Ok([])
    else if !HasUrl(raw[0]) then Variants(api, raw[1..])
    else if !UrlIsText(raw[0]) then Err(Js.TypeErrorText)
    else match Variants(api, raw[1..])
      case Err(e) => Err(e)
      case Ok(rest) => Ok([VariantOf(api, raw[0])] + rest)
  }

  /** The chain throws exactly when a kept variant's address is not a string. */
  lemma {:induction false} VariantsOk(api: Http.UrlApi, raw: seq<Js.Val>)
    ensures Variants(api, raw).Ok? <==> forall v :: v in Seqs.Filter(raw, HasUrl) ==> UrlIsText(v)
    decreases |raw|
  {
    if raw != [] {
      VariantsOk(api, raw[1..]);
      Seqs.FilterMembers(raw, HasUrl, raw[0]);
      forall v ensures v in Seqs.Filter(raw, HasUrl) <==> (HasUrl(raw[0]) && v == raw[0]) || v in Seqs.Filter(raw[1..], HasUrl) {
        Seqs.FilterMembers(raw, HasUrl, v);
        Seqs.FilterMembers(raw[1..], HasUrl, v);
        assert v in raw <==> v == raw[0] || v in raw[1..];
      }
    }
  }

  /** Otherwise the variants are the kept raw variants, mapped one by one. */
  lemma {:induction false} VariantsMap(api: Http.UrlApi, raw: seq<Js.Val>)
    requires Variants(api, raw).Ok?
    ensures Variants(api, raw).value == Seqs.Map(Seqs.Filter(raw, HasUrl), v => VariantOf(api, v))
    decreases |raw|
  {
    if raw != [] {
      VariantsMap(api, raw[1..]);
      var f := v => VariantOf(api, v);
      if HasUrl(raw[0]) {
        assert Seqs.Filter(raw, HasUrl) == [raw[0]] + Seqs.Filter(raw[1..], HasUrl);
        Seqs.MapConcat([raw[0]], Seqs.Filter(raw[1..], HasUrl), f);
      } else {
        assert Seqs.Filter(raw, HasUrl) == Seqs.Filter(raw[1..], HasUrl);
      }
    }
  }

  // ---------------------------------------------------------------- the handler

  /** The tweet block: passed-through fields and the normalised profile image. */
  datatype Tweet = Tweet(id: Option<Js.Val>, author: Option<Js.Val>, username: Option<Js.Val>,
                         profileImage: Option<string>, text: Option<Js.Val>)

  /** The success body (its `success`, `platform` and `source` members are fixed). */
  datatype Preview = Preview(input: string, videoUrl: string, kind: Kind, thumbnail: Option<string>,
                             tweet: Tweet, title: string, items: seq<Item>, variants: seq<Variant>)

  datatype Answer = Failed(resp: Http.Response) | Resolved(preview: Preview)

  /** The raw variants: the worker's list when it is an array. */
  function RawVariants(media: Option<Js.Val>): seq<Js.Val> {
    match Js.Get(media, "variants")
    case Some(Arr(e)) => e
    case _ => []
  }

  /** The preview built from the worker's JSON `data` for the tweet at `url`, or the
      message of the error the reshaping throws. It throws exactly when one of the
      worker's fields has a type the route's calls cannot take: a truthy `best`,
      `thumbnail` or `profile_image` that is not a string, a `text` that is neither a
      string nor null, or a kept variant whose `url` is not a string. */
  function Reshape(env: Option<string>, api: Http.UrlApi, url: string, data: Js.Val): (r: Result<Preview>)
    ensures r.Ok? ==> r.value.input == url && r.value.title != "" && |r.value.items| <= 1
    ensures r.Ok? ==> (r.value.kind == Image <==> Js.IsString(Js.Get(Js.Get(Some(data), "media"), "type"), "photo"))
    ensures r.Ok? ==> r.value.videoUrl == WorkerBase(env) + "/twitter/download?url=" + api.encode(url)
    ensures r.Err? ==> r.error == Js.TypeErrorText
    ensures var media := Js.Get(Some(data), "media");
      var tweet := Js.Get(Some(data), "tweet");
      r.Err? <==>
        || UrlField(Js.Get(media, "best")).Err? || UrlField(Js.Get(media, "thumbnail")).Err?
        || Variants(api, RawVariants(media)).Err? || TitleOf(Js.Get(tweet, "text")).Err?
        || UrlField(Js.Get(tweet, "profile_image")).Err?
    ensures var media := Js.Get(Some(data), "media");
      var tweet := Js.Get(Some(data), "tweet");
      r.Ok? ==>
        && r.value.thumbnail == UrlField(Js.Get(media, "thumbnail")).value
        && r.value.title == TitleOf(Js.Get(tweet, "text")).value
        && r.value.items == Items(api, Js.Get(media, "type"), UrlField(Js.Get(media, "best")).value, r.value.thumbnail)
        && r.value.variants == Variants(api, RawVariants(media)).value
        && r.value.tweet == Tweet(Js.Get(tweet, "id"), Js.Get(tweet, "author"), Js.Get(tweet, "author_username"),
                                  UrlField(Js.Get(tweet, "profile_image")).value, Js.Get(tweet, "text"))
  {
    var media := Js.Get(Some(data), "media");
    var tweet := Js.Get(Some(data), "tweet");
    var mediaType := Js.Get(media, "type");
    match (UrlField(Js.Get(media, "best")), UrlField(Js.Get(media, "thumbnail")),
           Variants(api, RawVariants(media)), TitleOf(Js.Get(tweet, "text")),
           UrlField(Js.Get(tweet, "profile_image")))
    case (Ok(best), Ok(thumbnail), Ok(variants), Ok(title), Ok(profile)) =>
      Ok(Preview(url, WorkerBase(env) + "/twitter/download?url=" + api.encode(url),
                 if Js.IsString(mediaType, "photo") then Image else Video, thumbnail,
                 Tweet(Js.Get(tweet, "id"), Js.Get(tweet, "author"), Js.Get(tweet, "author_username"), profile, Js.Get(tweet, "text")),
                 title, Items(api, mediaType, best, thumbnail), variants))
    case _ => Err(Js.TypeErrorText)
  }

  /** What the route sends to the worker: nothing without a `url` parameter. */
  function Sent(env: Option<string>, api: Http.UrlApi, q: Http.Query): (r: Option<Http.Outbound>)
    ensures r.None? <==> Http.QueryGetOr(q, "url", "") == ""
    ensures r.Some? ==> r.value == WorkerRequest(env, api, Http.QueryGetOr(q, "url", ""))
  {
    var url := Http.QueryGetOr(q, "url", "");
    if url == "" then None else Some(WorkerRequest(env, api, url))
  }

  /** `GET`: `u` is the worker's answer to the request `Sent` gives. */
  function Get(env: Option<string>, api: Http.UrlApi, q: Http.Query, u: Http.Upstream,
               parseJson: string -> Option<Js.Val>): (r: Answer)
    ensures Http.QueryGetOr(q, "url", "") == "" ==> r == Failed(Http.JsonResponse(Http.ErrorBody(MissingUrl), 400))
    ensures Http.QueryGetOr(q, "url", "") != "" && u.Failure? ==> r == Failed(TwitterDownload.InternalError(u.message))
    ensures Http.QueryGetOr(q, "url", "") != "" && u.Reply? && !Http.IsOk(u.status) ==>
      r == Failed(Http.JsonResponse(Js.Obj([("error", Js.Str(ResolverFailed)), ("status", Js.Num(u.status)), ("message", Js.Str(u.text))]), 502))
    ensures Http.QueryGetOr(q, "url", "") != "" && u.Reply? && Http.IsOk(u.status) && parseJson(u.text).None? ==>
      r == Failed(TwitterDownload.InternalError(Js.SyntaxErrorText))
    ensures r.Resolved? <==>
      && Http.QueryGetOr(q, "url", "") != "" && u.Reply? && Http.IsOk(u.status) && parseJson(u.text).Some?
      && Reshape(env, api, Http.QueryGetOr(q, "url", ""), parseJson(u.text).value).Ok?
    ensures r.Resolved? ==> r.preview == Reshape(env, api, Http.QueryGetOr(q, "url", ""), parseJson(u.text).value).value
    ensures Http.QueryGetOr(q, "url", "") != "" && u.Reply? && Http.IsOk(u.status) && parseJson(u.text).Some?
            && Reshape(env, api, Http.QueryGetOr(q, "url", ""), parseJson(u.text).value).Err? ==>
      r == Failed(TwitterDownload.InternalError(Js.TypeErrorText))
  {
    var url := Http.QueryGetOr(q, "url", "");
    if url == "" then Failed(Http.JsonResponse(Http.ErrorBody(MissingUrl), 400))
    else match u
      case Failure(m) => Failed(TwitterDownload.InternalError(m))
      case Reply(status, _, _, text) =>
        if !Http.IsOk(status) then
          Failed(Http.JsonResponse(Js.Obj([("error", Js.Str(ResolverFailed)), ("status", Js.Num(status)), ("message", Js.Str(text))]), 502))
        else match parseJson(text)
          case None => Failed(TwitterDownload.InternalError(Js.SyntaxErrorText))
          case Some(data) =>
            match Reshape(env, api, url, data)
            case Err(m) => Failed(TwitterDownload.InternalError(m))
            case Ok(p) => Resolved(p)
  }

  // ---------------------------------------------------------------- the links

  /** A video item's link reaches the download route as the best address: once the
      link is resolved and its `mediaUrl` decoded, the download route parses that
      address. */
  lemma ProxyLinkReachesDownload(api: Http.UrlApi, req: Http.Request, proxy: Http.Url, best: string)
    requires Http.QueryGetOr(req.query, "mediaUrl", "") == ProxyLink(api, best)
    requires api.resolve(ProxyLink(api, best), req.url) == Some(proxy)
    requires Http.QueryGetOr(proxy.query, "mediaUrl", "") == api.encode(best) && api.encode(best) != ""
    requires api.decode(api.encode(best)) == Some(best)
    ensures TwitterDownload.TargetOf(api, req) == match api.parse(best) case None => TwitterDownload.Unparsable case Some(u) => TwitterDownload.Parsed(u)
  {
    var link := ProxyLink(api, best);
    assert link[..|TwitterDownload.ProxyPath|] == TwitterDownload.ProxyPath;
    TwitterDownload.ProxyLinkUnwrapped(api, req, proxy, api.encode(best), best);
  }

  /** A variant's link reaches the proxy route as its normalised address, which the
      proxy's own normalisation keeps as it is. */
  lemma VariantLinkReachesProxy(q: Http.Query, raw: string)
    requires raw != ""
    requires Http.QueryGetOr(q, "mediaUrl", "") == TwitterProxy.NormalizeUrl(raw).value
    ensures TwitterProxy.MediaUrl(q) == TwitterProxy.NormalizeUrl(raw)
  {
    TwitterProxy.NormalizeIdempotent(raw);
  }
}
