/** The Instagram resolve route: it checks that the address is an Instagram one,
    asks the provider about two spellings of it (with and without a trailing
    slash), logs every attempt, stops at the first decisive answer and otherwise
    reports the most informative failure; a provider payload is reshaped into a
    title and a list of media items. */
module InstagramResolve {
  import opened Wrappers
  import Text
  import Seqs
  import Js
  import Http

  const ProviderBase := "https://fastsaverapi.com"
  const EndpointPath := "/get-info"
  const BodyLimit := 2000
  const TruncatedMark := "\U{2026}(truncated)"

  const MissingUrl := "Missing url parameter"
  const Misconfigured := "Server misconfiguration"
  const InvalidUrl := "Invalid URL"
  const NotInstagram := "URL must be from instagram.com"
  const Unauthorized := "Unauthorized from provider. Check FASTSAVER_API_KEY."
  const Invalid422 := "Validation error from provider (422). Pastikan parameter \"url\" dan \"token\" benar serta konten IG publik."
  const RateLimited := "Rate limited by provider. Try again later."
  const NotFound := "Media not found. Pastikan URL IG publik & benar."
  const ProviderError := "Provider error"

  // ---------------------------------------------------------------- truncate

  /** `truncate(s, n)`: a missing or empty text is returned as it is; a longer one
      keeps its first `n` characters and is marked. */
  function Truncate(s: Option<string>, n: nat): (r: Option<string>)
    ensures r.None? <==> s.None?
    ensures s.Some? && |s.value| <= n ==> r == s
    ensures s.Some? && |s.value| > n ==>
      |r.value| == n + |TruncatedMark| && r.value[..n] == s.value[..n] && r.value[n..] == TruncatedMark
  {
    if s.None? || s.value == "" then s
    else if |s.value| > n then Some(s.value[..n] + TruncatedMark)
    else s
  }

  // ---------------------------------------------------------------- the checks

  /** `/(\.|^)instagram\.com$|(\.|^)instagr\.am$/i` on the host name. */
  predicate InstagramHost(hostname: string) {
    var h := Text.Lower(hostname);
    h == "instagram.com" || Text.EndsWith(h, ".instagram.com") || h == "instagr.am" || Text.EndsWith(h, ".instagr.am")
  }

  datatype Attempt = Attempt(providerUrl: string, triedIgUrl: string, status: Option<int>,
                             bodyText: Option<string>, headers: seq<(string, string)>, error: Option<string>)

  /** A media item of the normalised payload. */
  datatype Kind = Video | Image
  datatype Media = Media(kind: Kind, url: Js.Val, thumbnail: Js.Val, quality: Js.Val)
  datatype Normalized = Normalized(title: Js.Val, items: seq<Media>)

  /** The JSON bodies the route answers with. */
  datatype Body =
    | Error(message: string)
    | ErrorLog(message: string, attempts: seq<Attempt>)
    | RawText(text: string, attempts: seq<Attempt>)
    | Normal(raw: Js.Val, normalized: Normalized, attempts: seq<Attempt>)

  datatype Answer = Answer(status: int, body: Body)

  /** The input checks, in order: the `url` parameter, the API key (`token`, an
      environment variable taken as an input), the URL's syntax and its host. The
      answer is the refusal, if any. */
  function Refusal(api: Http.UrlApi, q: Http.Query, token: Option<string>): (r: Option<Answer>)
    ensures Http.QueryGetOr(q, "url", "") == "" ==> r == Some(Answer(400, Error(MissingUrl)))
    ensures Http.QueryGetOr(q, "url", "") != "" && (token.None? || token.value == "") ==>
      r == Some(Answer(500, Error(Misconfigured)))
    ensures Http.QueryGetOr(q, "url", "") != "" && token.Some? && token.value != "" && api.parse(Http.QueryGetOr(q, "url", "")).None? ==>
      r == Some(Answer(400, Error(InvalidUrl)))
    ensures (Http.QueryGetOr(q, "url", "") != "" && token.Some? && token.value != "" && api.parse(Http.QueryGetOr(q, "url", "")).Some?
             && !InstagramHost(api.parse(Http.QueryGetOr(q, "url", "")).value.hostname)) ==>
      r == Some(Answer(400, Error(NotInstagram)))
    ensures r.None? <==>
      Http.QueryGetOr(q, "url", "") != "" && token.Some? && token.value != "" && api.parse(Http.QueryGetOr(q, "url", "")).Some?
      && InstagramHost(api.parse(Http.QueryGetOr(q, "url", "")).value.hostname)
  {
    var rawUrl := Http.QueryGetOr(q, "url", "");
    if rawUrl == "" then Some(Answer(400, Error(MissingUrl)))
    else if token.None? || token.value == "" then Some(Answer(500, Error(Misconfigured)))
    else match api.parse(rawUrl)
      case None => Some(Answer(400, Error(InvalidUrl)))
      case Some(parsed) => if !InstagramHost(parsed.hostname) then Some(Answer(400, Error(NotInstagram))) else None
  }

  // ---------------------------------------------------------------- the variants

  /** The other spelling: the trailing '/' removed, or added. */
  function Toggle(base: string): (r: string)
    ensures Text.EndsWith(base, "/") ==> r == base[..|base| - 1]
    ensures !Text.EndsWith(base, "/") ==> |r| == |base| + 1 && r[..|base|] == base && r[|base|] == '/'
  {
    if Text.EndsWith(base, "/") then base[..|base| - 1]
    else
      assert (base + "/")[|base|..] == "/";
      base + "/"
  }

  /** Toggling twice gives the address back, unless it ends in two slashes. */
  lemma ToggleTwice(base: string)
    requires !Text.EndsWith(base, "//")
    ensures Toggle(Toggle(base)) == base
  {
    if Text.EndsWith(base, "/") {
      assert base == base[..|base| - 1] + "/";
    } else {
      assert (base + "/")[..|base|] == base;
    }
  }

  /** `igVariants`: the origin and path, then its other spelling; the set keeps both,
      since they always differ. */
  function IgVariants(parsed: Http.Url): (r: seq<string>)
    ensures |r| == 2 && r[0] == parsed.origin + parsed.pathname && r[1] == Toggle(r[0]) && r[0] != r[1]
  {
    var base := parsed.origin + parsed.pathname;
    assert |Toggle(base)| != |base|;
    [base, Toggle(base)]
  }

  // ---------------------------------------------------------------- one attempt

  /** The headers of a provider request. */
  const ProviderHeaders: Http.Headers := map[
    "accept" := "application/json",
    "user-agent" := "Mozilla/5.0 (compatible; NextJS-FastSaverProxy/1.0)"]

  /** The provider request for one variant: the token goes in the query. */
  function ProviderRequest(api: Http.UrlApi, igUrl: string, token: string): Http.Outbound {
    Http.Outbound(ProviderBase + EndpointPath + "?url=" + api.formEncode(igUrl) + "&token=" + api.formEncode(token), ProviderHeaders)
  }

  /** The logged form of that request, with the token masked. */
  function LoggedUrl(api: Http.UrlApi, igUrl: string): string {
    ProviderBase + EndpointPath + "?url=" + api.encode(igUrl) + "&token=***"
  }

  /** The log entry of one attempt: the status, the body cut to 2000 characters and
      the headers of an answer, or the error of a fetch that threw (a timeout
      included). */
  function AttemptOf(api: Http.UrlApi, igUrl: string, u: Http.Upstream): (r: Attempt)
    ensures r.triedIgUrl == igUrl && r.providerUrl == LoggedUrl(api, igUrl)
    ensures u.Reply? ==> r.status == Some(u.status) && r.error.None?
    ensures u.Failure? ==> r.status.None? && r.error == Some(u.message)
  {
    match u
    case Reply(status, _, entries, text) =>
      Attempt(LoggedUrl(api, igUrl), igUrl, Some(status), Truncate(Some(text), BodyLimit), entries, None)
    case Failure(m) => Attempt(LoggedUrl(api, igUrl), igUrl, None, None, [], Some(m))
  }

  /** An answer that ends the loop: an OK one, 401, 422 or 429. */
  predicate Stops(u: Http.Upstream) {
    u.Reply? && (Http.IsOk(u.status) || u.status == 401 || u.status == 422 || u.status == 429)
  }

  /** `JSON.parse(bodyText || 'null')`: `None` when it throws. */
  function Payload(text: string, parseJson: string -> Option<Js.Val>): Option<Js.Val> {
    if text == "" then Some(Js.Null) else parseJson(text)
  }

  /** The answer given at a decisive provider answer, with the attempts so far: an
      OK answer's body is relayed as parsed JSON with its normalisation, or as raw
      text when it does not parse. */
  function StopAnswer(u: Http.Upstream, attempts: seq<Attempt>, parseJson: string -> Option<Js.Val>): (r: Answer)
    requires Stops(u)
    ensures Http.IsOk(u.status) ==> r.status == 200
    ensures Http.IsOk(u.status) && Payload(u.text, parseJson).None? ==> r.body == RawText(u.text, attempts)
    ensures Http.IsOk(u.status) && Payload(u.text, parseJson).Some? ==>
      r.body == Normal(Payload(u.text, parseJson).value, Normalize(Payload(u.text, parseJson).value), attempts)
    ensures u.status == 401 ==> r == Answer(502, ErrorLog(Unauthorized, attempts))
    ensures u.status == 422 ==> r == Answer(422, ErrorLog(Invalid422, attempts))
    ensures u.status == 429 ==> r == Answer(429, ErrorLog(RateLimited, attempts))
  {
    if Http.IsOk(u.status) then
      match Payload(u.text, parseJson)
      case None => Answer(200, RawText(u.text, attempts))
      case Some(p) => Answer(200, Normal(p, Normalize(p), attempts))
    else if u.status == 401 then Answer(502, ErrorLog(Unauthorized, attempts))
    else if u.status == 422 then Answer(422, ErrorLog(Invalid422, attempts))
    else Answer(429, ErrorLog(RateLimited, attempts))
  }

  // ---------------------------------------------------------------- all attempts

  /** The index of the first decisive answer. */
  function FirstStop(answers: seq<Http.Upstream>): (r: Option<nat>)
    ensures r.Some? ==> r.value < |answers| && Stops(answers[r.value]) && forall j :: 0 <= j < r.value ==> !Stops(answers[j])
    ensures r.None? ==> forall j :: 0 <= j < |answers| ==> !Stops(answers[j])
  {
    FirstStopFrom(answers, 0)
  }

  /** The index of the first decisive answer at or after `i`. */
  function FirstStopFrom(answers: seq<Http.Upstream>, i: nat): (r: Option<nat>)
    requires i <= |answers|
    ensures r.Some? ==> i <= r.value < |answers| && Stops(answers[r.value]) && forall j :: i <= j < r.value ==> !Stops(answers[j])
    ensures r.None? ==> forall j :: i <= j < |answers| ==> !Stops(answers[j])
    decreases |answers| - i
  {
    if i == |answers| then None
    else if Stops(answers[i]) then Some(i)
    else FirstStopFrom(answers, i + 1)
  }

  /** The number of variants tried. */
  function Tried(answers: seq<Http.Upstream>): nat {
    match FirstStop(answers)
    case Some(k) => k + 1
    case None => |answers|
  }

  /** The log after the first `k` attempts. */
  function Attempts(api: Http.UrlApi, variants: seq<string>, answers: seq<Http.Upstream>, k: nat): (r: seq<Attempt>)
    requires k <= |variants| && k <= |answers|
    ensures |r| == k
    ensures forall j :: 0 <= j < k ==> r[j] == AttemptOf(api, variants[j], answers[j])
  {
    if k == 0 then [] else Attempts(api, variants, answers, k - 1) + [AttemptOf(api, variants[k - 1], answers[k - 1])]
  }

  /** The requests sent in the first `k` attempts. */
  function Requests(api: Http.UrlApi, variants: seq<string>, token: string, k: nat): (r: seq<Http.Outbound>)
    requires k <= |variants|
    ensures |r| == k
    ensures forall j :: 0 <= j < k ==> r[j] == ProviderRequest(api, variants[j], token)
  {
    if k == 0 then [] else Requests(api, variants, token, k - 1) + [ProviderRequest(api, variants[k - 1], token)]
  }

  /** The first recorded status that `p` accepts (a status of 0 is falsy and never
      counts). */
  function FirstStatus(a: seq<Attempt>, p: int -> bool): (r: Option<int>)
    ensures r.Some? ==> r.value != 0 && p(r.value) && exists j :: 0 <= j < |a| && a[j].status == r
    ensures r.None? ==> forall j :: 0 <= j < |a| && a[j].status.Some? && a[j].status.value != 0 ==> !p(a[j].status.value)
  {
    FirstStatusFrom(a, p, 0)
  }

  /** The first recorded status that `p` accepts at or after `i`. */
  function FirstStatusFrom(a: seq<Attempt>, p: int -> bool, i: nat): (r: Option<int>)
    requires i <= |a|
    ensures r.Some? ==> r.value != 0 && p(r.value) && exists j :: i <= j < |a| && a[j].status == r
    ensures r.None? ==> forall j :: i <= j < |a| && a[j].status.Some? && a[j].status.value != 0 ==> !p(a[j].status.value)
    decreases |a| - i
  {
    if i == |a| then None
    else if a[i].status.Some? && a[i].status.value != 0 && p(a[i].status.value) then a[i].status
    else FirstStatusFrom(a, p, i + 1)
  }

  predicate Informative(s: int) { s >= 400 && s != 404 }
  predicate AnyStatus(s: int) { true }

  /** `statusFromAttempts`: the first informative error status (400 or more, other
      than 404), else the first status at all, else 502. */
  function FinalStatus(a: seq<Attempt>): (r: int)
    ensures r == 502 || exists j :: 0 <= j < |a| && a[j].status == Some(r)
    ensures r == 404 ==> forall j :: 0 <= j < |a| && a[j].status.Some? && a[j].status.value != 0 ==> !Informative(a[j].status.value)
  {
    match FirstStatus(a, Informative)
    case Some(s) => s
    case None =>
      match FirstStatus(a, AnyStatus)
      case Some(s) => s
      case None => 502
  }

  /** The answer when every variant failed: the final status, with the not-found
      message exactly for 404. */
  function AllFailed(a: seq<Attempt>): (r: Answer)
    ensures r.status == FinalStatus(a) && r.body.ErrorLog? && r.body.attempts == a
    ensures r.body.message == NotFound <==> FinalStatus(a) == 404
  {
    Answer(FinalStatus(a), ErrorLog(if FinalStatus(a) == 404 then NotFound else ProviderError, a))
  }

  /** What the loop over the variants ends in, for the provider's answers to them. */
  function Outcome(api: Http.UrlApi, variants: seq<string>, answers: seq<Http.Upstream>,
                   parseJson: string -> Option<Js.Val>): Answer
    requires |variants| == |answers|
  {
    match FirstStop(answers)
    case Some(k) => StopAnswer(answers[k], Attempts(api, variants, answers, k + 1), parseJson)
    case None => AllFailed(Attempts(api, variants, answers, |variants|))
  }

  /** The route answers 200 exactly when a variant got an OK answer before any other
      decisive one. */
  lemma OutcomeOk(api: Http.UrlApi, variants: seq<string>, answers: seq<Http.Upstream>, parseJson: string -> Option<Js.Val>)
    requires |variants| == |answers|
    ensures Outcome(api, variants, answers, parseJson).status == 200 <==>
      FirstStop(answers).Some? && Http.IsOk(answers[FirstStop(answers).value].status)
  {
    match FirstStop(answers)
    case None => OutcomeFailed(api, variants, answers, parseJson);
    case Some(k) => OutcomeStopped(api, variants, answers, parseJson, k);
  }

  /** After a decisive answer, the status is 200 exactly when that answer is OK. */
  lemma OutcomeStopped(api: Http.UrlApi, variants: seq<string>, answers: seq<Http.Upstream>, parseJson: string -> Option<Js.Val>, k: nat)
    requires |variants| == |answers| && FirstStop(answers) == Some(k)
    ensures Outcome(api, variants, answers, parseJson).status == 200 <==> Http.IsOk(answers[k].status)
  {
    var r := StopAnswer(answers[k], Attempts(api, variants, answers, k + 1), parseJson);
    assert Outcome(api, variants, answers, parseJson) == r;
    StopOk(answers[k], Attempts(api, variants, answers, k + 1), parseJson);
  }

  /** Without a decisive answer, the status is never 200. */
  lemma OutcomeFailed(api: Http.UrlApi, variants: seq<string>, answers: seq<Http.Upstream>, parseJson: string -> Option<Js.Val>)
    requires |variants| == |answers| && FirstStop(answers).None?
    ensures Outcome(api, variants, answers, parseJson).status != 200
  {
    var a := Attempts(api, variants, answers, |variants|);
    assert Outcome(api, variants, answers, parseJson) == AllFailed(a);
    FailedNotOk(a, answers, api, variants);
  }

  /** A decisive answer gives 200 exactly when it is OK. */
  lemma StopOk(u: Http.Upstream, attempts: seq<Attempt>, parseJson: string -> Option<Js.Val>)
    requires Stops(u)
    ensures StopAnswer(u, attempts, parseJson).status == 200 <==> Http.IsOk(u.status)
  {
  }

  /** When every variant failed, the final status is not 200. */
  lemma FailedNotOk(a: seq<Attempt>, answers: seq<Http.Upstream>, api: Http.UrlApi, variants: seq<string>)
    requires |variants| == |answers| && a == Attempts(api, variants, answers, |variants|)
    requires forall j :: 0 <= j < |answers| ==> !Stops(answers[j])
    ensures FinalStatus(a) != 200
  {
    var s := FinalStatus(a);
    if s != 502 {
      var j :| 0 <= j < |a| && a[j].status == Some(s);
      assert a[j] == AttemptOf(api, variants[j], answers[j]);
      assert !Stops(answers[j]);
    }
  }

  /** Every answer carrying a log holds one entry per variant tried, in order. */
  lemma OutcomeLog(api: Http.UrlApi, variants: seq<string>, answers: seq<Http.Upstream>, parseJson: string -> Option<Js.Val>)
    requires |variants| == |answers|
    ensures var b := Outcome(api, variants, answers, parseJson).body;
      && (b.ErrorLog? || b.RawText? || b.Normal?)
      && |b.attempts| == Tried(answers)
      && forall j :: 0 <= j < |b.attempts| ==> b.attempts[j].triedIgUrl == variants[j]
  {
  }

  // ---------------------------------------------------------------- the handler

  /** `GET`: `answers[k]` is what the provider answers to the `k`-th variant, if it
      is asked; `sent` are the provider requests sent, in order. */
  method Get(api: Http.UrlApi, q: Http.Query, token: Option<string>, answers: seq<Http.Upstream>,
             parseJson: string -> Option<Js.Val>) returns (ans: Answer, sent: seq<Http.Outbound>)
    requires |answers| == 2
    ensures Refusal(api, q, token).Some? ==> ans == Refusal(api, q, token).value && sent == []
    ensures Refusal(api, q, token).None? ==>
      var variants := IgVariants(api.parse(Http.QueryGetOr(q, "url", "")).value);
      && ans == Outcome(api, variants, answers, parseJson)
      && sent == Requests(api, variants, token.value, Tried(answers))
  {
    sent := [];
    var refusal := Refusal(api, q, token);
    if refusal.Some? {
      ans := refusal.value;
      return;
    }
    var parsed := api.parse(Http.QueryGetOr(q, "url", "")).value;
    var variants := IgVariants(parsed);
    var attempts: seq<Attempt> := [];
    var i := 0;
    while i < |variants|
      invariant 0 <= i <= |variants| == |answers|
      invariant attempts == Attempts(api, variants, answers, i)
      invariant sent == Requests(api, variants, token.value, i)
      invariant forall j :: 0 <= j < i ==> !Stops(answers[j])
    {
      var igUrl := variants[i];
      sent := sent + [ProviderRequest(api, igUrl, token.value)];
      var u := answers[i];
      attempts := attempts + [AttemptOf(api, igUrl, u)];
      if Stops(u) {
        StopsAt(api, variants, answers, parseJson, i);
      }
      if u.Reply? && Http.IsOk(u.status) {
        var payload := Payload(u.text, parseJson);
        if payload.None? {
          ans := Answer(200, RawText(u.text, attempts));
          return;
        }
        var normalized := NormalizeInstagram(payload.value);
        ans := Answer(200, Normal(payload.value, normalized, attempts));
        return;
      }
      if u.Reply? && u.status == 401 {
        ans := Answer(502, ErrorLog(Unauthorized, attempts));
        return;
      }
      if u.Reply? && u.status == 422 {
        ans := Answer(422, ErrorLog(Invalid422, attempts));
        return;
      }
      if u.Reply? && u.status == 429 {
        ans := Answer(429, ErrorLog(RateLimited, attempts));
        return;
      }
      i := i + 1;
    }
    ans := AllFailed(attempts);
  }

  /** The first decisive answer, at `i`, decides the outcome. */
  lemma StopsAt(api: Http.UrlApi, variants: seq<string>, answers: seq<Http.Upstream>,
                parseJson: string -> Option<Js.Val>, i: nat)
    requires i < |variants| == |answers| && Stops(answers[i])
    requires forall j :: 0 <= j < i ==> !Stops(answers[j])
    ensures FirstStop(answers) == Some(i) && Tried(answers) == i + 1
    ensures Outcome(api, variants, answers, parseJson) == StopAnswer(answers[i], Attempts(api, variants, answers, i + 1), parseJson)
  {
  }

  // ---------------------------------------------------------------- normalisation

  /** `[].concat(x ?? [])`: an array's elements, or the value itself. */
  function Pool(x: Option<Js.Val>): seq<Js.Val> {
    match x
    case None => []
    case Some(Null) => []
    case Some(Arr(e)) => e
    case Some(v) => [v]
  }

  /** The pooled candidates of `media`, `medias`, `items`, `links`, `result`,
      `results` and `data`, in that order. */
  function Pools(data: Js.Val): seq<Js.Val> {
    var d := Some(data);
    Pool(Js.Get(d, "media")) + Pool(Js.Get(d, "medias")) + Pool(Js.Get(d, "items")) + Pool(Js.Get(d, "links"))
    + Pool(Js.Get(d, "result")) + Pool(Js.Get(d, "results")) + Pool(Js.Get(d, "data"))
  }

  /** `list`: the pools, else the payload itself when it is an array, else the
      payload as one item when it carries a media field, else nothing. */
  function Candidates(data: Js.Val): (r: seq<Js.Val>)
    ensures Pools(data) != [] ==> r == Pools(data)
    ensures Pools(data) == [] && data.Arr? ==> r == data.elems
    ensures Pools(data) == [] && !data.Arr? ==>
      var d := Some(data);
      r == if Js.Truthy(Js.Get(d, "url")) || Js.Truthy(Js.Get(d, "video")) || Js.Truthy(Js.Get(d, "image"))
              || Js.Truthy(Js.Get(d, "download_url")) then [data] else []
  {
    var d := Some(data);
    if Pools(data) != [] then Pools(data)
    else if data.Arr? then data.elems
    else if Js.Truthy(Js.Get(d, "url")) || Js.Truthy(Js.Get(d, "video")) || Js.Truthy(Js.Get(d, "image"))
      || Js.Truthy(Js.Get(d, "download_url")) then [data]
    else []
  }

  /** An item is a video when its type is 'video' or a video field is set. */
  predicate IsVideoItem(it: Js.Val) {
    var i := Some(it);
    Js.IsString(Js.Read(i, "type"), "video") || Js.Truthy(Js.Read(i, "is_video")) || Js.Truthy(Js.Read(i, "video"))
    || Js.Truthy(Js.Read(i, "videoUrl")) || Js.Truthy(Js.Read(i, "play"))
  }

  /** The address fields in priority order. A pool item may be any value; of the
      names read here only `link` is also a member of strings. */
  function UrlFields(it: Js.Val): seq<Option<Js.Val>> {
    var i := Some(it);
    var media := Js.Read(i, "media");
    [Js.Read(i, "download_url"), Js.Read(i, "url"), Js.Read(i, "videoUrl"), Js.Read(i, "play"), Js.Read(i, "src"),
     Js.Read(i, "link"), Js.Read(media, "url"), Js.Read(media, "video"), Js.Read(media, "image")]
  }

  /** The item's chosen address, `null` when it has none. */
  function MediaUrl(it: Js.Val): Js.Val {
    Js.FirstTruthy(UrlFields(it), Js.Null)
  }

  /** `if (url)`: the item has an address. */
  predicate HasMedia(it: Js.Val) {
    Js.Truthy(Some(MediaUrl(it)))
  }

  /** The item as the page receives it. */
  function ItemOf(it: Js.Val): (m: Media)
    ensures m.kind == Video <==> IsVideoItem(it)
    ensures m.url == MediaUrl(it)
  {
    var i := Some(it);
    Media(if IsVideoItem(it) then Video else Image,
          MediaUrl(it),
          Js.FirstTruthy([Js.Read(i, "thumbnail"), Js.Read(i, "thumb"), Js.Read(i, "cover"), Js.Read(i, "cover_url"),
                          Js.Read(i, "image"), Js.Read(i, "imageUrl")], Js.Null),
          Js.FirstTruthy([Js.Read(i, "quality"), Js.Read(i, "q"), Js.Read(i, "resolution")], Js.Null))
  }

  /** A string in a pool is kept: its `link` is `String.prototype.link`, a function and
      so truthy, and nothing before it in the address chain is set. It becomes an
      image item whose address is that function (which JSON leaves out of the
      answer), with no thumbnail and no quality. */
  lemma StringItemKept(s: string)
    ensures HasMedia(Js.Str(s))
    ensures ItemOf(Js.Str(s)) == Media(Image, Js.Fn("link"), Js.Null, Js.Null)
  {
    var fields := UrlFields(Js.Str(s));
    assert forall j :: 0 <= j < 5 ==> fields[j].None?;
    assert fields[5] == Some(Js.Fn("link"));
    Js.FirstTruthyAt(fields, Js.Null, 5);
    assert !IsVideoItem(Js.Str(s));
    StringItemExtras(s);
  }

  /** A string has no thumbnail or quality member, so both are `null`. */
  lemma StringItemExtras(s: string)
    ensures ItemOf(Js.Str(s)).thumbnail == Js.Null && ItemOf(Js.Str(s)).quality == Js.Null
  {
    var i := Some(Js.Str(s));
    var thumbs := [Js.Read(i, "thumbnail"), Js.Read(i, "thumb"), Js.Read(i, "cover"), Js.Read(i, "cover_url"),
                   Js.Read(i, "image"), Js.Read(i, "imageUrl")];
    assert thumbs == [None, None, None, None, None, None];
    var qualities := [Js.Read(i, "quality"), Js.Read(i, "q"), Js.Read(i, "resolution")];
    assert qualities == [None, None, None];
  }

  /** The title: `title`, `caption`, `description`, `meta.title`, else `null`. */
  function Title(data: Js.Val): Js.Val {
    var d := Some(data);
    Js.FirstTruthy([Js.Get(d, "title"), Js.Get(d, "caption"), Js.Get(d, "description"), Js.Get(Js.Get(d, "meta"), "title")], Js.Null)
  }

  /** `normalizeInstagram`, as a value: nothing for a falsy payload, else the title and
      the candidates that have an address. */
  function Normalize(data: Js.Val): Normalized {
    if !Js.Truthy(Some(data)) then Normalized(Js.Null, [])
    else Normalized(Title(data), Seqs.Map(Seqs.Filter(Candidates(data), HasMedia), ItemOf))
  }

  /** Every normalised item has an address, and there are no more items than
      candidates. */
  lemma NormalizedItems(data: Js.Val)
    ensures forall k :: 0 <= k < |Normalize(data).items| ==> Js.Truthy(Some(Normalize(data).items[k].url))
    ensures Js.Truthy(Some(data)) ==> |Normalize(data).items| <= |Candidates(data)|
  {
    if Js.Truthy(Some(data)) {
      var kept := Seqs.Filter(Candidates(data), HasMedia);
      forall k | 0 <= k < |kept| ensures HasMedia(kept[k]) {
        Seqs.FilterMembers(Candidates(data), HasMedia, kept[k]);
      }
    }
  }

  /** The loop of `normalizeInstagram`: each candidate with an address is pushed. */
  method NormalizeInstagram(data: Js.Val) returns (n: Normalized)
    ensures n == Normalize(data)
  {
    if !Js.Truthy(Some(data)) {
      return Normalized(Js.Null, []);
    }
    var list := Candidates(data);
    var items := Seqs.FilterMapLoop(list, HasMedia, ItemOf);
    n := Normalized(Title(data), items);
  }
}
