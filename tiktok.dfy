/** The TikTok route: it asks the TikWM service about a TikTok address and
    reshapes the answer into the fields the page plays and downloads. */
module TikTok {
  import opened Wrappers
  import Text
  import Js
  import Http

  const MissingUrl := "Missing TikTok URL parameter"
  const RequestFailed := "TikWM API request failed"

  /** The TikWM endpoint, asked for the high-definition rendition. */
  const Endpoint := "https://www.tikwm.com/api/?url="
  const HdFlag := "&hd=1"

  /** The one request the route sends: the encoded address, marked as an XHR. */
  function ProviderRequest(api: Http.UrlApi, url: string): (r: Http.Outbound)
    ensures |r.url| == |Endpoint| + |api.encode(url)| + |HdFlag|
    ensures Text.StartsWith(r.url, Endpoint) && Text.EndsWith(r.url, HdFlag)
    ensures r.url[|Endpoint|..|r.url| - |HdFlag|] == api.encode(url)
    ensures r.headers == map["x-requested-with" := "XMLHttpRequest"]
  {
    var u := Endpoint + api.encode(url) + HdFlag;
    assert u[..|Endpoint|] == Endpoint;
    assert u[|u| - |HdFlag|..] == HdFlag;
    assert u[|Endpoint|..|u| - |HdFlag|] == api.encode(url);
    Http.Outbound(u, map["x-requested-with" := "XMLHttpRequest"])
  }

  /** `searchParams.get('url')`, with `""` for a missing parameter. */
  function TargetOf(q: Http.Query): string {
    Http.QueryGetOr(q, "url", "")
  }

  /** What the route sends upstream: nothing without an address. */
  function Sent(api: Http.UrlApi, q: Http.Query): (r: Option<Http.Outbound>)
    ensures r.None? <==> TargetOf(q) == ""
    ensures r.Some? ==> r.value == ProviderRequest(api, TargetOf(q))
  {
    if TargetOf(q) == "" then None else Some(ProviderRequest(api, TargetOf(q)))
  }

  /** The fields of the answer, each `x || default`. */
  datatype Media = Media(title: Js.Val, videoUrl: Js.Val, audioUrl: Js.Val, cover: Js.Val, duration: Js.Val)

  /** A field read of `data`, or the default when the reading is falsy. */
  predicate FieldOr(data: Js.Val, key: string, v: Js.Val, default: Js.Val) {
    (Js.Truthy(Js.Get(Some(data), key)) && v == Js.Get(Some(data), key).value)
    || (!Js.Truthy(Js.Get(Some(data), key)) && v == default)
  }

  /** The answer built from `json.data`: the high-definition rendition is
      preferred, then the plain one, then the empty string; the other fields fall
      back to `""`, and the duration to 0. */
  function MediaOf(data: Js.Val): (m: Media)
    ensures FieldOr(data, "title", m.title, Js.Str(""))
    ensures FieldOr(data, "music", m.audioUrl, Js.Str(""))
    ensures FieldOr(data, "cover", m.cover, Js.Str(""))
    ensures FieldOr(data, "duration", m.duration, Js.Num(0))
    ensures Js.Truthy(Js.Get(Some(data), "hdplay")) ==> m.videoUrl == Js.Get(Some(data), "hdplay").value
    ensures !Js.Truthy(Js.Get(Some(data), "hdplay")) ==> FieldOr(data, "play", m.videoUrl, Js.Str(""))
  {
    var d := Some(data);
    var renditions := [Js.Get(d, "hdplay"), Js.Get(d, "play")];
    assert renditions[1..] == [Js.Get(d, "play")];
    assert !Js.Truthy(renditions[0]) ==>
      Js.FirstTruthy(renditions, Js.Str("")) == Js.FirstTruthy([Js.Get(d, "play")], Js.Str(""));
    Media(
      Js.FirstTruthy([Js.Get(d, "title")], Js.Str("")),
      Js.FirstTruthy(renditions, Js.Str("")),
      Js.FirstTruthy([Js.Get(d, "music")], Js.Str("")),
      Js.FirstTruthy([Js.Get(d, "cover")], Js.Str("")),
      Js.FirstTruthy([Js.Get(d, "duration")], Js.Num(0)))
  }

  function MediaBody(m: Media): Js.Val {
    Js.Obj([("title", m.title), ("videoUrl", m.videoUrl), ("audioUrl", m.audioUrl),
            ("cover", m.cover), ("duration", m.duration)])
  }

  /** TikWM's own verdict: `code` is exactly 0 and `data` is truthy. */
  predicate Accepted(json: Js.Val) {
    Js.Get(Some(json), "code") == Some(Js.Num(0)) && Js.Truthy(Js.Get(Some(json), "data"))
  }

  /** `{ error: json.msg || 'TikWM API request failed' }`: TikWM's message may be
      any truthy value. */
  function RejectionBody(json: Js.Val): (r: Js.Val)
    ensures Js.Truthy(Js.Get(Some(json), "msg")) ==> r == Js.Obj([("error", Js.Get(Some(json), "msg").value)])
    ensures !Js.Truthy(Js.Get(Some(json), "msg")) ==> r == Http.ErrorBody(RequestFailed)
  {
    Js.Obj([("error", Js.FirstTruthy([Js.Get(Some(json), "msg")], Js.Str(RequestFailed)))])
  }

  /** The provider answered OK with a JSON body TikWM accepted. */
  predicate Succeeds(q: Http.Query, u: Http.Upstream, parseJson: string -> Option<Js.Val>) {
    && TargetOf(q) != "" && u.Reply? && Http.IsOk(u.status)
    && parseJson(u.text).Some? && Accepted(parseJson(u.text).value)
  }

  /** `GET`. `u` is what the network answers to `Sent`, and `parseJson` is
      `response.json()` (`None` when the body is not JSON). Reading `json.code` of
      a `null` body throws and is caught like a failed fetch. */
  function Get(q: Http.Query, u: Http.Upstream, parseJson: string -> Option<Js.Val>): (r: Http.Response)
    ensures TargetOf(q) == "" ==> r == Http.JsonResponse(Http.ErrorBody(MissingUrl), 400)
    ensures TargetOf(q) != "" && u.Failure? ==> r == Http.JsonResponse(Http.ErrorBody(RequestFailed), 500)
    ensures TargetOf(q) != "" && u.Reply? && !Http.IsOk(u.status) ==>
      r == Http.JsonResponse(Http.ErrorBody(RequestFailed), u.status)
    ensures TargetOf(q) != "" && u.Reply? && Http.IsOk(u.status) && Js.AccessThrows(parseJson(u.text)) ==>
      r == Http.JsonResponse(Http.ErrorBody(RequestFailed), 500)
    ensures (TargetOf(q) != "" && u.Reply? && Http.IsOk(u.status) && !Js.AccessThrows(parseJson(u.text))
             && !Accepted(parseJson(u.text).value)) ==>
      r == Http.JsonResponse(RejectionBody(parseJson(u.text).value), 502)
    ensures Succeeds(q, u, parseJson) ==>
      r == Http.JsonResponse(MediaBody(MediaOf(Js.Get(parseJson(u.text), "data").value)), 200)
    ensures Http.IsOk(r.status) <==> Succeeds(q, u, parseJson)
  {
    if TargetOf(q) == "" then Http.JsonResponse(Http.ErrorBody(MissingUrl), 400)
    else match u
      case Failure(_) => Http.JsonResponse(Http.ErrorBody(RequestFailed), 500)
      case Reply(status, _, _, text) =>
        if !Http.IsOk(status) then Http.JsonResponse(Http.ErrorBody(RequestFailed), status)
        else match parseJson(text)
          case None => Http.JsonResponse(Http.ErrorBody(RequestFailed), 500)
          case Some(json) =>
            if json == Js.Null then Http.JsonResponse(Http.ErrorBody(RequestFailed), 500)
            else if !Accepted(json) then Http.JsonResponse(RejectionBody(json), 502)
            else Http.JsonResponse(MediaBody(MediaOf(Js.Get(Some(json), "data").value)), 200)
  }

  /** Every error answer carries an `error` member, and only a TikWM rejection
      can carry a message that is not the route's own. */
  lemma ErrorsCarryMessage(q: Http.Query, u: Http.Upstream, parseJson: string -> Option<Js.Val>)
    requires !Succeeds(q, u, parseJson)
    ensures Get(q, u, parseJson).body.Json?
    ensures var b := Get(q, u, parseJson).body.value;
      b.Obj? && |b.members| == 1 && b.members[0].0 == "error"
    ensures Get(q, u, parseJson).status != 502 ==>
      Get(q, u, parseJson).body.value.members[0].1 in {Js.Str(MissingUrl), Js.Str(RequestFailed)}
  {
  }
}
