/** The two Instagram media routes: `download` fetches an https file and returns it
    as an attachment, `proxy` fetches an http or https file and streams it inline.
    Both forbid caching of what they relay. */
module InstagramMedia {
  import opened Wrappers
  import Text
  import Js
  import Http

  const DefaultName := "download"
  const MaxName := 200
  const MissingMedia := "Missing mediaUrl"
  const MustBeHttps := "mediaUrl must be https"
  const InvalidMedia := "Invalid mediaUrl"
  const Unexpected := "Unexpected server error"

  // ---------------------------------------------------------------- the file name

  /** The characters `[a-z0-9_.-]` keeps under the `i` flag. */
  predicate SafeChar(c: char) {
    ('a' <= c <= 'z') || ('A' <= c <= 'Z') || ('0' <= c <= '9') || c == '_' || c == '.' || c == '-'
  }

  function SafeOrUnderscore(c: char): char {
    if SafeChar(c) then c else '_'
  }

  /** `replace(/[^a-z0-9_.-]/gi, '_')`: without the `u` flag the pattern matches
      UTF-16 code units, so a character above U+FFFF, a surrogate pair, becomes two
      underscores. Every code unit of the result is a safe character, one for each
      code unit of the input. */
  function Replaced(name: string): (r: string)
    ensures |r| == Text.Utf16Length(name)
    ensures forall i :: 0 <= i < |r| ==> SafeChar(r[i])
  {
    if name == [] then []
    else
      var piece := if SafeChar(name[0]) then [name[0]] else if name[0] <= '\U{FFFF}' then "_" else "__";
      piece + Replaced(name[1..])
  }

  /** Without characters above U+FFFF the replacement goes character for character. */
  lemma {:induction false} ReplacedBasic(name: string)
    requires forall i :: 0 <= i < |name| ==> name[i] <= '\U{FFFF}'
    ensures Replaced(name) == seq(|name|, i requires 0 <= i < |name| => SafeOrUnderscore(name[i]))
  {
    if name != [] {
      ReplacedBasic(name[1..]);
    }
  }

  /** `sanitizeFilename`: the replacement, cut to its first 200 code units (all of
      them single characters by then). */
  function SanitizeFilename(name: string): (r: string)
    ensures |r| == if Text.Utf16Length(name) <= MaxName then Text.Utf16Length(name) else MaxName
    ensures forall i :: 0 <= i < |r| ==> SafeChar(r[i])
    ensures (forall i :: 0 <= i < |name| ==> name[i] <= '\U{FFFF}') ==>
      forall i :: 0 <= i < |r| ==> r[i] == SafeOrUnderscore(name[i])
  {
    var mapped := Replaced(name);
    assert (forall i :: 0 <= i < |name| ==> name[i] <= '\U{FFFF}') ==>
      mapped == seq(|name|, i requires 0 <= i < |name| => SafeOrUnderscore(name[i])) by {
      if forall i :: 0 <= i < |name| ==> name[i] <= '\U{FFFF}' {
        ReplacedBasic(name);
      }
    }
    if |mapped| <= MaxName then mapped else mapped[..MaxName]
  }

  /** An emoji takes two code units and so two underscores: "😀.jpg" is "__.jpg". */
  lemma SanitizeEmoji()
    ensures SanitizeFilename("\U{1F600}.jpg") == "__.jpg"
  {
    var name := "\U{1F600}.jpg";
    assert name[0] == '\U{1F600}' && !SafeChar(name[0]) && name[1..] == ".jpg";
    ReplacedBasic(".jpg");
    assert Replaced(name) == "__" + Replaced(".jpg");
  }

  /** A safe name of at most 200 characters is kept as it is. */
  lemma {:induction false} SanitizeClean(name: string)
    requires |name| <= MaxName
    requires forall i :: 0 <= i < |name| ==> SafeChar(name[i])
    ensures SanitizeFilename(name) == name
  {
    ReplacedBasic(name);
  }

  /** Sanitising twice is sanitising once. */
  lemma SanitizeIdempotent(name: string)
    ensures SanitizeFilename(SanitizeFilename(name)) == SanitizeFilename(name)
  {
    SanitizeClean(SanitizeFilename(name));
  }

  // ---------------------------------------------------------------- the answers

  /** The 502 answer for a failed upstream answer, with its status and text. */
  function UpstreamFailed(u: Http.Upstream): (r: Http.Response)
    requires u.Reply?
    ensures r.status == 502
  {
    Http.JsonResponse(Js.Obj([("error", Js.Str("Upstream fetch failed")), ("status", Js.Num(u.status)), ("body", Js.Str(u.text))]), 502)
  }

  /** The headers of a relayed file: its content type (the upstream's, or
      octet-stream), the attachment name when there is one, and no caching. */
  method MediaHeaders(contentType: string, disposition: Option<string>) returns (h: Http.Headers)
    ensures Http.HeaderGet(h, "content-type") == Some(contentType)
    ensures Http.HeaderGet(h, "content-disposition") == disposition
    ensures Http.HeaderGet(h, "cache-control") == Some("no-store")
    ensures h.Keys == {"content-type", "cache-control"} + (if disposition.Some? then {"content-disposition"} else {})
  {
    h := map[];
    h := h["content-type" := contentType];
    if disposition.Some? {
      h := h["content-disposition" := disposition.value];
    }
    h := h["cache-control" := "no-store"];
  }

  // ---------------------------------------------------------------- download

  /** The download name: the `filename` parameter or the default, sanitised. */
  function DownloadName(q: Http.Query): string {
    SanitizeFilename(Http.QueryGetOr(q, "filename", DefaultName))
  }

  /** `GET /api/instagram/download`: `u` is what the network answers if the media is
      fetched; `sent` is the request sent, if any. */
  method Download(req: Http.Request, u: Http.Upstream) returns (resp: Http.Response, sent: Option<Http.Outbound>)
    ensures Http.QueryGetOr(req.query, "mediaUrl", "") == "" ==>
      sent.None? && resp == Http.JsonResponse(Http.ErrorBody(MissingMedia), 400)
    ensures var m := Http.QueryGetOr(req.query, "mediaUrl", "");
      m != "" && !Text.StartsWith(m, "https://") ==> sent.None? && resp == Http.JsonResponse(Http.ErrorBody(MustBeHttps), 400)
    ensures sent.Some? <==> Text.StartsWith(Http.QueryGetOr(req.query, "mediaUrl", ""), "https://")
    ensures sent.Some? ==> sent.value == Http.Outbound(Http.QueryGetOr(req.query, "mediaUrl", ""), map[])
    ensures sent.Some? && u.Failure? ==> resp == Http.JsonResponse(Http.ErrorBody(Unexpected), 500)
    ensures sent.Some? && u.Reply? && !Http.IsOk(u.status) ==> resp == UpstreamFailed(u)
    ensures sent.Some? && u.Reply? && Http.IsOk(u.status) ==>
      && resp.status == 200 && resp.body == Http.Relay
      && Http.HeaderGet(resp.headers, "content-type") == Some(Http.UpstreamHeaderOr(u, "content-type", Http.OctetStream))
      && Http.HeaderGet(resp.headers, "content-disposition") == Some("attachment; filename=\"" + DownloadName(req.query) + "\"")
      && Http.HeaderGet(resp.headers, "cache-control") == Some("no-store")
      && resp.headers.Keys == {"content-type", "content-disposition", "cache-control"}
  {
    sent := None;
    var mediaUrl := Http.QueryGetOr(req.query, "mediaUrl", "");
    if mediaUrl == "" {
      resp := Http.JsonResponse(Http.ErrorBody(MissingMedia), 400);
      return;
    }
    if !Text.StartsWith(mediaUrl, "https://") {
      resp := Http.JsonResponse(Http.ErrorBody(MustBeHttps), 400);
      return;
    }
    var filename := DownloadName(req.query);
    sent := Some(Http.Outbound(mediaUrl, map[]));
    if u.Failure? {
      resp := Http.JsonResponse(Http.ErrorBody(Unexpected), 500);
      return;
    }
    if !Http.IsOk(u.status) {
      resp := UpstreamFailed(u);
      return;
    }
    var contentType := Http.UpstreamHeaderOr(u, "content-type", Http.OctetStream);
    var headers := MediaHeaders(contentType, Some("attachment; filename=\"" + filename + "\""));
    resp := Http.Response(200, headers, Http.Relay);
  }

  // ---------------------------------------------------------------- proxy

  /** `GET /api/instagram/proxy`: as `Download`, but any http or https address is
      fetched, and the file is relayed without an attachment name. */
  method Proxy(req: Http.Request, u: Http.Upstream) returns (resp: Http.Response, sent: Option<Http.Outbound>)
    ensures Http.QueryGetOr(req.query, "mediaUrl", "") == "" ==>
      sent.None? && resp == Http.JsonResponse(Http.ErrorBody(MissingMedia), 400)
    ensures var m := Http.QueryGetOr(req.query, "mediaUrl", "");
      m != "" && !Http.WebScheme(m) ==> sent.None? && resp == Http.JsonResponse(Http.ErrorBody(InvalidMedia), 400)
    ensures sent.Some? <==> Http.WebScheme(Http.QueryGetOr(req.query, "mediaUrl", ""))
    ensures sent.Some? ==> sent.value == Http.Outbound(Http.QueryGetOr(req.query, "mediaUrl", ""), map[])
    ensures sent.Some? && u.Failure? ==> resp == Http.JsonResponse(Http.ErrorBody(Unexpected), 500)
    ensures sent.Some? && u.Reply? && !Http.IsOk(u.status) ==> resp == UpstreamFailed(u)
    ensures sent.Some? && u.Reply? && Http.IsOk(u.status) ==>
      && resp.status == 200 && resp.body == Http.Relay
      && Http.HeaderGet(resp.headers, "content-type") == Some(Http.UpstreamHeaderOr(u, "content-type", Http.OctetStream))
      && Http.HeaderGet(resp.headers, "cache-control") == Some("no-store")
      && resp.headers.Keys == {"content-type", "cache-control"}
  {
    sent := None;
    var mediaUrl := Http.QueryGetOr(req.query, "mediaUrl", "");
    if mediaUrl == "" {
      resp := Http.JsonResponse(Http.ErrorBody(MissingMedia), 400);
      return;
    }
    if !Http.WebScheme(mediaUrl) {
      resp := Http.JsonResponse(Http.ErrorBody(InvalidMedia), 400);
      return;
    }
    sent := Some(Http.Outbound(mediaUrl, map[]));
    if u.Failure? {
      resp := Http.JsonResponse(Http.ErrorBody(Unexpected), 500);
      return;
    }
    if !Http.IsOk(u.status) {
      resp := UpstreamFailed(u);
      return;
    }
    var contentType := Http.UpstreamHeaderOr(u, "content-type", Http.OctetStream);
    var headers := MediaHeaders(contentType, None);
    resp := Http.Response(200, headers, Http.Relay);
  }
}
