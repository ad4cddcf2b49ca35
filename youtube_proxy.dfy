/** The YouTube proxy route: it streams any address it is given, forwarding
    `Range`, and copies the upstream headers a media player needs. */
module YoutubeProxy {
  import opened Wrappers
  import Text
  import Js
  import Http

  /** The upstream headers copied, lower-cased. */
  const Copied: set<string> := {"content-type", "content-length", "content-range", "accept-ranges"}

  const MissingFile := "Missing fileUrl"
  const ProxyFailed := "Proxy failed"

  /** `searchParams.get('fileUrl') || searchParams.get('mediaUrl')`, with `""` for
      neither. */
  function FileUrl(q: Http.Query): string {
    Http.QueryGetOr(q, "fileUrl", Http.QueryGetOr(q, "mediaUrl", ""))
  }

  /** The headers of the fetch: only the client's range, when it sent one. */
  function FetchHeaders(range: string): (r: Http.Headers)
    ensures Http.HeaderGet(r, "range") == (if range != "" then Some(range) else None)
    ensures r.Keys <= {"range"}
  {
    if range != "" then map["range" := range] else map[]
  }

  /** The loop over `res.headers.entries()`: an entry whose lower-cased name is one
      of the copied ones is set, so for each copied name the last such entry wins,
      and no other name is set. */
  method CopyHeaders(entries: seq<(string, string)>) returns (h: Http.Headers)
    ensures forall k :: Http.HeaderGet(h, k) == if k in Copied then Http.EntryValue(entries, k) else None
  {
    h := map[];
    var i := 0;
    while i < |entries|
      invariant 0 <= i <= |entries|
      invariant forall k :: Http.HeaderGet(h, k) == if k in Copied then Http.EntryValue(entries[..i], k) else None
    {
      var name := Text.Lower(entries[i].0);
      if name in Copied {
        h := h[name := entries[i].1];
      }
      assert entries[..i + 1][..i] == entries[..i];
      i := i + 1;
    }
    assert entries[..i] == entries;
  }

  /** `GET`: `u` is what the network answers if the address is fetched; `sent` is
      the request sent, if any. Any non-empty address is fetched as given. */
  method Get(req: Http.Request, u: Http.Upstream) returns (resp: Http.Response, sent: Option<Http.Outbound>)
    ensures FileUrl(req.query) == "" ==> sent.None? && resp == Http.JsonResponse(Http.ErrorBody(MissingFile), 400)
    ensures FileUrl(req.query) != "" ==>
      sent == Some(Http.Outbound(FileUrl(req.query), FetchHeaders(Http.HeaderGetOr(req.headers, "range", ""))))
    ensures sent.Some? && u.Failure? ==>
      resp == Http.JsonResponse(Http.ErrorBody(if u.message != "" then u.message else ProxyFailed), 500)
    ensures sent.Some? && u.Reply? ==>
      && resp.status == u.status && resp.body == Http.Relay
      && forall k :: Http.HeaderGet(resp.headers, k) == if k in Copied then Http.UpstreamHeader(u, k) else None
  {
    sent := None;
    var fileUrl := FileUrl(req.query);
    if fileUrl == "" {
      resp := Http.JsonResponse(Http.ErrorBody(MissingFile), 400);
      return;
    }
    var range := Http.HeaderGetOr(req.headers, "range", "");
    sent := Some(Http.Outbound(fileUrl, FetchHeaders(range)));
    if u.Failure? {
      resp := Http.JsonResponse(Http.ErrorBody(if u.message != "" then u.message else ProxyFailed), 500);
      return;
    }
    var headers := CopyHeaders(u.entries);
    resp := Http.Response(u.status, headers, Http.Relay);
  }
}
