/** The Twitter proxy route: it streams a media file from any https address,
    forwarding `Range` for seeking, and answers every request with CORS headers. */
module TwitterProxy {
  import opened Wrappers
  import Text
  import Seqs
  import Js
  import Http

  /** The CORS headers every answer carries. */
  const Cors: Http.Headers := map[
    "access-control-allow-origin" := "*",
    "access-control-allow-methods" := "GET,HEAD,OPTIONS",
    "access-control-allow-headers" := "Range, Content-Type, User-Agent, Referer"]

  const MustBeHttps := "mediaUrl must be https"
  const DefaultFile := "twitter-video.mp4"
  const DefaultCache := "public, max-age=31536000, immutable"

  /** The route's own `json` helper: a JSON body with the CORS headers. */
  function CorsJson(value: Js.Val, status: int): (r: Http.Response)
    ensures r.status == status && r.body == Http.Json(value)
    ensures Http.HeaderGet(r.headers, "content-type") == Some(Http.ContentTypeJson)
    ensures forall k :: k in Cors ==> Http.HeaderGet(r.headers, k) == Some(Cors[k])
  {
    Http.Response(status, Cors["content-type" := Http.ContentTypeJson], Http.Json(value))
  }

  /** `OPTIONS`: an empty 200 answer with the CORS headers and no other. */
  function Options(): (r: Http.Response)
    ensures r.status == 200 && r.body == Http.NoBody
    ensures Http.HeaderGet(r.headers, "access-control-allow-origin") == Some("*")
    ensures Http.HeaderGet(r.headers, "access-control-allow-methods") == Some("GET,HEAD,OPTIONS")
    ensures Http.HeaderGet(r.headers, "access-control-allow-headers") == Some("Range, Content-Type, User-Agent, Referer")
    ensures r.headers.Keys == {"access-control-allow-origin", "access-control-allow-methods", "access-control-allow-headers"}
  {
    Http.Response(200, Cors, Http.NoBody)
  }

  // ---------------------------------------------------------------- the address

  /** `normalizeUrl`: `None` for a missing or empty address; a scheme-relative
      address and an http one become https, an address without a scheme gets one,
      and any other is kept. */
  function NormalizeUrl(u: string): (r: Option<string>)
    ensures r.None? <==> u == ""
  {
    if u == "" then None
    else if Text.StartsWith(u, "//") then Some("https:" + u)
    else if Text.StartsWith(u, "http://") then Some("https:" + u[5..])
    else if !Http.WebScheme(u) then Some("https://" + u)
    else Some(u)
  }

  /** An https address is kept as it is. */
  lemma NormalizeHttps(u: string)
    requires Text.StartsWith(u, "https://")
    ensures NormalizeUrl(u) == Some(u)
  {
    Http.HttpsIsWebScheme(u);
    assert u[0] == 'h' && u[4] == 's';
  }

  /** A rewritten address starts with `https://`. */
  lemma RewrittenHttps(u: string)
    requires u != "" && (Text.StartsWith(u, "//") || Text.StartsWith(u, "http://") || !Http.WebScheme(u))
    ensures Text.StartsWith(NormalizeUrl(u).value, "https://")
  {
    var r := NormalizeUrl(u).value;
    if Text.StartsWith(u, "//") {
      assert u[0] == '/' && u[1] == '/' by { assert u[..2][0] == '/' && u[..2][1] == '/'; }
      assert r == "https:" + u;
    } else if Text.StartsWith(u, "http://") {
      assert u[5] == '/' && u[6] == '/' by { assert u[..7][5] == '/' && u[..7][6] == '/'; }
      assert r == "https:" + u[5..];
    } else {
      assert r == "https://" + u;
    }
    assert r[..8] == "https://";
  }

  /** Normalising a normalised address changes nothing. */
  lemma NormalizeIdempotent(u: string)
    requires u != ""
    ensures NormalizeUrl(NormalizeUrl(u).value) == NormalizeUrl(u)
  {
    var r := NormalizeUrl(u).value;
    if Text.StartsWith(u, "//") || Text.StartsWith(u, "http://") || !Http.WebScheme(u) {
      RewrittenHttps(u);
      NormalizeHttps(r);
    }
  }

  /** The normalised address passes the https guard exactly when the input is
      non-empty and has no scheme, or a lower-case http or https one: an address
      such as `HTTPS://...` is kept as written and refused. */
  lemma NormalizeGuard(u: string)
    ensures (NormalizeUrl(u).Some? && Text.StartsWith(NormalizeUrl(u).value, "https://"))
      <==> u != "" && (!Http.WebScheme(u) || Text.StartsWith(u, "http://") || Text.StartsWith(u, "https://"))
  {
    if u != "" {
      if Text.StartsWith(u, "//") {
        assert u[0] == '/' by { assert u[..2][0] == '/'; }
        Http.SlashNotWebScheme(u);
      }
      if Text.StartsWith(u, "//") || Text.StartsWith(u, "http://") || !Http.WebScheme(u) {
        RewrittenHttps(u);
      }
    }
  }

  /** `searchParams.get('mediaUrl') || searchParams.get('url')`, normalised. */
  function MediaUrl(q: Http.Query): Option<string> {
    NormalizeUrl(Http.QueryGetOr(q, "mediaUrl", Http.QueryGetOr(q, "url", "")))
  }

  /** The guard before the fetch. */
  predicate Accepted(q: Http.Query) {
    MediaUrl(q).Some? && Text.StartsWith(MediaUrl(q).value, "https://")
  }

  // ---------------------------------------------------------------- the file name

  /** The characters `[\w.\-()\[\] ]` keeps. */
  predicate NameChar(c: char) {
    ('A' <= c <= 'Z') || ('a' <= c <= 'z') || ('0' <= c <= '9')
    || c == '_' || c == '.' || c == '-' || c == '(' || c == ')' || c == '[' || c == ']' || c == ' '
  }

  /** The kept characters other than the replacement '_'. */
  predicate Kept(c: char) { NameChar(c) && c != '_' }

  /** The text after a leading run of other characters. */
  function DropOthers(s: string): (r: string)
    ensures |r| <= |s| && r == s[|s| - |r|..]
    ensures r == [] || NameChar(r[0])
    ensures forall i :: 0 <= i < |s| - |r| ==> !NameChar(s[i])
  {
    if s == [] || NameChar(s[0]) then s else DropOthers(s[1..])
  }

  /** `s.replace(/[^\w.\-()\[\] ]+/g, '_')`: every run of other characters becomes
      one '_'. */
  function ReplaceOthers(s: string): (r: string)
    ensures forall i :: 0 <= i < |r| ==> NameChar(r[i])
    ensures |r| <= |s|
    ensures r == [] <==> s == []
    decreases |s|
  {
    if s == [] then []
    else if NameChar(s[0]) then
      var rest := ReplaceOthers(s[1..]);
      assert forall i :: 1 <= i < |rest| + 1 ==> ([s[0]] + rest)[i] == rest[i - 1];
      [s[0]] + rest
    else
      var rest := ReplaceOthers(DropOthers(s[1..]));
      assert forall i :: 1 <= i < |rest| + 1 ==> ("_" + rest)[i] == rest[i - 1];
      "_" + rest
  }

  /** Dropping a run of other characters removes no kept one. */
  lemma {:induction false} DropOthersKeeps(s: string)
    ensures Seqs.Filter(DropOthers(s), Kept) == Seqs.Filter(s, Kept)
    decreases |s|
  {
    if s != [] && !NameChar(s[0]) {
      DropOthersKeeps(s[1..]);
    }
  }

  /** The replacement keeps every kept character, in order, and adds nothing but '_'. */
  lemma {:induction false} ReplaceKeeps(s: string)
    ensures Seqs.Filter(ReplaceOthers(s), Kept) == Seqs.Filter(s, Kept)
    decreases |s|
  {
    if s != [] {
      var r := ReplaceOthers(s);
      if NameChar(s[0]) {
        ReplaceKeeps(s[1..]);
        assert r[1..] == ReplaceOthers(s[1..]);
      } else {
        var t := DropOthers(s[1..]);
        ReplaceKeeps(t);
        DropOthersKeeps(s[1..]);
        assert r[1..] == ReplaceOthers(t);
      }
    }
  }

  /** A name made of kept characters only is left as it is. */
  lemma {:induction false} ReplaceClean(s: string)
    requires forall i :: 0 <= i < |s| ==> NameChar(s[i])
    ensures ReplaceOthers(s) == s
    decreases |s|
  {
    if s != [] {
      ReplaceClean(s[1..]);
    }
  }

  /** Replacing twice is replacing once. */
  lemma ReplaceIdempotent(s: string)
    ensures ReplaceOthers(ReplaceOthers(s)) == ReplaceOthers(s)
  {
    ReplaceClean(ReplaceOthers(s));
  }

  /** The download name: the `filename` parameter or the default, replaced. */
  function FileName(q: Http.Query): string {
    ReplaceOthers(Http.QueryGetOr(q, "filename", DefaultFile))
  }

  /** `download` is '1' or 'true'. */
  predicate WantDownload(q: Http.Query) {
    Http.QueryGet(q, "download") == Some("1") || Http.QueryGet(q, "download") == Some("true")
  }

  // ---------------------------------------------------------------- the handler

  /** The headers of the fetch: the range, when the client sent one, a browser
      user agent and Twitter as referer. */
  function FetchHeaders(range: string): (r: Http.Headers)
    ensures Http.HeaderGet(r, "range") == (if range != "" then Some(range) else None)
    ensures Http.HeaderGet(r, "referer") == Some("https://x.com/")
    ensures r.Keys <= {"range", "user-agent", "referer"}
  {
    var base := map["user-agent" := "Mozilla/5.0", "referer" := "https://x.com/"];
    if range != "" then base["range" := range] else base
  }

  /** The headers of a relayed answer: the CORS headers, the upstream content type
      (or octet-stream), its length and range when it gave them, its accepted
      ranges (or bytes) and caching rule (or a year, immutable), and an attachment
      name when a download is asked for. */
  function Relayed(u: Http.Upstream, disposition: Option<string>): Http.Headers
    requires u.Reply?
  {
    Build(Http.UpstreamHeaderOr(u, "content-type", Http.OctetStream), Http.UpstreamHeaderOr(u, "content-length", ""),
          Http.UpstreamHeaderOr(u, "content-range", ""), Http.UpstreamHeaderOr(u, "accept-ranges", "bytes"),
          Http.UpstreamHeaderOr(u, "cache-control", DefaultCache), disposition)
  }

  /** The CORS headers with the given values set, an empty length or range left out. */
  function Build(ct: string, cl: string, cr: string, ar: string, cc: string, disposition: Option<string>): Http.Headers {
    var h := Cors["content-type" := ct];
    var h := if cl != "" then h["content-length" := cl] else h;
    var h := if cr != "" then h["content-range" := cr] else h;
    var h := h["accept-ranges" := ar]["cache-control" := cc];
    if disposition.Some? then h["content-disposition" := disposition.value] else h
  }

  /** The names a relayed answer carries: the CORS names, the content type, the
      accepted ranges and the caching rule always, the length and the range when
      the upstream gave them, and the disposition for a download. */
  function RelayKeys(u: Http.Upstream, disposition: Option<string>): set<string>
    requires u.Reply?
  {
    Cors.Keys + {"content-type", "accept-ranges", "cache-control"}
    + (if Http.UpstreamHeaderOr(u, "content-length", "") != "" then {"content-length"} else {})
    + (if Http.UpstreamHeaderOr(u, "content-range", "") != "" then {"content-range"} else {})
    + (if disposition.Some? then {"content-disposition"} else {})
  }

  /** Each relayed header has the value the route sets, the CORS headers stay, and
      no other header is present. */
  lemma RelayedSpec(u: Http.Upstream, disposition: Option<string>)
    requires u.Reply?
    ensures var h := Relayed(u, disposition);
      && (forall k :: k in Cors ==> Http.HeaderGet(h, k) == Some(Cors[k]))
      && Http.HeaderGet(h, "content-type") == Some(Http.UpstreamHeaderOr(u, "content-type", Http.OctetStream))
      && Http.HeaderGet(h, "content-length") == (if Http.UpstreamHeaderOr(u, "content-length", "") != "" then Http.UpstreamHeader(u, "content-length") else None)
      && Http.HeaderGet(h, "content-range") == (if Http.UpstreamHeaderOr(u, "content-range", "") != "" then Http.UpstreamHeader(u, "content-range") else None)
      && Http.HeaderGet(h, "accept-ranges") == Some(Http.UpstreamHeaderOr(u, "accept-ranges", "bytes"))
      && Http.HeaderGet(h, "cache-control") == Some(Http.UpstreamHeaderOr(u, "cache-control", DefaultCache))
      && Http.HeaderGet(h, "content-disposition") == disposition
      && h.Keys == RelayKeys(u, disposition)
  {
    var cl := Http.UpstreamHeaderOr(u, "content-length", "");
    var cr := Http.UpstreamHeaderOr(u, "content-range", "");
    BuildSpec(Http.UpstreamHeaderOr(u, "content-type", Http.OctetStream), cl, cr,
              Http.UpstreamHeaderOr(u, "accept-ranges", "bytes"), Http.UpstreamHeaderOr(u, "cache-control", DefaultCache), disposition);
    BuildKeys(Http.UpstreamHeaderOr(u, "content-type", Http.OctetStream), cl, cr,
              Http.UpstreamHeaderOr(u, "accept-ranges", "bytes"), Http.UpstreamHeaderOr(u, "cache-control", DefaultCache), disposition);
    assert cl != "" ==> Http.UpstreamHeader(u, "content-length") == Some(cl);
    assert cr != "" ==> Http.UpstreamHeader(u, "content-range") == Some(cr);
  }

  lemma BuildSpec(ct: string, cl: string, cr: string, ar: string, cc: string, disposition: Option<string>)
    ensures var h := Build(ct, cl, cr, ar, cc, disposition);
      && (forall k :: k in Cors ==> Http.HeaderGet(h, k) == Some(Cors[k]))
      && Http.HeaderGet(h, "content-type") == Some(ct)
      && Http.HeaderGet(h, "content-length") == (if cl != "" then Some(cl) else None)
      && Http.HeaderGet(h, "content-range") == (if cr != "" then Some(cr) else None)
      && Http.HeaderGet(h, "accept-ranges") == Some(ar)
      && Http.HeaderGet(h, "cache-control") == Some(cc)
      && Http.HeaderGet(h, "content-disposition") == disposition
  {
    RelayNamesDistinct();
    var h := Build(ct, cl, cr, ar, cc, disposition);
    forall k | k in Cors ensures Http.HeaderGet(h, k) == Some(Cors[k]) {
      assert k != "content-type" && k != "content-length" && k != "content-range";
      assert k != "accept-ranges" && k != "cache-control" && k != "content-disposition";
    }
  }

  lemma BuildKeys(ct: string, cl: string, cr: string, ar: string, cc: string, disposition: Option<string>)
    ensures Build(ct, cl, cr, ar, cc, disposition).Keys == Cors.Keys + {"content-type", "accept-ranges", "cache-control"}
      + (if cl != "" then {"content-length"} else {}) + (if cr != "" then {"content-range"} else {})
      + (if disposition.Some? then {"content-disposition"} else {})
  {
  }

  /** The `h.set` calls of `GET`, one header at a time, build `Relayed`. */
  method RelayHeaders(u: Http.Upstream, disposition: Option<string>) returns (h: Http.Headers)
    requires u.Reply?
    ensures h == Relayed(u, disposition)
  {
    h := Cors;
    h := h["content-type" := Http.UpstreamHeaderOr(u, "content-type", Http.OctetStream)];
    var cl := Http.UpstreamHeaderOr(u, "content-length", "");
    if cl != "" {
      h := h["content-length" := cl];
    }
    var cr := Http.UpstreamHeaderOr(u, "content-range", "");
    if cr != "" {
      h := h["content-range" := cr];
    }
    h := h["accept-ranges" := Http.UpstreamHeaderOr(u, "accept-ranges", "bytes")];
    h := h["cache-control" := Http.UpstreamHeaderOr(u, "cache-control", DefaultCache)];
    if disposition.Some? {
      h := h["content-disposition" := disposition.value];
    }
  }

  /** The relayed header names are distinct from each other and from the CORS names. */
  lemma RelayNamesDistinct()
    ensures "content-type" !in Cors && "content-length" !in Cors && "content-range" !in Cors
    ensures "accept-ranges" !in Cors && "cache-control" !in Cors && "content-disposition" !in Cors
    ensures "content-type" != "content-length" && "content-type" != "content-range" && "content-type" != "accept-ranges" && "content-type" != "cache-control" && "content-type" != "content-disposition"
    ensures "content-length" != "content-range" && "content-length" != "accept-ranges" && "content-length" != "cache-control" && "content-length" != "content-disposition"
    ensures "content-range" != "accept-ranges" && "content-range" != "cache-control" && "content-range" != "content-disposition"
    ensures "accept-ranges" != "cache-control" && "accept-ranges" != "content-disposition"
    ensures "cache-control" != "content-disposition"
  {
  }

  /** The attachment header value for a download name. */
  function Disposition(api: Http.UrlApi, q: Http.Query): Option<string> {
    if WantDownload(q) then Some("attachment; filename=\"" + api.encode(FileName(q)) + "\"") else None
  }

  /** `GET`: `u` is what the network answers if the media is fetched; `sent` is the
      request sent, if any. */
  method Get(api: Http.UrlApi, req: Http.Request, u: Http.Upstream) returns (resp: Http.Response, sent: Option<Http.Outbound>)
    ensures !Accepted(req.query) ==> sent.None? && resp == CorsJson(Http.ErrorBody(MustBeHttps), 400)
    ensures Accepted(req.query) ==>
      sent == Some(Http.Outbound(MediaUrl(req.query).value, FetchHeaders(Http.HeaderGetOr(req.headers, "range", ""))))
    ensures sent.Some? && u.Failure? ==>
      resp == CorsJson(Js.Obj([("error", Js.Str("Proxy error")), ("message", Js.Str(u.message))]), 500)
    ensures sent.Some? && u.Reply? && !Http.IsOk(u.status) && u.status != 206 ==>
      resp == CorsJson(Js.Obj([("error", Js.Str("Upstream fetch failed")), ("status", Js.Num(u.status)), ("message", Js.Str(u.text))]), 502)
    ensures sent.Some? && u.Reply? && (Http.IsOk(u.status) || u.status == 206) ==>
      resp == Http.Response(u.status, Relayed(u, Disposition(api, req.query)), Http.Relay)
  {
    sent := None;
    var mediaUrl := MediaUrl(req.query);
    if mediaUrl.None? || !Text.StartsWith(mediaUrl.value, "https://") {
      resp := CorsJson(Http.ErrorBody(MustBeHttps), 400);
      return;
    }
    var range := Http.HeaderGetOr(req.headers, "range", "");
    sent := Some(Http.Outbound(mediaUrl.value, FetchHeaders(range)));
    if u.Failure? {
      resp := CorsJson(Js.Obj([("error", Js.Str("Proxy error")), ("message", Js.Str(u.message))]), 500);
      return;
    }
    if !Http.IsOk(u.status) && u.status != 206 {
      resp := CorsJson(Js.Obj([("error", Js.Str("Upstream fetch failed")), ("status", Js.Num(u.status)), ("message", Js.Str(u.text))]), 502);
      return;
    }
    var h := RelayHeaders(u, Disposition(api, req.query));
    resp := Http.Response(u.status, h, Http.Relay);
  }
}
