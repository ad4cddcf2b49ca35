/** The Twitter download route: it fetches a media file from one of Twitter's media
    hosts and returns it as an attachment with a cleaned file name. */
module TwitterDownload {
  import opened Wrappers
  import Text
  import Seqs
  import Js
  import Http

  const DefaultName := "twitter_media"
  const AllowedHosts: set<string> := {"video.twimg.com", "pbs.twimg.com"}
  const ProxyPath := "/api/twitter/proxy"
  const MaxName := 200

  // ---------------------------------------------------------------- file names

  /** The characters Windows forbids in file names. */
  predicate Forbidden(c: char) {
    c == '<' || c == '>' || c == ':' || c == '"' || c == '/' || c == '\\' || c == '|' || c == '?' || c == '*'
  }

  /** U+0000 to U+001F and U+007F to U+009F. */
  predicate Control(c: char) {
    c <= '\U{001F}' || ('\U{007F}' <= c <= '\U{009F}')
  }

  predicate Allowed(c: char) { !Forbidden(c) && !Control(c) }

  predicate NotForbidden(c: char) { !Forbidden(c) }
  predicate NotControl(c: char) { !Control(c) }

  /** The text of the replace chain before the fallback: forbidden and control
      characters removed, runs of spaces collapsed, trimmed, cut to 200. */
  function Cleaned(decoded: string): string {
    var t := Text.Trim(Text.CollapseSpaces(Seqs.Filter(Seqs.Filter(decoded, NotForbidden), NotControl)));
    if |t| <= MaxName then t else t[..MaxName]
  }

  /** `sanitizeFilename`: a name that cannot be decoded is used as given. */
  function SanitizeFilename(api: Http.UrlApi, filename: string): (r: string)
    ensures r != ""
    ensures Cleaned(api.decode(filename).GetOr(filename)) == "" ==> r == DefaultName
    ensures Cleaned(api.decode(filename).GetOr(filename)) != "" ==> r == Cleaned(api.decode(filename).GetOr(filename))
  {
    var c := Cleaned(api.decode(filename).GetOr(filename));
    if c == "" then DefaultName else c
  }

  /** The characters that survive the first two replacements are allowed ones. */
  lemma FilteredAllowed(s: string)
    ensures forall c :: c in Seqs.Filter(Seqs.Filter(s, NotForbidden), NotControl) ==> Allowed(c)
  {
    var f := Seqs.Filter(s, NotForbidden);
    forall c | c in Seqs.Filter(f, NotControl) ensures Allowed(c) {
      Seqs.FilterMembers(f, NotControl, c);
      Seqs.FilterMembers(s, NotForbidden, c);
    }
  }

  /** The character-level shape of a cleaned name: no forbidden or control
      character, every space a ' ', never two spaces side by side. */
  ghost predicate CleanChars(r: string) {
    && (forall i :: 0 <= i < |r| ==> Allowed(r[i]))
    && (forall i :: 0 <= i < |r| && Text.IsSpace(r[i]) ==> r[i] == ' ')
    && (forall i :: 0 <= i < |r| - 1 ==> !(Text.IsSpace(r[i]) && Text.IsSpace(r[i + 1])))
  }

  /** Any piece of a clean text is clean. */
  lemma CleanSlice(r: string, a: nat, b: nat)
    requires a <= b <= |r| && CleanChars(r)
    ensures CleanChars(r[a..b])
  {
    var t := r[a..b];
    assert forall i :: 0 <= i < |t| ==> t[i] == r[a + i];
  }

  /** The collapsed text is clean. */
  lemma CollapsedClean(decoded: string)
    ensures CleanChars(Text.CollapseSpaces(Seqs.Filter(Seqs.Filter(decoded, NotForbidden), NotControl)))
  {
    var f := Seqs.Filter(Seqs.Filter(decoded, NotForbidden), NotControl);
    var c := Text.CollapseSpaces(f);
    FilteredAllowed(decoded);
    Text.CollapseKeepsText(f);
    forall i | 0 <= i < |c| ensures Allowed(c[i]) {
      assert c[i] in c;
    }
  }

  /** What a cleaned name looks like: at most 200 characters and no space at its
      start. */
  lemma CleanedShape(decoded: string)
    ensures |Cleaned(decoded)| <= MaxName
    ensures Cleaned(decoded) == [] || !Text.IsSpace(Cleaned(decoded)[0])
  {
    var t := Text.Trim(Text.CollapseSpaces(Seqs.Filter(Seqs.Filter(decoded, NotForbidden), NotControl)));
    if |t| > MaxName {
      assert Cleaned(decoded)[0] == t[0];
    }
  }

  /** A cleaned name holds no forbidden or control character, and its spaces are
      single ' ' characters. */
  lemma CleanedClean(decoded: string)
    ensures CleanChars(Cleaned(decoded))
  {
    var t := Text.Trim(Text.CollapseSpaces(Seqs.Filter(Seqs.Filter(decoded, NotForbidden), NotControl)));
    TrimmedClean(decoded);
    if |t| > MaxName {
      CleanSlice(t, 0, MaxName);
    }
  }

  /** The trimmed collapsed text is clean. */
  lemma TrimmedClean(decoded: string)
    ensures CleanChars(Text.Trim(Text.CollapseSpaces(Seqs.Filter(Seqs.Filter(decoded, NotForbidden), NotControl))))
  {
    var c := Text.CollapseSpaces(Seqs.Filter(Seqs.Filter(decoded, NotForbidden), NotControl));
    CollapsedClean(decoded);
    var a := Text.TrimSlice(c);
    CleanSlice(c, a, a + |Text.Trim(c)|);
  }

  /** A valid name that is already clean passes through unchanged. */
  lemma CleanNameUnchanged(decoded: string)
    requires 0 < |decoded| <= MaxName
    requires forall i :: 0 <= i < |decoded| ==> Allowed(decoded[i])
    requires forall i :: 0 <= i < |decoded| && Text.IsSpace(decoded[i]) ==> decoded[i] == ' '
    requires forall i :: 0 <= i < |decoded| - 1 ==> !(Text.IsSpace(decoded[i]) && Text.IsSpace(decoded[i + 1]))
    requires !Text.IsSpace(decoded[0]) && !Text.IsSpace(decoded[|decoded| - 1])
    ensures Cleaned(decoded) == decoded
  {
    FilterKeepsAll(decoded, NotForbidden);
    FilterKeepsAll(decoded, NotControl);
    Text.CollapseClean(decoded);
  }

  lemma {:induction false} FilterKeepsAll(s: string, p: char -> bool)
    requires forall i :: 0 <= i < |s| ==> p(s[i])
    ensures Seqs.Filter(s, p) == s
    decreases |s|
  {
    if s != [] {
      FilterKeepsAll(s[1..], p);
    }
  }

  /** The last path segment, as `/([^\/]+)$/` captures it. */
  function LastSegment(path: string): (r: Option<string>)
    ensures r.Some? ==> r.value != "" && '/' !in r.value && Text.EndsWith(path, r.value)
    ensures r.Some? ==> |r.value| == |path| || path[|path| - |r.value| - 1] == '/'
    ensures r.None? <==> path == "" || path[|path| - 1] == '/'
  {
    match Text.LastIndexOfChar(path, '/')
    case None => if path == "" then None else Some(path)
    case Some(i) =>
      var seg := path[i + 1..];
      assert path[|path| - |seg|..] == seg;
      if seg == "" then None else Some(seg)
  }

  /** The extension that `+=` adds for a content type. */
  function Extension(contentType: string): string {
    if Text.Contains(contentType, "image/jpeg") then ".jpg"
    else if Text.Contains(contentType, "image/png") then ".png"
    else if Text.Contains(contentType, "video/mp4") then ".mp4"
    else if Text.Contains(contentType, "image/gif") then ".gif"
    else ""
  }

  /** The name before the extension: the sanitised query name, else the sanitised
      last path segment, else the default. */
  function BaseName(api: Http.UrlApi, filename: Option<string>, pathname: string): (r: string)
    ensures r != ""
    ensures filename.Some? && filename.value != "" ==> r == SanitizeFilename(api, filename.value)
  {
    if filename.Some? && filename.value != "" then SanitizeFilename(api, filename.value)
    else match LastSegment(pathname)
      case Some(seg) => SanitizeFilename(api, seg)
      case None => DefaultName
  }

  /** The final name: an extension for the content type is added only to a name
      without a '.'. */
  function FinalFilename(api: Http.UrlApi, filename: Option<string>, pathname: string, contentType: string): (r: string)
    ensures var b := BaseName(api, filename, pathname);
      && ('.' in b ==> r == b)
      && ('.' !in b ==> r == b + Extension(contentType))
  {
    var b := BaseName(api, filename, pathname);
    if '.' in b then b else b + Extension(contentType)
  }

  // ---------------------------------------------------------------- the target

  /** How far the `mediaUrl` parameter gets: missing, a proxy link without an inner
      `mediaUrl`, an exception (its message; it ends in the catch-all 500), a text
      that is not a URL, or a parsed URL. */
  datatype Target = NoMedia | BadProxy | Thrown(message: string) | Unparsable | Parsed(url: Http.Url)

  /** The target URL: the `mediaUrl` parameter, unwrapped when it is one of this
      application's own proxy links, then percent-decoded and parsed. */
  function TargetOf(api: Http.UrlApi, req: Http.Request): (r: Target)
    ensures r == NoMedia <==> Http.QueryGetOr(req.query, "mediaUrl", "") == ""
    ensures r.Parsed? ==> exists text :: api.parse(text) == Some(r.url)
  {
    var mediaUrl := Http.QueryGetOr(req.query, "mediaUrl", "");
    if mediaUrl == "" then NoMedia
    else
      var inner :=
        if !Text.StartsWith(mediaUrl, ProxyPath) then Ok(mediaUrl)
        else match api.resolve(mediaUrl, req.url)
          case None => Err(Http.InvalidUrl)
          case Some(proxy) => Ok(Http.QueryGetOr(proxy.query, "mediaUrl", ""));
      match inner
      case Err(m) => Thrown(m)
      case Ok(text) =>
        if text == "" then BadProxy
        else match api.decode(text)
          case None => Thrown(Http.UriMalformed)
          case Some(decoded) =>
            match api.parse(decoded)
            case None => Unparsable
            case Some(url) => Parsed(url)
  }

  /** Where a given `mediaUrl` stops: a proxy link is refused exactly when it
      resolves but carries no `mediaUrl` of its own, and throws when it does not
      resolve; any other text is decoded and parsed as it is. */
  lemma TargetCases(api: Http.UrlApi, req: Http.Request)
    ensures var m := Http.QueryGetOr(req.query, "mediaUrl", "");
      TargetOf(api, req) == BadProxy <==>
        (m != "" && Text.StartsWith(m, ProxyPath) && api.resolve(m, req.url).Some?
         && Http.QueryGetOr(api.resolve(m, req.url).value.query, "mediaUrl", "") == "")
    ensures var m := Http.QueryGetOr(req.query, "mediaUrl", "");
      m != "" && Text.StartsWith(m, ProxyPath) && api.resolve(m, req.url).None? ==> TargetOf(api, req) == Thrown(Http.InvalidUrl)
    ensures var m := Http.QueryGetOr(req.query, "mediaUrl", "");
      m != "" && !Text.StartsWith(m, ProxyPath) ==>
        TargetOf(api, req) == match api.decode(m)
             case None => Thrown(Http.UriMalformed)
             case Some(d) => (match api.parse(d) case None => Unparsable case Some(u) => Parsed(u))
  {
  }

  /** A proxy link is unwrapped: its own `mediaUrl` is the one decoded. */
  lemma ProxyLinkUnwrapped(api: Http.UrlApi, req: Http.Request, proxy: Http.Url, inner: string, decoded: string)
    requires Http.QueryGetOr(req.query, "mediaUrl", "") != ""
    requires Text.StartsWith(Http.QueryGetOr(req.query, "mediaUrl", ""), ProxyPath)
    requires api.resolve(Http.QueryGetOr(req.query, "mediaUrl", ""), req.url) == Some(proxy)
    requires Http.QueryGetOr(proxy.query, "mediaUrl", "") == inner && inner != ""
    requires api.decode(inner) == Some(decoded)
    ensures TargetOf(api, req) == match api.parse(decoded) case None => Unparsable case Some(u) => Parsed(u)
  {
  }

  /** The headers of the fetch. */
  const FetchHeaders: Http.Headers := map[
    "user-agent" := "Mozilla/5.0 (Windows NT 10.0; Win64; x64) AppleWebKit/537.36",
    "referer" := "https://x.com/",
    "accept" := "*/*"]

  const MissingMedia := "Parameter 'mediaUrl' wajib"
  const InvalidProxy := "Invalid proxy URL"
  const InvalidMedia := "mediaUrl tidak valid"
  const HostRefused := "Host tidak diizinkan: "

  /** The 500 answer of the catch-all. */
  function InternalError(message: string): Http.Response {
    Http.JsonResponse(Js.Obj([("error", Js.Str("Internal error")), ("message", Js.Str(message))]), 500)
  }

  // ---------------------------------------------------------------- the handler

  /** The file name as `GET` builds it: the default, replaced by the sanitised query
      name or the sanitised last path segment, and then extended when it has no '.';
      it is the name `FinalFilename` describes. */
  method ChooseFilename(api: Http.UrlApi, filename: Option<string>, pathname: string, contentType: string) returns (finalFilename: string)
    ensures finalFilename == FinalFilename(api, filename, pathname, contentType)
  {
    finalFilename := DefaultName;
    if filename.Some? && filename.value != "" {
      finalFilename := SanitizeFilename(api, filename.value);
    } else {
      var m := LastSegment(pathname);
      if m.Some? {
        finalFilename := SanitizeFilename(api, m.value);
      }
    }
    if '.' !in finalFilename {
      finalFilename := finalFilename + Extension(contentType);
    }
  }

  /** The `Content-Disposition` value that names the attachment. */
  function Disposition(name: string): string {
    "attachment; filename=\"" + name + "\""
  }

  /** The disposition can be set exactly when the file name is a ByteString: a name
      with a character above U+00FF makes `headers.set` throw. */
  lemma DispositionByteString(name: string)
    ensures Http.ByteString(Disposition(name)) <==> Http.ByteString(name)
  {
    Http.ByteStringConcat("attachment; filename=\"", name);
    Http.ByteStringConcat("attachment; filename=\"" + name, "\"");
  }

  /** The answer for a fetched file saved as `name`: the catch-all 500 when the
      disposition cannot be set, else 200 with the content type (the upstream's, or
      octet-stream), the attachment's file name, the CORS origin, the caching rule,
      and the length when the upstream gave one. */
  function AttachmentAnswer(name: string, contentType: string, u: Http.Upstream): Http.Response
    requires u.Reply?
  {
    if !Http.ByteString(Disposition(name)) then InternalError(Http.ByteStringError)
    else
      var contentLength := Http.UpstreamHeaderOr(u, "content-length", "");
      var h := map["content-type" := contentType, "content-disposition" := Disposition(name),
                   "access-control-allow-origin" := "*", "cache-control" := "public, max-age=3600"];
      Http.Response(200, if contentLength != "" then h["content-length" := contentLength] else h, Http.Relay)
  }

  /** A file name with a character above U+00FF ends in the catch-all 500; any other
      gets the 200 answer with exactly the five headers, the length only when the
      upstream gave one. */
  lemma AttachmentSpec(name: string, contentType: string, u: Http.Upstream)
    requires u.Reply?
    ensures !Http.ByteString(name) ==> AttachmentAnswer(name, contentType, u) == InternalError(Http.ByteStringError)
    ensures Http.ByteString(name) ==> var r := AttachmentAnswer(name, contentType, u);
      var contentLength := Http.UpstreamHeaderOr(u, "content-length", "");
      && r.status == 200 && r.body == Http.Relay
      && Http.HeaderGet(r.headers, "content-type") == Some(contentType)
      && Http.HeaderGet(r.headers, "content-disposition") == Some(Disposition(name))
      && Http.HeaderGet(r.headers, "access-control-allow-origin") == Some("*")
      && Http.HeaderGet(r.headers, "cache-control") == Some("public, max-age=3600")
      && Http.HeaderGet(r.headers, "content-length") == (if contentLength != "" then Some(contentLength) else None)
      && r.headers.Keys == {"content-type", "content-disposition", "access-control-allow-origin", "cache-control"}
                           + (if contentLength != "" then {"content-length"} else {})
  {
    DispositionByteString(name);
  }

  /** The `headers.set` calls of `GET`, in order; the disposition is the one that can
      throw. */
  method Attachment(name: string, contentType: string, u: Http.Upstream) returns (resp: Http.Response)
    requires u.Reply?
    ensures resp == AttachmentAnswer(name, contentType, u)
  {
    var headers: Http.Headers := map[];
    headers := headers["content-type" := contentType];
    if !Http.ByteString(Disposition(name)) {
      resp := InternalError(Http.ByteStringError);
      return;
    }
    headers := headers["content-disposition" := Disposition(name)];
    headers := headers["access-control-allow-origin" := "*"];
    headers := headers["cache-control" := "public, max-age=3600"];
    var contentLength := Http.UpstreamHeaderOr(u, "content-length", "");
    if contentLength != "" {
      headers := headers["content-length" := contentLength];
    }
    resp := Http.Response(200, headers, Http.Relay);
  }

  /** `GET`: `u` is what the network answers if the media is fetched; `sent` is the
      request sent, if any. */
  method Get(api: Http.UrlApi, req: Http.Request, u: Http.Upstream) returns (resp: Http.Response, sent: Option<Http.Outbound>)
    ensures TargetOf(api, req) == NoMedia ==> resp == Http.JsonResponse(Http.ErrorBody(MissingMedia), 400)
    ensures TargetOf(api, req) == BadProxy ==> resp == Http.JsonResponse(Http.ErrorBody(InvalidProxy), 400)
    ensures TargetOf(api, req) == Unparsable ==> resp == Http.JsonResponse(Http.ErrorBody(InvalidMedia), 400)
    ensures TargetOf(api, req).Thrown? ==> resp == InternalError(TargetOf(api, req).message)
    ensures var t := TargetOf(api, req);
      t.Parsed? && t.url.hostname !in AllowedHosts ==> resp == Http.JsonResponse(Http.ErrorBody(HostRefused + t.url.hostname), 400)
    ensures sent.Some? <==> TargetOf(api, req).Parsed? && TargetOf(api, req).url.hostname in AllowedHosts
    ensures sent.Some? ==> sent.value == Http.Outbound(api.serialize(TargetOf(api, req).url), FetchHeaders)
    ensures sent.Some? && u.Failure? ==> resp == InternalError(u.message)
    ensures sent.Some? && u.Reply? && !Http.IsOk(u.status) ==>
      resp == Http.JsonResponse(Js.Obj([("error", Js.Str("Gagal mengunduh media")), ("status", Js.Num(u.status))]), u.status)
    ensures sent.Some? && u.Reply? && Http.IsOk(u.status) ==>
      var contentType := Http.UpstreamHeaderOr(u, "content-type", Http.OctetStream);
      resp == AttachmentAnswer(FinalFilename(api, Http.QueryGet(req.query, "filename"), TargetOf(api, req).url.pathname, contentType), contentType, u)
  {
    sent := None;
    var target := TargetOf(api, req);
    match target {
      case NoMedia => resp := Http.JsonResponse(Http.ErrorBody(MissingMedia), 400); return;
      case BadProxy => resp := Http.JsonResponse(Http.ErrorBody(InvalidProxy), 400); return;
      case Unparsable => resp := Http.JsonResponse(Http.ErrorBody(InvalidMedia), 400); return;
      case Thrown(m) => resp := InternalError(m); return;
      case Parsed(_) =>
    }
    var url := target.url;
    if url.hostname !in AllowedHosts {
      resp := Http.JsonResponse(Http.ErrorBody(HostRefused + url.hostname), 400);
      return;
    }
    sent := Some(Http.Outbound(api.serialize(url), FetchHeaders));
    if u.Failure? {
      resp := InternalError(u.message);
      return;
    }
    if !Http.IsOk(u.status) {
      resp := Http.JsonResponse(Js.Obj([("error", Js.Str("Gagal mengunduh media")), ("status", Js.Num(u.status))]), u.status);
      return;
    }
    var contentType := Http.UpstreamHeaderOr(u, "content-type", Http.OctetStream);
    var finalFilename := ChooseFilename(api, Http.QueryGet(req.query, "filename"), url.pathname, contentType);
    resp := Attachment(finalFilename, contentType, u);
  }
}
