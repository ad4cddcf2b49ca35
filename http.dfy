/** The pieces of the Fetch API and of Next.js route handlers that the handlers touch:
    query strings, header maps, the parsed form of a URL, one upstream answer and the
    response a handler returns. URL parsing and percent-decoding are not modelled;
    they are the parameters of a `UrlApi`. */
module Http {
  import opened Wrappers
  import Text
  import Js

  /** `URLSearchParams`: the decoded name/value pairs in order. */
  type Query = seq<(string, string)>

  /** `params.get(name)`: the first value given for `name`, or `null` (`None`). */
  function QueryGet(q: Query, name: string): (r: Option<string>)
    ensures r.Some? ==> exists i :: 0 <= i < |q| && q[i] == (name, r.value) && forall j :: 0 <= j < i ==> q[j].0 != name
    ensures r.None? ==> forall i :: 0 <= i < |q| ==> q[i].0 != name
  {
    if q == [] then None
    else if q[0].0 == name then (assert q[0] == (name, q[0].1); Some(q[0].1))
    else match QueryGet(q[1..], name)
      case None => None
      case Some(v) =>
        ghost var i :| 0 <= i < |q[1..]| && q[1..][i] == (name, v) && forall j :: 0 <= j < i ==> q[1..][j].0 != name;
        assert q[i + 1] == (name, v);
        assert forall j :: 1 <= j < i + 1 ==> q[j] == q[1..][j - 1];
        Some(v)
  }

  /** Looking any name up in a non-empty list: its first pair, or the rest. */
  lemma QueryGetHead(q: Query)
    requires q != []
    ensures forall n :: QueryGet(q, n) == if q[0].0 == n then Some(q[0].1) else QueryGet(q[1..], n)
  {
  }

  /** Looking a name up in two lists of pairs one after the other. */
  lemma {:induction false} QueryGetConcat(a: Query, b: Query, name: string)
    ensures QueryGet(a + b, name) == if QueryGet(a, name).Some? then QueryGet(a, name) else QueryGet(b, name)
    decreases |a|
  {
    if a == [] {
      assert a + b == b;
    } else {
      QueryGetConcat(a[1..], b, name);
      assert (a + b)[0] == a[0];
      assert (a + b)[1..] == a[1..] + b;
    }
  }

  /** The pairs of `q` not named `name`. */
  function RemoveAll(q: Query, name: string): (r: Query)
    ensures forall i :: 0 <= i < |r| ==> r[i].0 != name
    ensures forall n :: n != name ==> QueryGet(r, n) == QueryGet(q, n)
  {
    if q == [] then []
    else
      var rest := RemoveAll(q[1..], name);
      QueryGetHead(q);
      if q[0].0 == name then rest
      else
        var r := [q[0]] + rest;
        QueryGetHead(r);
        assert r[1..] == rest;
        r
  }

  /** `params.set(name, value)`: the first pair named `name` takes the new value and
      the later ones go; with no such pair, the pair is appended. */
  function QuerySet(q: Query, name: string, value: string): (r: Query)
    ensures QueryGet(r, name) == Some(value)
    ensures forall n :: n != name ==> QueryGet(r, n) == QueryGet(q, n)
  {
    if q == [] then
      QueryGetHead([(name, value)]);
      [(name, value)]
    else
      QueryGetHead(q);
      if q[0].0 == name then
        var r := [(name, value)] + RemoveAll(q[1..], name);
        QueryGetHead(r);
        assert r[1..] == RemoveAll(q[1..], name);
        r
      else
        var rest := QuerySet(q[1..], name, value);
        var r := [q[0]] + rest;
        QueryGetHead(r);
        assert r[1..] == rest;
        r
  }

  /** Setting a name no pair has appends the pair. */
  lemma {:induction false} QuerySetAppends(q: Query, name: string, value: string)
    requires forall i :: 0 <= i < |q| ==> q[i].0 != name
    ensures QuerySet(q, name, value) == q + [(name, value)]
  {
    if q != [] {
      var t := q[1..];
      assert forall i :: 0 <= i < |t| ==> t[i].0 != name by {
        assert forall i :: 0 <= i < |t| ==> t[i] == q[i + 1];
      }
      QuerySetAppends(t, name, value);
      assert q[0].0 != name;
      assert QuerySet(q, name, value) == [q[0]] + QuerySet(t, name, value);
      assert q == [q[0]] + t;
      ConsSnoc(q[0], t, (name, value));
    }
  }

  lemma ConsSnoc<T>(x: T, t: seq<T>, y: T)
    ensures [x] + (t + [y]) == ([x] + t) + [y]
  {
  }

  /** `params.get(name) || fallback`. */
  function QueryGetOr(q: Query, name: string, fallback: string): string {
    match QueryGet(q, name)
    case Some(v) => if v != "" then v else fallback
    case None => fallback
  }

  /** A `Headers` object: names are case-insensitive, so keys are kept lower-cased,
      and the operations below take the lower-cased form of the name the source
      writes ('content-type' for 'Content-Type'). */
  type Headers = map<string, string>

  /** A WebIDL ByteString: no character above U+00FF. `Headers.set` throws a
      TypeError for a value that is not one. */
  predicate ByteString(s: string) {
    forall i :: 0 <= i < |s| ==> s[i] <= '\U{00FF}'
  }

  /** The message of that TypeError; the engine's exact wording, which names the
      offending character, is not modelled. */
  const ByteStringError := "Cannot convert argument to a ByteString"

  /** A text joined from pieces is a ByteString exactly when every piece is one. */
  lemma ByteStringConcat(a: string, b: string)
    ensures ByteString(a + b) <==> ByteString(a) && ByteString(b)
  {
    if ByteString(a + b) {
      forall i | 0 <= i < |a| ensures a[i] <= '\U{00FF}' {
        assert a[i] == (a + b)[i];
      }
      forall i | 0 <= i < |b| ensures b[i] <= '\U{00FF}' {
        assert b[i] == (a + b)[|a| + i];
      }
    }
  }

  /** `h.get(name)`. */
  function HeaderGet(h: Headers, key: string): Option<string> {
    if key in h then Some(h[key]) else None
  }

  /** `h.get(name) || fallback`. */
  function HeaderGetOr(h: Headers, key: string, fallback: string): string {
    match HeaderGet(h, key)
    case Some(v) => if v != "" then v else fallback
    case None => fallback
  }

  /** The parsed form of an absolute URL, as `new URL(...)` exposes it. */
  datatype Url = Url(href: string, origin: string, hostname: string, pathname: string, query: Query, hash: string)

  /** The platform functions whose inner workings are outside the model: `new URL(s)`
      (`None` when it throws), `new URL(relative, base)`, `url.toString()`,
      `decodeURIComponent` (`None` when it throws), `encodeURIComponent` and the
      form encoding `URLSearchParams.toString()` applies to each name and value. */
  datatype UrlApi = UrlApi(
    parse: string -> Option<Url>,
    resolve: (string, string) -> Option<Url>,
    serialize: Url -> string,
    decode: string -> Option<string>,
    encode: string -> string,
    formEncode: string -> string)

  /** `/^https?:\/\//i`: the text starts with an http or https scheme, in any
      letter case. */
  predicate WebScheme(u: string) {
    (|u| >= 7 && Text.Lower(u[..7]) == "http://") || (|u| >= 8 && Text.Lower(u[..8]) == "https://")
  }

  /** An address starting with `/` has no web scheme. */
  lemma SlashNotWebScheme(u: string)
    requires |u| > 0 && u[0] == '/'
    ensures !WebScheme(u)
  {
    if |u| >= 7 {
      assert Text.Lower(u[..7])[0] == '/';
    }
    if |u| >= 8 {
      assert Text.Lower(u[..8])[0] == '/';
    }
  }

  /** An https address has a web scheme. */
  lemma HttpsIsWebScheme(u: string)
    requires Text.StartsWith(u, "https://")
    ensures WebScheme(u)
  {
    assert u[..8] == "https://";
    Text.LowerNoCapitals(u[..8]);
  }

  /** An incoming request: its URL text, its parsed query and its headers. */
  datatype Request = Request(url: string, query: Query, headers: Headers)

  /** What the network answers to the one `fetch` a handler may issue: a response
      whose header entries are listed as `Headers.entries()` yields them, or a
      rejected promise with its error message. */
  datatype Upstream =
    | Reply(status: int, statusText: string, entries: seq<(string, string)>, text: string)
    | Failure(message: string)

  /** The value of the last entry whose lower-cased name is `name`. */
  function EntryValue(entries: seq<(string, string)>, name: string): Option<string>
    decreases |entries|
  {
    if entries == [] then None
    else if Text.Lower(entries[|entries| - 1].0) == name then Some(entries[|entries| - 1].1)
    else EntryValue(entries[..|entries| - 1], name)
  }

  /** `upstream.headers.get(name)`, for the lower-cased `key`. */
  function UpstreamHeader(u: Upstream, key: string): Option<string>
    requires u.Reply?
  {
    EntryValue(u.entries, key)
  }

  /** `upstream.headers.get(name) || fallback`. */
  function UpstreamHeaderOr(u: Upstream, key: string, fallback: string): string
    requires u.Reply?
  {
    match UpstreamHeader(u, key)
    case Some(v) => if v != "" then v else fallback
    case None => fallback
  }

  /** `response.ok`. */
  predicate IsOk(status: int) {
    200 <= status <= 299
  }

  /** The request a handler sends upstream. */
  datatype Outbound = Outbound(url: string, headers: Headers)

  /** A JSON body, the upstream body relayed as a stream, or no body. */
  datatype Body = Json(value: Js.Val) | Relay | NoBody

  datatype Response = Response(status: int, headers: Headers, body: Body)

  const ContentTypeJson := "application/json"
  const OctetStream := "application/octet-stream"

  /** `NextResponse.json(body, { status })`. */
  function JsonResponse(value: Js.Val, status: int): (r: Response)
    ensures r.status == status && r.body == Json(value)
    ensures r.headers == map["content-type" := ContentTypeJson]
  {
    Response(status, map["content-type" := ContentTypeJson], Json(value))
  }

  /** `{ error: message }`. */
  function ErrorBody(message: string): Js.Val {
    Js.Obj([("error", Js.Str(message))])
  }

  /** The message of the error `decodeURIComponent` throws. */
  const UriMalformed := "URI malformed"
  /** The message of the error `new URL` throws. */
  const InvalidUrl := "Invalid URL"
}
