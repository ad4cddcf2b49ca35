/** The YouTube helpers of the shared utility library: URL extraction and clean-up,
    duration text, the quality table and the stream list operations, error
    classification and input validation. */
module YoutubeUtils {
  import opened Wrappers
  import Text
  import Js
  import Scan
  import Patterns
  import Seqs
  import Http

  // ---------------------------------------------------------------- URLs

  /** The URL forms that carry a video id, tried in this order at each position. */
  const VideoPrefixes: seq<string> := [
    "youtube.com/watch?v=", "youtu.be/", "youtube.com/embed/",
    "youtube.com/v/", "m.youtube.com/watch?v=", "youtube.com/shorts/"]

  /** An id of 11 characters after one of `VideoPrefixes`. */
  const PrefixedVideoId := Scan.Search(VideoPrefixes, Scan.IdChars, Scan.Exactly(11))
  /** A string that is itself an 11-character id. */
  const BareVideoId := Scan.Whole("", Scan.IdChars, Scan.Exactly(11))

  /** An 11-character id right after a recognised prefix somewhere in `url`. */
  ghost predicate HasPrefixedId(url: string, id: string) {
    Scan.CapturedAfter(url, VideoPrefixes, Scan.IdChars, Scan.Exactly(11), id)
  }

  /** `id` follows the leftmost recognised prefix that an id follows: the capture of
      the search pattern. */
  ghost predicate FirstPrefixedId(url: string, id: string) {
    Scan.CapturedFirst(url, VideoPrefixes, Scan.IdChars, Scan.Exactly(11), id)
  }

  predicate IsBareId(s: string) {
    |s| == 11 && Scan.AllInClass(s, Scan.IdChars)
  }

  /** What `extractVideoId` returns: `m[1] || m[0]` of the first of the two patterns that matches. */
  function VideoIdOf(url: string): Option<string> {
    match Patterns.FirstMatch([PrefixedVideoId, BareVideoId], url)
    case Some((_, m)) => Some(Scan.GroupOrWhole(m))
    case None => None
  }

  /** `extractVideoId` gives an 11-character id found after a recognised prefix, or the
      whole input when the input is itself an id, and `null` exactly when neither exists.
      When some prefix is followed by an id, the one returned follows the leftmost such
      prefix; the whole input is returned only when no prefix is followed by an id. */
  lemma VideoIdShape(url: string)
    ensures VideoIdOf(url).Some? ==> IsBareId(VideoIdOf(url).value)
    ensures VideoIdOf(url).Some? ==> HasPrefixedId(url, VideoIdOf(url).value) || VideoIdOf(url).value == url
    ensures VideoIdOf(url).None? <==> (forall id :: !HasPrefixedId(url, id)) && !IsBareId(url)
    ensures (exists id :: HasPrefixedId(url, id)) ==> VideoIdOf(url).Some? && FirstPrefixedId(url, VideoIdOf(url).value)
    ensures (forall id :: !HasPrefixedId(url, id)) ==> VideoIdOf(url) == if IsBareId(url) then Some(url) else None
  {
    Scan.WholeMatchIff("", Scan.IdChars, Scan.Exactly(11), url);
    assert url[|""|..] == url;
    assert Text.StartsWith(url, "");
    var outcomes := Patterns.Outcomes([PrefixedVideoId, BareVideoId], url);
    if outcomes[0].Some? {
      Scan.SearchFound(VideoPrefixes, Scan.IdChars, Scan.Exactly(11), url);
      Scan.SearchLeftmost(VideoPrefixes, Scan.IdChars, Scan.Exactly(11), url);
    } else {
      forall id ensures !HasPrefixedId(url, id) {
        Scan.SearchMissed(VideoPrefixes, Scan.IdChars, Scan.Exactly(11), url, id);
      }
      var first := Patterns.FirstMatch([PrefixedVideoId, BareVideoId], url);
      if outcomes[1].Some? {
        assert first == Some((1, Scan.Match(url, None)));
        assert VideoIdOf(url) == Some(url);
        assert IsBareId(url);
      } else {
        assert first.None?;
      }
    }
  }

  /** `urlUtils.extractVideoId`: the loop over the two patterns. */
  method ExtractVideoId(url: string) returns (id: Option<string>)
    ensures id == VideoIdOf(url)
  {
    var m := Patterns.FindFirstMatch([PrefixedVideoId, BareVideoId], url);
    match m
    case Some((_, found)) => id := Some(Scan.GroupOrWhole(found));
    case None => id := None;
  }

  const ListPrefixes: seq<string> := ["&list=", "?list="]
  /** `[&?]list=([a-zA-Z0-9_-]+)` and `^[a-zA-Z0-9_-]+$`. */
  const PlaylistPatterns := [Scan.Search(ListPrefixes, Scan.IdChars, Scan.OneOrMore), Scan.Whole("", Scan.IdChars, Scan.OneOrMore)]

  /** `g` is the id run after the leftmost `&list=` or `?list=` that one follows. */
  ghost predicate FirstListId(url: string, g: string) {
    Scan.CapturedFirst(url, ListPrefixes, Scan.IdChars, Scan.OneOrMore, g)
  }

  /** What `extractPlaylistId` returns. */
  function PlaylistIdOf(url: string): Option<string> {
    match Patterns.FirstMatch(PlaylistPatterns, url)
    case Some((_, m)) => Some(Scan.GroupOrWhole(m))
    case None => None
  }

  /** A playlist id is the longest id run after `&list=` or `?list=`, or the whole input
      when it consists of id characters only; there is none exactly when neither applies.
      The run taken is the one after the leftmost `list=` an id character follows, and
      the whole input is taken only when there is no such `list=`. */
  lemma PlaylistIdShape(url: string)
    ensures PlaylistIdOf(url).Some? ==> PlaylistIdOf(url).value != "" && Scan.AllInClass(PlaylistIdOf(url).value, Scan.IdChars)
    ensures PlaylistIdOf(url).Some? ==>
      Scan.CapturedAfter(url, ListPrefixes, Scan.IdChars, Scan.OneOrMore, PlaylistIdOf(url).value) || PlaylistIdOf(url).value == url
    ensures PlaylistIdOf(url).None? <==>
      (forall g :: !Scan.CapturedAfter(url, ListPrefixes, Scan.IdChars, Scan.OneOrMore, g))
      && (url == "" || !Scan.AllInClass(url, Scan.IdChars))
    ensures (exists g :: Scan.CapturedAfter(url, ListPrefixes, Scan.IdChars, Scan.OneOrMore, g)) ==>
      PlaylistIdOf(url).Some? && FirstListId(url, PlaylistIdOf(url).value)
    ensures (forall g :: !Scan.CapturedAfter(url, ListPrefixes, Scan.IdChars, Scan.OneOrMore, g)) ==>
      PlaylistIdOf(url) == if url != "" && Scan.AllInClass(url, Scan.IdChars) then Some(url) else None
  {
    if Scan.Exec(PlaylistPatterns[0], url).Some? {
      PlaylistFound(url);
    } else {
      PlaylistMissed(url);
    }
  }

  /** When `[&?]list=` is followed by an id run, the first pattern decides. */
  lemma PlaylistFound(url: string)
    requires Scan.Exec(PlaylistPatterns[0], url).Some?
    ensures PlaylistIdOf(url).Some?
    ensures PlaylistIdOf(url).value != "" && Scan.AllInClass(PlaylistIdOf(url).value, Scan.IdChars)
    ensures Scan.CapturedAfter(url, ListPrefixes, Scan.IdChars, Scan.OneOrMore, PlaylistIdOf(url).value)
    ensures FirstListId(url, PlaylistIdOf(url).value)
  {
    Scan.SearchFound(ListPrefixes, Scan.IdChars, Scan.OneOrMore, url);
    Scan.SearchLeftmost(ListPrefixes, Scan.IdChars, Scan.OneOrMore, url);
  }

  /** Otherwise the whole input is taken when it is an id run. */
  lemma PlaylistMissed(url: string)
    requires Scan.Exec(PlaylistPatterns[0], url).None?
    ensures forall g :: !Scan.CapturedAfter(url, ListPrefixes, Scan.IdChars, Scan.OneOrMore, g)
    ensures PlaylistIdOf(url) == if url != "" && Scan.AllInClass(url, Scan.IdChars) then Some(url) else None
  {
    Scan.WholeMatchIff("", Scan.IdChars, Scan.OneOrMore, url);
    assert url[|""|..] == url;
    assert Text.StartsWith(url, "");
    forall g ensures !Scan.CapturedAfter(url, ListPrefixes, Scan.IdChars, Scan.OneOrMore, g) {
      Scan.SearchMissed(ListPrefixes, Scan.IdChars, Scan.OneOrMore, url, g);
    }
    var first := Patterns.FirstMatch(PlaylistPatterns, url);
    if Scan.Exec(PlaylistPatterns[1], url).Some? {
      assert first == Some((1, Scan.Match(url, None)));
    } else {
      assert first.None?;
    }
  }

  /** `urlUtils.extractPlaylistId`. */
  method ExtractPlaylistId(url: string) returns (id: Option<string>)
    ensures id == PlaylistIdOf(url)
  {
    var m := Patterns.FindFirstMatch(PlaylistPatterns, url);
    match m
    case Some((_, found)) => id := Some(Scan.GroupOrWhole(found));
    case None => id := None;
  }

  datatype ChannelKind = ChannelId | Handle | Custom
  datatype ChannelInfo = ChannelInfo(kind: ChannelKind, value: string)

  /** The four channel URL forms, tried in order, and the kind each one yields. */
  const ChannelPatterns := [
    Scan.Search(["youtube.com/channel/"], Scan.IdChars, Scan.OneOrMore),
    Scan.Search(["youtube.com/@"], Scan.HandleChars, Scan.OneOrMore),
    Scan.Search(["youtube.com/c/"], Scan.IdChars, Scan.OneOrMore),
    Scan.Search(["youtube.com/user/"], Scan.IdChars, Scan.OneOrMore)]
  const ChannelKinds := [ChannelId, Handle, Custom, Custom]

  /** `^UC[a-zA-Z0-9_-]{22}$` and `^@[a-zA-Z0-9_.-]+$`. */
  const DirectChannelId := Scan.Whole("UC", Scan.IdChars, Scan.Exactly(22))
  const DirectHandle := Scan.Whole("@", Scan.HandleChars, Scan.OneOrMore)

  /** What `extractChannelInfo` returns. */
  function ChannelInfoOf(url: string): Option<ChannelInfo> {
    match Patterns.FirstMatch(ChannelPatterns, url)
    case Some((i, m)) => Some(ChannelInfo(ChannelKinds[i], m.group.GetOr("")))
    case None =>
      if Scan.Exec(DirectChannelId, url).Some? then Some(ChannelInfo(ChannelId, url))
      else if Scan.Exec(DirectHandle, url).Some? then Some(ChannelInfo(Handle, url[1..]))
      else None
  }

  /** Channel URL form `i` occurs in `url` with a value after it. */
  ghost predicate ChannelFormAt(url: string, i: nat)
    requires i < |ChannelPatterns|
  {
    exists g :: Scan.CapturedAfter(url, ChannelPatterns[i].prefixes, ChannelPatterns[i].cls, ChannelPatterns[i].q, g)
  }

  /** `g` is the value after the leftmost occurrence of form `i` that has one. */
  ghost predicate ChannelFirst(url: string, i: nat, g: string)
    requires i < |ChannelPatterns|
  {
    Scan.CapturedFirst(url, ChannelPatterns[i].prefixes, ChannelPatterns[i].cls, ChannelPatterns[i].q, g)
  }

  /** `UC` followed by 22 id characters. */
  predicate IsChannelIdText(url: string) {
    |url| == 24 && url[..2] == "UC" && Scan.AllInClass(url[2..], Scan.IdChars)
  }

  /** `@` followed by at least one handle character. */
  predicate IsHandleText(url: string) {
    |url| >= 2 && url[0] == '@' && Scan.AllInClass(url[1..], Scan.HandleChars)
  }

  /** A channel form matches exactly when it occurs with a value after it. */
  lemma ChannelFormIff(url: string, i: nat)
    requires i < |ChannelPatterns|
    ensures ChannelFormAt(url, i) <==> Scan.Exec(ChannelPatterns[i], url).Some?
  {
    var p := ChannelPatterns[i];
    if Scan.Exec(p, url).Some? {
      Scan.SearchFound(p.prefixes, p.cls, p.q, url);
    } else {
      forall g ensures !Scan.CapturedAfter(url, p.prefixes, p.cls, p.q, g) {
        Scan.SearchMissed(p.prefixes, p.cls, p.q, url, g);
      }
    }
  }

  /** A channel value is never empty and is made of the characters of its kind: an id
      or custom name of `[A-Za-z0-9_-]`, a handle of `[A-Za-z0-9_.-]`. The first
      channel URL form that occurs with a value decides the kind, and the value is the
      one after its leftmost such occurrence; when no form occurs, a bare `UC` id and
      then a bare `@` handle are accepted, and nothing else is. */
  lemma ChannelInfoShape(url: string)
    ensures ChannelInfoOf(url).Some? ==> ChannelInfoOf(url).value.value != ""
    ensures ChannelInfoOf(url).Some? && ChannelInfoOf(url).value.kind != Handle ==>
      Scan.AllInClass(ChannelInfoOf(url).value.value, Scan.IdChars)
    ensures ChannelInfoOf(url).Some? && ChannelInfoOf(url).value.kind == Handle ==>
      Scan.AllInClass(ChannelInfoOf(url).value.value, Scan.HandleChars)
    ensures forall i :: 0 <= i < |ChannelPatterns| && ChannelFormAt(url, i) && (forall k :: 0 <= k < i ==> !ChannelFormAt(url, k)) ==>
      ChannelInfoOf(url).Some? && ChannelInfoOf(url).value.kind == ChannelKinds[i] && ChannelFirst(url, i, ChannelInfoOf(url).value.value)
    ensures (forall i :: 0 <= i < |ChannelPatterns| ==> !ChannelFormAt(url, i)) ==>
      ChannelInfoOf(url) ==
        if IsChannelIdText(url) then Some(ChannelInfo(ChannelId, url))
        else if IsHandleText(url) then Some(ChannelInfo(Handle, url[1..]))
        else None
  {
    ChannelValueAlphabet(url);
    ChannelFormWins(url);
    ChannelDirect(url);
  }

  /** A channel value is non-empty and drawn from its kind's characters. */
  lemma ChannelValueAlphabet(url: string)
    ensures ChannelInfoOf(url).Some? ==> ChannelInfoOf(url).value.value != ""
    ensures ChannelInfoOf(url).Some? && ChannelInfoOf(url).value.kind != Handle ==>
      Scan.AllInClass(ChannelInfoOf(url).value.value, Scan.IdChars)
    ensures ChannelInfoOf(url).Some? && ChannelInfoOf(url).value.kind == Handle ==>
      Scan.AllInClass(ChannelInfoOf(url).value.value, Scan.HandleChars)
  {
    var first := Patterns.FirstMatch(ChannelPatterns, url);
    if first.Some? {
      var i := first.value.0;
      var p := ChannelPatterns[i];
      Scan.SearchFound(p.prefixes, p.cls, p.q, url);
    } else if Scan.Exec(DirectChannelId, url).Some? {
      Scan.WholeMatchIff("UC", Scan.IdChars, Scan.Exactly(22), url);
      assert url[..2] == "UC";
      assert forall k :: 0 <= k < |url| ==> Scan.InClass(url[k], Scan.IdChars) by {
        assert forall k :: 2 <= k < |url| ==> url[k] == url[2..][k - 2];
      }
    } else if Scan.Exec(DirectHandle, url).Some? {
      Scan.WholeMatchIff("@", Scan.HandleChars, Scan.OneOrMore, url);
    }
  }

  /** The first channel form that occurs with a value decides the kind, and the value
      follows its leftmost such occurrence. */
  lemma ChannelFormWins(url: string)
    ensures forall i :: 0 <= i < |ChannelPatterns| && ChannelFormAt(url, i) && (forall k :: 0 <= k < i ==> !ChannelFormAt(url, k)) ==>
      ChannelInfoOf(url).Some? && ChannelInfoOf(url).value.kind == ChannelKinds[i] && ChannelFirst(url, i, ChannelInfoOf(url).value.value)
  {
    forall k | 0 <= k < |ChannelPatterns| {
      ChannelFormIff(url, k);
    }
    forall i | 0 <= i < |ChannelPatterns| && ChannelFormAt(url, i) && (forall k :: 0 <= k < i ==> !ChannelFormAt(url, k))
      ensures ChannelInfoOf(url).Some? && ChannelInfoOf(url).value.kind == ChannelKinds[i]
      ensures ChannelFirst(url, i, ChannelInfoOf(url).value.value)
    {
      var first := Patterns.FirstMatch(ChannelPatterns, url);
      assert first.Some? && first.value.0 == i;
      var p := ChannelPatterns[i];
      Scan.SearchLeftmost(p.prefixes, p.cls, p.q, url);
    }
  }

  /** With no channel form present, only a bare `UC` id or a bare handle is accepted. */
  lemma ChannelDirect(url: string)
    ensures (forall i :: 0 <= i < |ChannelPatterns| ==> !ChannelFormAt(url, i)) ==>
      ChannelInfoOf(url) ==
        if IsChannelIdText(url) then Some(ChannelInfo(ChannelId, url))
        else if IsHandleText(url) then Some(ChannelInfo(Handle, url[1..]))
        else None
  {
    forall i | 0 <= i < |ChannelPatterns| {
      ChannelFormIff(url, i);
    }
    Scan.WholeMatchIff("UC", Scan.IdChars, Scan.Exactly(22), url);
    Scan.WholeMatchIff("@", Scan.HandleChars, Scan.OneOrMore, url);
    assert Text.StartsWith(url, "@") <==> |url| >= 1 && url[0] == '@' by {
      if |url| >= 1 { assert url[..1] == [url[0]]; }
    }
  }

  /** `urlUtils.extractChannelInfo`: the loop over the channel URL forms, then the two
      direct forms. */
  method ExtractChannelInfo(url: string) returns (info: Option<ChannelInfo>)
    ensures info == ChannelInfoOf(url)
  {
    var m := Patterns.FindFirstMatch(ChannelPatterns, url);
    if m.Some? {
      var kind := ChannelKinds[m.value.0];
      return Some(ChannelInfo(kind, m.value.1.group.GetOr("")));
    }
    if Scan.Exec(DirectChannelId, url).Some? {
      return Some(ChannelInfo(ChannelId, url));
    }
    if Scan.Exec(DirectHandle, url).Some? {
      return Some(ChannelInfo(Handle, url[1..]));
    }
    return None;
  }

  /** `(\.|^)youtube\.com$|(\.|^)youtu\.be$`, case-insensitive, on a host name. */
  predicate IsYoutubeHost(hostname: string) {
    var h := Text.Lower(hostname);
    h == "youtube.com" || Text.EndsWith(h, ".youtube.com") || h == "youtu.be" || Text.EndsWith(h, ".youtu.be")
  }

  /** `urlUtils.isValidYouTubeUrl`: the URL parses and its host is YouTube's. */
  predicate IsValidYouTubeUrl(api: Http.UrlApi, url: string) {
    match api.parse(url)
    case Some(u) => IsYoutubeHost(u.hostname)
    case None => false
  }

  /** The parameters `normalizeUrl` keeps, in this order. */
  const KeptParams: seq<string> := ["v", "list", "t"]

  /** `params.get(name)` when it is a non-empty value. */
  function NonEmptyParam(q: Http.Query, name: string): Option<string> {
    match Http.QueryGet(q, name)
    case Some(v) => if v != "" then Some(v) else None
    case None => None
  }

  /** The position of a kept name in `KeptParams`. */
  function Rank(name: string): nat {
    if name == "v" then 0 else if name == "list" then 1 else 2
  }

  /** `newParams.set(name, value)` on the fresh parameters when `q` gives `name` a
      non-empty first value. */
  function KeepOne(q: Http.Query, name: string): (r: Http.Query)
    ensures |r| <= 1 && forall i :: 0 <= i < |r| ==> r[i].0 == name && r[i].1 != ""
  {
    match NonEmptyParam(q, name)
    case Some(v) => [(name, v)]
    case None => []
  }

  /** The fresh `URLSearchParams` built from `q` by the `forEach` over `KeptParams`. */
  function KeepParams(q: Http.Query): Http.Query {
    KeepOne(q, "v") + KeepOne(q, "list") + KeepOne(q, "t")
  }

  /** The kept parameters are among `v`, `list` and `t`, in that order, with non-empty values. */
  lemma KeepParamsNames(q: Http.Query)
    ensures forall i :: 0 <= i < |KeepParams(q)| ==> KeepParams(q)[i].0 in KeptParams && KeepParams(q)[i].1 != ""
    ensures forall i, j :: 0 <= i < j < |KeepParams(q)| ==> Rank(KeepParams(q)[i].0) < Rank(KeepParams(q)[j].0)
  {
    var a, b, c := KeepOne(q, "v"), KeepOne(q, "list"), KeepOne(q, "t");
    var r := a + b + c;
    assert forall i :: 0 <= i < |a| ==> r[i] == a[i];
    assert forall i :: |a| <= i < |a| + |b| ==> r[i] == b[i - |a|];
    assert forall i :: |a| + |b| <= i < |r| ==> r[i] == c[i - |a| - |b|];
  }

  /** Each kept name carries the first value `q` gives it, when that value is not empty. */
  lemma KeepParamsValues(q: Http.Query, name: string)
    requires name in KeptParams
    ensures Http.QueryGet(KeepParams(q), name) == NonEmptyParam(q, name)
  {
    var a, b, c := KeepOne(q, "v"), KeepOne(q, "list"), KeepOne(q, "t");
    Http.QueryGetConcat(a + b, c, name);
    Http.QueryGetConcat(a, b, name);
  }

  /** `urlUtils.normalizeUrl`: only `v`, `list` and `t` are kept, the fragment is
      dropped, and text that does not parse comes back unchanged. */
  function NormalizeUrl(api: Http.UrlApi, url: string): string {
    match api.parse(url)
    case Some(u) => api.serialize(u.(query := KeepParams(u.query), hash := ""))
    case None => url
  }

  /** Keeping the parameters twice keeps the same ones. */
  lemma KeepParamsIdempotent(q: Http.Query)
    ensures KeepParams(KeepParams(q)) == KeepParams(q)
  {
    var r := KeepParams(q);
    KeepParamsValues(q, "v");
    KeepParamsValues(q, "list");
    KeepParamsValues(q, "t");
    assert NonEmptyParam(r, "v") == NonEmptyParam(q, "v");
    assert NonEmptyParam(r, "list") == NonEmptyParam(q, "list");
    assert NonEmptyParam(r, "t") == NonEmptyParam(q, "t");
  }

  /** What the URL standard promises of a parsed URL whose search and fragment are
      replaced: its serialisation parses again, to a URL with that search and
      fragment and the same serialisation. Nothing is assumed of records no parse
      produced. */
  ghost predicate ReparseKeeps(api: Http.UrlApi) {
    forall url, q ::
      api.parse(url).Some? ==>
        var n := api.parse(url).value.(query := q, hash := "");
        var v := api.parse(api.serialize(n));
        v.Some? && v.value.query == q && v.value.hash == "" && api.serialize(v.value) == api.serialize(n)
  }

  /** Normalizing an already normalized URL changes nothing. */
  lemma NormalizeUrlIdempotent(api: Http.UrlApi, url: string)
    requires ReparseKeeps(api)
    ensures NormalizeUrl(api, NormalizeUrl(api, url)) == NormalizeUrl(api, url)
  {
    match api.parse(url)
    case None =>
    case Some(u) =>
      var q := KeepParams(u.query);
      var n := u.(query := q, hash := "");
      var v := api.parse(api.serialize(n)).value;
      assert v.query == q && v.hash == "" && api.serialize(v) == api.serialize(n);
      KeepParamsIdempotent(u.query);
      assert v.(query := KeepParams(v.query), hash := "") == v;
  }

  // ---------------------------------------------------------------- durations

  /** `formatUtils.formatDuration`: `h:mm:ss` from one hour on, `m:ss` below. */
  function FormatDuration(seconds: nat): string {
    var hours := seconds / 3600;
    var minutes := (seconds % 3600) / 60;
    var secs := seconds % 60;
    if hours > 0 then Text.NatToString(hours) + ":" + Text.PadStart2(Text.NatToString(minutes)) + ":" + Text.PadStart2(Text.NatToString(secs))
    else Text.NatToString(minutes) + ":" + Text.PadStart2(Text.NatToString(secs))
  }

  /** Reading duration text back: two or three `:`-separated decimal fields. */
  function ParseDuration(text: string): Option<nat> {
    var parts := Text.Split(text, ':');
    if |parts| == 3 then
      match (Text.ParseNat(parts[0]), Text.ParseNat(parts[1]), Text.ParseNat(parts[2]))
      case (Some(h), Some(m), Some(s)) => Some(h * 3600 + m * 60 + s)
      case _ => None
    else if |parts| == 2 then
      match (Text.ParseNat(parts[0]), Text.ParseNat(parts[1]))
      case (Some(m), Some(s)) => Some(m * 60 + s)
      case _ => None
    else None
  }

  lemma DigitsHaveNoColon(s: string)
    requires Text.AllDigits(s)
    ensures ':' !in s
  {
    assert forall i :: 0 <= i < |s| ==> s[i] != ':';
  }

  /** Hours, minutes and seconds add back up to the total. */
  lemma DurationArithmetic(seconds: nat)
    ensures (seconds / 3600) * 3600 + ((seconds % 3600) / 60) * 60 + seconds % 60 == seconds
    ensures (seconds % 3600) / 60 < 60 && seconds % 60 < 60
    ensures seconds / 3600 > 0 <==> seconds >= 3600
  {
    var r := seconds % 3600;
    assert seconds == (seconds / 3600) * 3600 + r;
    assert r == (r / 60) * 60 + r % 60;
    assert r % 60 == seconds % 60 by {
      assert seconds == ((seconds / 3600) * 60) * 60 + r;
    }
  }

  /** Three colon-free fields joined by colons split back into those fields. */
  lemma HoursFields(hh: string, mm: string, ss: string)
    requires ':' !in hh && ':' !in mm && ':' !in ss
    ensures Text.Split(hh + ":" + mm + ":" + ss, ':') == [hh, mm, ss]
  {
    var tail := mm + ":" + ss;
    ColonsRegroup(hh, mm, ss);
    MinutesFields(mm, ss);
    Text.SplitAt(hh, ':', tail);
  }

  /** The text of three fields is the first field, a colon and the text of the other two. */
  lemma ColonsRegroup(hh: string, mm: string, ss: string)
    ensures hh + ":" + mm + ":" + ss == hh + [':'] + (mm + ":" + ss)
  {
  }

  /** Two colon-free fields joined by a colon split back into those fields. */
  lemma MinutesFields(mm: string, ss: string)
    requires ':' !in mm && ':' !in ss
    ensures Text.Split(mm + ":" + ss, ':') == [mm, ss]
  {
    Text.SplitNone(ss, ':');
    Text.SplitAt(mm, ':', ss);
    assert mm + ":" + ss == mm + [':'] + ss;
  }

  /** The fields of the duration text: three when `seconds` reaches an hour, else two;
      every field after the first has two digits; and they add back up to `seconds`. */
  lemma FormatDurationFields(seconds: nat)
    ensures var parts := Text.Split(FormatDuration(seconds), ':');
      |parts| == (if seconds >= 3600 then 3 else 2)
      && (forall i :: 1 <= i < |parts| ==> |parts[i]| == 2)
      && ParseDuration(FormatDuration(seconds)) == Some(seconds)
  {
    DurationArithmetic(seconds);
    var hours, minutes, secs := seconds / 3600, (seconds % 3600) / 60, seconds % 60;
    var parts := Text.Split(FormatDuration(seconds), ':');
    if seconds >= 3600 {
      HoursDuration(seconds, hours, minutes, secs);
      assert |parts| == 3 && |parts[1]| == 2 && |parts[2]| == 2;
    } else {
      MinutesDuration(seconds, minutes, secs);
      assert |parts| == 2 && |parts[1]| == 2;
    }
    forall i | 1 <= i < |parts|
      ensures |parts[i]| == 2
    {
      assert i == 1 || i == 2;
    }
  }

  /** The duration text from one hour on. */
  lemma HoursDuration(seconds: nat, hours: nat, minutes: nat, secs: nat)
    requires hours == seconds / 3600 && minutes == (seconds % 3600) / 60 && secs == seconds % 60
    requires hours > 0 && minutes < 60 && secs < 60 && hours * 3600 + minutes * 60 + secs == seconds
    ensures var parts := Text.Split(FormatDuration(seconds), ':');
      |parts| == 3 && |parts[1]| == 2 && |parts[2]| == 2
      && ParseDuration(FormatDuration(seconds)) == Some(seconds)
  {
    var hh := Text.NatToString(hours);
    var mm := Text.PadStart2(Text.NatToString(minutes));
    var ss := Text.PadStart2(Text.NatToString(secs));
    Text.Pad2RoundTrip(minutes);
    Text.Pad2RoundTrip(secs);
    Text.NatToStringRoundTrip(hours);
    var f := FormatDuration(seconds);
    assert f == hh + ":" + mm + ":" + ss;
    HoursText(hours, minutes, secs, hh, mm, ss);
    assert Text.Split(f, ':') == [hh, mm, ss];
    assert ParseDuration(f) == Some(hours * 3600 + minutes * 60 + secs);
  }

  /** The duration text below one hour. */
  lemma MinutesDuration(seconds: nat, minutes: nat, secs: nat)
    requires seconds < 3600 && minutes == (seconds % 3600) / 60 && secs == seconds % 60
    requires minutes < 60 && secs < 60 && minutes * 60 + secs == seconds
    ensures var parts := Text.Split(FormatDuration(seconds), ':');
      |parts| == 2 && |parts[1]| == 2
      && ParseDuration(FormatDuration(seconds)) == Some(seconds)
  {
    var mm := Text.NatToString(minutes);
    var ss := Text.PadStart2(Text.NatToString(secs));
    Text.Pad2RoundTrip(secs);
    Text.NatToStringRoundTrip(minutes);
    assert FormatDuration(seconds) == mm + ":" + ss;
    MinutesText(minutes, secs, mm, ss);
  }

  /** Three digit fields read back as hours, minutes and seconds. */
  lemma HoursText(h: nat, m: nat, sec: nat, hh: string, mm: string, ss: string)
    requires Text.ParseNat(hh) == Some(h) && Text.ParseNat(mm) == Some(m) && Text.ParseNat(ss) == Some(sec)
    ensures Text.Split(hh + ":" + mm + ":" + ss, ':') == [hh, mm, ss]
    ensures ParseDuration(hh + ":" + mm + ":" + ss) == Some(h * 3600 + m * 60 + sec)
  {
    DigitsHaveNoColon(hh);
    DigitsHaveNoColon(mm);
    DigitsHaveNoColon(ss);
    HoursFields(hh, mm, ss);
  }

  /** Two digit fields read back as minutes and seconds. */
  lemma MinutesText(m: nat, sec: nat, mm: string, ss: string)
    requires Text.ParseNat(mm) == Some(m) && Text.ParseNat(ss) == Some(sec)
    ensures Text.Split(mm + ":" + ss, ':') == [mm, ss]
    ensures ParseDuration(mm + ":" + ss) == Some(m * 60 + sec)
  {
    DigitsHaveNoColon(mm);
    DigitsHaveNoColon(ss);
    MinutesFields(mm, ss);
  }
}
