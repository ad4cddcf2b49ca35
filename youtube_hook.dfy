/** The `YouTubeUtils` helper object exported next to the React hook: a second,
    client-side copy of the video-id, thumbnail and stream helpers with its own,
    shorter quality table. Its duration text and stream filter are the library's
    (`YoutubeUtils.FormatDuration`, `StreamUtils.FilterStreamsByType`). */
module YoutubeHook {
  import opened Wrappers
  import Text
  import Scan
  import Patterns
  import Seqs
  import YoutubeUtils
  import StreamUtils
  import Js

  // ---------------------------------------------------------------- video ids

  /** `extractVideoId`: the captured id of the prefixed pattern when it matches,
      else the input itself when it is a bare 11-character id, else `null`. */
  function VideoIdOf(url: string): Option<string> {
    var captured := match Scan.Exec(YoutubeUtils.PrefixedVideoId, url)
      case Some(m) => m.group
      case None => None;
    if captured.Some? && captured.value != "" then captured
    else if Scan.Exec(YoutubeUtils.BareVideoId, url).Some? then Some(url)
    else None
  }

  /** The client's extractor and the library's agree on every input. */
  lemma VideoIdOfAgrees(url: string)
    ensures VideoIdOf(url) == YoutubeUtils.VideoIdOf(url)
  {
    var pats := [YoutubeUtils.PrefixedVideoId, YoutubeUtils.BareVideoId];
    var first := Patterns.FirstMatch(pats, url);
    assert pats[0] == YoutubeUtils.PrefixedVideoId && pats[1] == YoutubeUtils.BareVideoId;
    if Scan.Exec(YoutubeUtils.PrefixedVideoId, url).Some? {
      Scan.SearchFound(YoutubeUtils.VideoPrefixes, Scan.IdChars, Scan.Exactly(11), url);
      assert first.Some? && first.value.0 == 0;
    } else if Scan.Exec(YoutubeUtils.BareVideoId, url).Some? {
      assert first.Some? && first.value.0 == 1;
    } else {
      assert first.None?;
    }
  }

  /** `isValidYouTubeUrl` of the client: an id can be extracted, which happens exactly
      when an id follows a recognised prefix or the input is itself an id. */
  predicate IsValidYouTubeUrl(url: string) {
    VideoIdOf(url).Some?
  }

  lemma IsValidYouTubeUrlSpec(url: string)
    ensures IsValidYouTubeUrl(url) <==> (exists id :: YoutubeUtils.HasPrefixedId(url, id)) || YoutubeUtils.IsBareId(url)
  {
    VideoIdOfAgrees(url);
    YoutubeUtils.VideoIdShape(url);
  }

  // ---------------------------------------------------------------- thumbnails

  datatype ThumbnailQuality = Default | Medium | High | Standard | Maxres

  /** The image file of each thumbnail quality. */
  function ThumbnailFile(q: ThumbnailQuality): string {
    match q
    case Default => "default"
    case Medium => "mqdefault"
    case High => "hqdefault"
    case Standard => "sddefault"
    case Maxres => "maxresdefault"
  }

  const ThumbnailBase := "https://img.youtube.com/vi/"

  /** `getThumbnailUrl`, whose quality defaults to 'high'. */
  function ThumbnailUrl(videoId: string, q: ThumbnailQuality := High): (r: string)
    ensures Text.StartsWith(r, ThumbnailBase + videoId + "/")
    ensures Text.EndsWith(r, ThumbnailFile(q) + ".jpg")
  {
    var r := ThumbnailBase + videoId + "/" + ThumbnailFile(q) + ".jpg";
    assert r == (ThumbnailBase + videoId + "/") + (ThumbnailFile(q) + ".jpg");
    r
  }

  lemma ThumbnailFileInjective(q1: ThumbnailQuality, q2: ThumbnailQuality)
    requires ThumbnailFile(q1) == ThumbnailFile(q2)
    ensures q1 == q2
  {
    var f1, f2 := ThumbnailFile(q1), ThumbnailFile(q2);
    assert |f1| == |f2| && f1[0] == f2[0];
  }

  /** The part between the fixed base and the fixed `.jpg` ending. */
  lemma ThumbnailMiddle(id: string, q: ThumbnailQuality)
    ensures ThumbnailUrl(id, q) == ThumbnailBase + (id + ['/'] + ThumbnailFile(q)) + ".jpg"
  {
  }

  /** Different videos or qualities never share a thumbnail address. */
  lemma ThumbnailUrlInjective(id1: string, q1: ThumbnailQuality, id2: string, q2: ThumbnailQuality)
    requires ThumbnailUrl(id1, q1) == ThumbnailUrl(id2, q2)
    ensures id1 == id2 && q1 == q2
  {
    var f1, f2 := ThumbnailFile(q1), ThumbnailFile(q2);
    assert '/' !in f1 && '/' !in f2;
    var t1 := id1 + ['/'] + f1;
    var t2 := id2 + ['/'] + f2;
    ThumbnailMiddle(id1, q1);
    ThumbnailMiddle(id2, q2);
    Text.ConcatCancel(ThumbnailBase, t1, t2, ".jpg");
    Text.LastIndexAfter(id1, '/', f1);
    Text.LastIndexAfter(id2, '/', f2);
    assert id1 == t1[..|id1|] && f1 == t1[|id1| + 1..];
    assert id2 == t2[..|id2|] && f2 == t2[|id2| + 1..];
    ThumbnailFileInjective(q1, q2);
  }

  // ---------------------------------------------------------------- streams

  /** The client's table knows only the resolution labels. */
  const PriorityTable: seq<(string, nat)> := [
    ("2160p", 1), ("1440p", 2), ("1080p", 3), ("720p", 4),
    ("480p", 5), ("360p", 6), ("240p", 7), ("144p", 8)]

  /** `getQualityPriority`: `table[q] || 999`, read as a table of numbers
      (`PriorityReadAgrees` gives the reading of the object literal). */
  function QualityPriority(quality: string): nat {
    StreamUtils.Lookup(PriorityTable, quality).GetOr(999)
  }

  /** The eight resolution labels get 1 to 8, everything else -- the library's
      aliases such as '4K' and every audio label included -- gets 999. */
  lemma QualityPriorityRange(quality: string)
    ensures QualityPriority(quality) == 999 || 1 <= QualityPriority(quality) <= 8
    ensures QualityPriority(quality) == 999 <==> forall i :: 0 <= i < |PriorityTable| ==> PriorityTable[i].0 != quality
  {
    TableBounds();
    StreamUtils.LookupBounds(PriorityTable, quality, 1, 8);
  }

  lemma TableBounds()
    ensures forall i :: 0 <= i < |PriorityTable| ==> 1 <= PriorityTable[i].1 <= 8
  {
  }

  /** As written, the client's `getQualityPriority` answers a non-number exactly for
      the `Object.prototype` names, and the table reading for every other label. */
  lemma PriorityReadAgrees(quality: string)
    ensures StreamUtils.PriorityRead(PriorityTable, quality) == if quality in Js.ObjectPrototypeNames then None else Some(QualityPriority(quality))
  {
    TableBounds();
    if quality in Js.ObjectPrototypeNames {
      Js.PrototypeNameShape(quality);
      assert forall i :: 0 <= i < |PriorityTable| ==> |PriorityTable[i].0| < 7;
    }
  }

  /** The client's comparator as written is NaN exactly when the streams are of the
      same kind and one label is an `Object.prototype` name; otherwise it orders the
      streams as `SortKey` does. */
  lemma CompareReadAgrees(a: StreamUtils.Stream, b: StreamUtils.Stream)
    ensures StreamUtils.CompareRead(PriorityTable, a, b).None? <==>
      a.hasVideo == b.hasVideo && (a.quality in Js.ObjectPrototypeNames || b.quality in Js.ObjectPrototypeNames)
    ensures StreamUtils.CompareRead(PriorityTable, a, b).Some? ==>
      (StreamUtils.CompareRead(PriorityTable, a, b).value < 0 <==> SortKey(a) < SortKey(b)) &&
      (StreamUtils.CompareRead(PriorityTable, a, b).value == 0 <==> SortKey(a) == SortKey(b))
  {
    PriorityReadAgrees(a.quality);
    PriorityReadAgrees(b.quality);
    QualityPriorityRange(a.quality);
    QualityPriorityRange(b.quality);
  }

  /** The client's comparator is inconsistent in the same way as the library's: a
      "constructor" video stream compares equal, for the sort, to a 720p and to a
      1080p video stream, which do not compare equal to each other. */
  lemma InheritedLabelInconsistent(c: StreamUtils.Stream, hd: StreamUtils.Stream, fhd: StreamUtils.Stream)
    requires c.hasVideo && hd.hasVideo && fhd.hasVideo
    requires c.quality == "constructor" && hd.quality == "720p" && fhd.quality == "1080p"
    ensures StreamUtils.SortValue(StreamUtils.CompareRead(PriorityTable, c, hd)) == 0
    ensures StreamUtils.SortValue(StreamUtils.CompareRead(PriorityTable, c, fhd)) == 0
    ensures StreamUtils.SortValue(StreamUtils.CompareRead(PriorityTable, hd, fhd)) == 1
  {
    PriorityReadAgrees(c.quality);
    assert c.quality in Js.ObjectPrototypeNames;
    StreamUtils.Short(hd.quality);
    StreamUtils.Short(fhd.quality);
    PriorityReadAgrees(hd.quality);
    PriorityReadAgrees(fhd.quality);
    ResolutionPriorities();
  }

  lemma ResolutionPriorities()
    ensures QualityPriority("720p") == 4 && QualityPriority("1080p") == 3
  {
    assert PriorityTable[3] == ("720p", 4) && PriorityTable[2] == ("1080p", 3);
    QualityPriorityAgrees("720p");
    QualityPriorityAgrees("1080p");
    StreamUtils.ResolutionPriorities();
  }

  /** On the labels the client lists, both tables agree. */
  lemma QualityPriorityAgrees(quality: string)
    requires exists i :: 0 <= i < |PriorityTable| && PriorityTable[i].0 == quality
    ensures QualityPriority(quality) == StreamUtils.QualityPriority(quality)
  {
    var i :| 0 <= i < |PriorityTable| && PriorityTable[i].0 == quality;
    forall j | 0 <= j < i ensures PriorityTable[j].0 != quality {
      assert |PriorityTable[j].0| != |quality| || PriorityTable[j].0[0] != quality[0] || PriorityTable[j].0[1] != quality[1];
    }
    StreamUtils.LookupAt(PriorityTable, quality, i);
    LibraryEntry(i);
  }

  /** Where each of the client's labels first occurs in the library's table. */
  lemma LibraryEntry(i: nat)
    requires i < |PriorityTable|
    ensures StreamUtils.Lookup(StreamUtils.PriorityTable, PriorityTable[i].0) == Some(PriorityTable[i].1)
  {
    var at := [0, 2, 4, 6, 8, 9, 10, 11][i];
    assert StreamUtils.PriorityTable[at] == PriorityTable[i];
    StreamUtils.TablePriority(at);
  }

  /** '4K' is where the tables part: the library ranks it first, the client last. */
  lemma FourKDiffers()
    ensures QualityPriority("4K") == 999 && StreamUtils.QualityPriority("4K") == 1
  {
    QualityPriorityRange("4K");
    assert StreamUtils.PriorityTable[1].0 == "4K";
    StreamUtils.TablePriority(1);
  }

  function SortKey(s: StreamUtils.Stream): int {
    (if s.hasVideo then 0 else 1000) + QualityPriority(s.quality)
  }

  /** `sortStreams` of the client: a stable sorted copy, video first, then by the
      client's priority. */
  function SortStreams(streams: seq<StreamUtils.Stream>): seq<StreamUtils.Stream> {
    Seqs.SortBy(streams, SortKey)
  }

  /** The sorted copy holds the same streams, puts every video stream first, orders
      each group by the client's priority, and keeps equal streams in input order. */
  lemma SortStreamsSpec(streams: seq<StreamUtils.Stream>)
    ensures multiset(SortStreams(streams)) == multiset(streams)
    ensures var r := SortStreams(streams);
      forall i, j :: 0 <= i < j < |r| && r[j].hasVideo ==> r[i].hasVideo
    ensures var r := SortStreams(streams);
      forall i, j :: 0 <= i < j < |r| && r[i].hasVideo == r[j].hasVideo ==> QualityPriority(r[i].quality) <= QualityPriority(r[j].quality)
    ensures forall k :: Seqs.WithKey(SortStreams(streams), SortKey, k) == Seqs.WithKey(streams, SortKey, k)
  {
    var r := SortStreams(streams);
    forall i, j | 0 <= i < j < |r|
      ensures r[j].hasVideo ==> r[i].hasVideo
      ensures r[i].hasVideo == r[j].hasVideo ==> QualityPriority(r[i].quality) <= QualityPriority(r[j].quality)
    {
      assert SortKey(r[i]) <= SortKey(r[j]);
      QualityPriorityRange(r[i].quality);
      QualityPriorityRange(r[j].quality);
    }
    forall k ensures Seqs.WithKey(r, SortKey, k) == Seqs.WithKey(streams, SortKey, k) {
      Seqs.SortStable(streams, SortKey, k);
    }
  }

  /** Streams whose qualities are all resolution labels sort the same way in the
      client and in the library. */
  lemma SortStreamsAgrees(streams: seq<StreamUtils.Stream>)
    requires forall i :: 0 <= i < |streams| ==>
      exists t :: 0 <= t < |PriorityTable| && PriorityTable[t].0 == streams[i].quality
    ensures SortStreams(streams) == StreamUtils.SortStreams(streams)
  {
    forall y | y in multiset(streams) ensures SortKey(y) == StreamUtils.SortKey(y) {
      var i :| 0 <= i < |streams| && streams[i] == y;
      QualityPriorityAgrees(y.quality);
    }
    Seqs.SortCongruent(streams, SortKey, StreamUtils.SortKey);
  }

  /** `getBestStream` of the client, whose `type` defaults to 'video'. */
  function GetBestStream(streams: seq<StreamUtils.Stream>, kind: StreamUtils.Kind := StreamUtils.Video): Option<StreamUtils.Stream> {
    var sorted := SortStreams(StreamUtils.FilterStreamsByType(streams, kind));
    if |sorted| > 0 then Some(sorted[0]) else None
  }

  /** There is a best stream exactly when some stream is of the kind, and it is the
      first stream of that kind with the smallest client sort key. */
  lemma GetBestStreamSpec(streams: seq<StreamUtils.Stream>, kind: StreamUtils.Kind)
    ensures GetBestStream(streams, kind).None? <==> StreamUtils.FilterStreamsByType(streams, kind) == []
    ensures GetBestStream(streams, kind).Some? ==>
      var f := StreamUtils.FilterStreamsByType(streams, kind);
      GetBestStream(streams, kind).value == f[Seqs.BestIndex(f, SortKey)]
  {
    var f := StreamUtils.FilterStreamsByType(streams, kind);
    if f != [] {
      Seqs.SortHead(f, SortKey);
    }
  }
}
