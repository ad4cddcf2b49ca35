/** The decisions of the download-stream list component: the type label and the
    colour tier of a stream, and which streams the list shows, in which section,
    and which of them it marks as recommended. */
module StreamList {
  import opened Wrappers
  import Seqs
  import opened StreamUtils

  // ---------------------------------------------------------------- one stream

  const VideoAndAudio := "Video + Audio"
  const VideoOnly := "Video Only"
  const AudioOnly := "Audio Only"

  /** `getStreamType`: a stream with neither flag is labelled as audio. */
  function StreamType(s: Stream): (r: string)
    ensures r == VideoAndAudio <==> s.hasVideo && s.hasAudio
    ensures r == VideoOnly <==> s.hasVideo && !s.hasAudio
    ensures r == AudioOnly <==> !s.hasVideo
  {
    if s.hasVideo && s.hasAudio then VideoAndAudio
    else if s.hasVideo then VideoOnly
    else AudioOnly
  }

  /** The label agrees with the sections of the grouped view, except for a stream
      with neither flag: it is labelled 'Audio Only' but belongs to no section. */
  lemma StreamTypeSections(s: Stream)
    ensures StreamType(s) != AudioOnly <==> IsVideo(s)
    ensures StreamType(s) == AudioOnly && s.hasAudio <==> IsAudioOnly(s)
    ensures !s.hasVideo && !s.hasAudio ==> StreamType(s) == AudioOnly && !IsVideo(s) && !IsAudioOnly(s)
  {
  }

  /** The colour classes of `getQualityColor`. */
  datatype Tier = Green | Blue | Yellow | Gray

  function TierClass(t: Tier): string {
    match t
    case Green => "text-green-600 dark:text-green-400"
    case Blue => "text-blue-600 dark:text-blue-400"
    case Yellow => "text-yellow-600 dark:text-yellow-400"
    case Gray => "text-gray-600 dark:text-gray-400"
  }

  /** `getQualityColor`, by the library's priority of the quality label. */
  function QualityTier(quality: string): Tier {
    var p := QualityPriority(quality);
    if p <= 2 then Green else if p <= 4 then Blue else if p <= 6 then Yellow else Gray
  }

  /** `getQualityColor` on the priority as it is read: an inherited function is
      not a number, so every `<=` test on it is false and the tier is gray. */
  function TierOfRead(p: Option<nat>): Tier {
    match p
    case None => Gray
    case Some(n) => if n <= 2 then Green else if n <= 4 then Blue else if n <= 6 then Yellow else Gray
  }

  /** The colour does not depend on how a label the table lacks is read: reading an
      inherited member gives gray, as 999 does. */
  lemma TierAsRead(quality: string)
    ensures TierOfRead(PriorityRead(PriorityTable, quality)) == QualityTier(quality)
  {
    PriorityReadAgrees(quality);
    PriorityIndex(quality);
  }

  /** The colour tiers by label: green for the first four labels of the table
      (2160p, 4K, 1440p, 2K), blue for the next four (1080p, Full HD, 720p, HD),
      yellow for 480p and 360p, and gray for every other label, listed or not. */
  lemma QualityTierLabels(quality: string)
    ensures QualityTier(quality) == Green <==> exists i :: 0 <= i < 4 && PriorityTable[i].0 == quality
    ensures QualityTier(quality) == Blue <==> exists i :: 4 <= i < 8 && PriorityTable[i].0 == quality
    ensures QualityTier(quality) == Yellow <==> exists i :: 8 <= i < 10 && PriorityTable[i].0 == quality
    ensures QualityTier(quality) == Gray <==> forall i :: 0 <= i < 10 ==> PriorityTable[i].0 != quality
  {
    PriorityIndex(quality);
    TierBounds();
  }

  /** The table's priorities by position: 1-2, 3-4, 5-6 in the first ten entries, and
      more than 6 after them. */
  lemma TierBounds()
    ensures forall i :: 0 <= i < 4 ==> PriorityTable[i].1 <= 2
    ensures forall i :: 4 <= i < 8 ==> 3 <= PriorityTable[i].1 <= 4
    ensures forall i :: 8 <= i < 10 ==> 5 <= PriorityTable[i].1 <= 6
    ensures forall i :: 10 <= i < |PriorityTable| ==> PriorityTable[i].1 > 6
  {
  }

  /** A label's priority is the one listed beside any of its entries, and 999 exactly
      when it has none. */
  lemma PriorityIndex(quality: string)
    ensures forall i :: 0 <= i < |PriorityTable| && PriorityTable[i].0 == quality ==> QualityPriority(quality) == PriorityTable[i].1
    ensures QualityPriority(quality) == 999 <==> forall i :: 0 <= i < |PriorityTable| ==> PriorityTable[i].0 != quality
    ensures QualityPriority(quality) != 999 ==> exists i :: 0 <= i < |PriorityTable| && PriorityTable[i].0 == quality
  {
    forall i | 0 <= i < |PriorityTable| && PriorityTable[i].0 == quality ensures QualityPriority(quality) == PriorityTable[i].1 {
      TablePriority(i);
    }
    QualityPriorityRange(quality);
  }

  // ---------------------------------------------------------------- the lists

  /** A stream of the input together with its position there: two positions are
      two objects, so `===` compares positions, not field values. */
  type Tagged = (nat, Stream)

  function Tag(streams: seq<Stream>): (r: seq<Tagged>)
    ensures |r| == |streams| && forall i :: 0 <= i < |r| ==> r[i] == (i, streams[i])
  {
    seq(|streams|, i requires 0 <= i < |streams| => (i, streams[i]))
  }

  function StreamOf(t: Tagged): Stream { t.1 }
  function TaggedKey(t: Tagged): int { SortKey(t.1) }
  predicate TaggedVideo(t: Tagged) { IsVideo(t.1) }
  predicate TaggedAudio(t: Tagged) { IsAudioOnly(t.1) }

  /** `getBestStream` on the input objects: the position of the stream it returns. */
  function BestTag(tagged: seq<Tagged>, p: Tagged -> bool): Option<nat> {
    var sorted := Seqs.SortBy(Seqs.Filter(tagged, p), TaggedKey);
    if |sorted| > 0 then Some(sorted[0].0) else None
  }

  /** One rendered `DownloadStreamItem`: its stream and its `isRecommended` flag. */
  datatype Item = Item(stream: Stream, recommended: bool)

  /** What `DownloadStreamsList` renders. */
  datatype View =
    | NoStreams
    | Flat(items: seq<Item>)
    | Grouped(video: seq<Item>, audio: seq<Item>)

  /** The items for the streams `ts`, recommended when their object is `best` or
      `other`. */
  function Items(ts: seq<Tagged>, best: Option<nat>, other: Option<nat>): (r: seq<Item>)
    ensures |r| == |ts|
  {
    seq(|ts|, i requires 0 <= i < |ts| => Item(ts[i].1, Some(ts[i].0) == best || Some(ts[i].0) == other))
  }

  function ItemStreams(items: seq<Item>): seq<Stream> {
    seq(|items|, i requires 0 <= i < |items| => items[i].stream)
  }

  /** `DownloadStreamsList`, with `showRecommendations` and `groupByType` on by
      default. */
  function StreamsList(streams: seq<Stream>, showRecommendations: bool := true, groupByType: bool := true): (v: View)
    ensures v.NoStreams? <==> streams == []
    ensures v.Flat? <==> streams != [] && !groupByType
  {
    if streams == [] then NoStreams
    else
      var tagged := Tag(streams);
      var sorted := Seqs.SortBy(tagged, TaggedKey);
      var bestVideo := if showRecommendations then BestTag(tagged, TaggedVideo) else None;
      var bestAudio := if showRecommendations then BestTag(tagged, TaggedAudio) else None;
      if !groupByType then Flat(Items(sorted, bestVideo, bestAudio))
      else Grouped(Items(Seqs.Filter(sorted, TaggedVideo), bestVideo, None),
                   Items(Seqs.Filter(sorted, TaggedAudio), bestAudio, None))
  }

  // ---------------------------------------------------------------- facts

  lemma UntagTag(streams: seq<Stream>)
    ensures Seqs.Map(Tag(streams), StreamOf) == streams
  {
  }

  lemma ItemsStreams(ts: seq<Tagged>, best: Option<nat>, other: Option<nat>)
    ensures ItemStreams(Items(ts, best, other)) == Seqs.Map(ts, StreamOf)
  {
  }

  /** The streams of the sorted tagged list, in order, are the sorted streams. */
  lemma SortedStreams(streams: seq<Stream>)
    ensures Seqs.Map(Seqs.SortBy(Tag(streams), TaggedKey), StreamOf) == SortStreams(streams)
  {
    Seqs.SortMap(Tag(streams), StreamOf, TaggedKey, SortKey);
    UntagTag(streams);
  }

  /** The streams of a filtered section are the library's filter of the sorted
      streams, which is the sorted filter. */
  lemma SectionStreams(streams: seq<Stream>, p: Tagged -> bool, q: Stream -> bool)
    requires forall t :: p(t) == q(t.1)
    ensures Seqs.Map(Seqs.Filter(Seqs.SortBy(Tag(streams), TaggedKey), p), StreamOf)
         == Seqs.SortBy(Seqs.Filter(streams, q), SortKey)
  {
    var sorted := Seqs.SortBy(Tag(streams), TaggedKey);
    SortedStreams(streams);
    Seqs.FilterMap(sorted, StreamOf, p, q);
    Seqs.FilterSortCommute(streams, SortKey, q);
  }

  /** Every tagged slot that survives sorting and filtering still pairs a position
      with the stream at that position, and no slot appears twice. */
  lemma SectionTags(streams: seq<Stream>, p: Tagged -> bool)
    ensures var sec := Seqs.Filter(Seqs.SortBy(Tag(streams), TaggedKey), p);
      Seqs.Distinct(sec) && forall k :: 0 <= k < |sec| ==> sec[k].0 < |streams| && sec[k].1 == streams[sec[k].0]
  {
    var tagged := Tag(streams);
    var sorted := Seqs.SortBy(tagged, TaggedKey);
    var sec := Seqs.Filter(sorted, p);
    assert Seqs.Distinct(tagged);
    Seqs.PermutationDistinct(tagged, sorted);
    Seqs.FilterDistinct(sorted, p);
    forall k | 0 <= k < |sec| ensures sec[k].0 < |streams| && sec[k].1 == streams[sec[k].0] {
      Seqs.FilterMembers(sorted, p, sec[k]);
      assert sec[k] in multiset(sorted);
      assert sec[k] in multiset(tagged);
      var i :| 0 <= i < |tagged| && tagged[i] == sec[k];
    }
  }

  /** In a section, the object `getBestStream` returns is the section's first item. */
  lemma BestIsFirst(streams: seq<Stream>, p: Tagged -> bool)
    ensures var sec := Seqs.Filter(Seqs.SortBy(Tag(streams), TaggedKey), p);
      BestTag(Tag(streams), p) == if sec == [] then None else Some(sec[0].0)
  {
    Seqs.FilterSortCommute(Tag(streams), TaggedKey, p);
  }

  /** In a section without repeated slots, only the first item has the first item's
      position. */
  lemma OnlyFirstHasTag(sec: seq<Tagged>, streams: seq<Stream>)
    requires Seqs.Distinct(sec)
    requires forall k :: 0 <= k < |sec| ==> sec[k].0 < |streams| && sec[k].1 == streams[sec[k].0]
    ensures forall k :: 0 < k < |sec| ==> sec[k].0 != sec[0].0
  {
    forall k | 0 < k < |sec| ensures sec[k].0 != sec[0].0 {
      assert sec[k] != sec[0];
    }
  }

  /** One section of the grouped view, for the filter `p` that reads the stream
      with `q`: its streams are the sorted filtered streams, and with
      recommendations on exactly its first item is recommended. */
  lemma SectionItems(streams: seq<Stream>, p: Tagged -> bool, q: Stream -> bool, show: bool)
    requires forall t :: p(t) == q(t.1)
    ensures var sec := Seqs.Filter(Seqs.SortBy(Tag(streams), TaggedKey), p);
      var items := Items(sec, if show then BestTag(Tag(streams), p) else None, None);
      && ItemStreams(items) == Seqs.SortBy(Seqs.Filter(streams, q), SortKey)
      && forall k :: 0 <= k < |items| ==> (items[k].recommended <==> show && k == 0)
  {
    var sec := Seqs.Filter(Seqs.SortBy(Tag(streams), TaggedKey), p);
    SectionStreams(streams, p, q);
    ItemsStreams(sec, if show then BestTag(Tag(streams), p) else None, None);
    SectionTags(streams, p);
    BestIsFirst(streams, p);
    OnlyFirstHasTag(sec, streams);
  }

  /** The library's best stream of a kind is the head of the sorted filter. */
  lemma BestIsHead(streams: seq<Stream>, kind: Kind)
    ensures var f := SortStreams(FilterStreamsByType(streams, kind));
      GetBestStream(streams, kind) == if f == [] then None else Some(f[0])
  {
  }

  /** The video section of the grouped view is the sorted video streams (the
      library's sort of the library's filter); with recommendations on, exactly its
      first item is recommended, and its stream is the library's best video stream;
      with them off, nothing is. */
  lemma GroupedVideo(streams: seq<Stream>, showRecommendations: bool)
    requires streams != []
    ensures StreamsList(streams, showRecommendations, true).Grouped?
    ensures var video := StreamsList(streams, showRecommendations, true).video;
      && ItemStreams(video) == SortStreams(FilterStreamsByType(streams, Video))
      && (forall k :: 0 <= k < |video| ==> (video[k].recommended <==> showRecommendations && k == 0))
    ensures var video := StreamsList(streams, showRecommendations, true).video;
      video != [] ==> Some(video[0].stream) == GetBestStream(streams, Video)
  {
    var sorted := Seqs.SortBy(Tag(streams), TaggedKey);
    var video := Items(Seqs.Filter(sorted, TaggedVideo), if showRecommendations then BestTag(Tag(streams), TaggedVideo) else None, None);
    assert StreamsList(streams, showRecommendations, true).video == video;
    SectionItems(streams, TaggedVideo, IsVideo, showRecommendations);
    BestIsHead(streams, Video);
    if video != [] {
      assert |ItemStreams(video)| == |video|;
      assert ItemStreams(video)[0] == video[0].stream;
    }
  }

  /** The audio section of the grouped view is the sorted audio-only streams; with
      recommendations on, exactly its first item is recommended, and its stream is
      the library's best audio stream; with them off, nothing is. */
  lemma GroupedAudio(streams: seq<Stream>, showRecommendations: bool)
    requires streams != []
    ensures StreamsList(streams, showRecommendations, true).Grouped?
    ensures var audio := StreamsList(streams, showRecommendations, true).audio;
      && ItemStreams(audio) == SortStreams(FilterStreamsByType(streams, Audio))
      && (forall k :: 0 <= k < |audio| ==> (audio[k].recommended <==> showRecommendations && k == 0))
    ensures var audio := StreamsList(streams, showRecommendations, true).audio;
      audio != [] ==> Some(audio[0].stream) == GetBestStream(streams, Audio)
  {
    var sorted := Seqs.SortBy(Tag(streams), TaggedKey);
    var audio := Items(Seqs.Filter(sorted, TaggedAudio), if showRecommendations then BestTag(Tag(streams), TaggedAudio) else None, None);
    assert StreamsList(streams, showRecommendations, true).audio == audio;
    SectionItems(streams, TaggedAudio, IsAudioOnly, showRecommendations);
    BestIsHead(streams, Audio);
    if audio != [] {
      assert |ItemStreams(audio)| == |audio|;
      assert ItemStreams(audio)[0] == audio[0].stream;
    }
  }

  /** A slot of the sorted list pairs a position with the stream there. */
  lemma SlotConsistent(streams: seq<Stream>, t: Tagged)
    requires t in multiset(Seqs.SortBy(Tag(streams), TaggedKey))
    ensures t.0 < |streams| && t.1 == streams[t.0]
  {
    var tagged := Tag(streams);
    assert t in multiset(tagged);
    var i :| 0 <= i < |tagged| && tagged[i] == t;
  }

  /** The slot of the sorted list that holds the object `getBestStream` returned
      holds the first stream of the section. */
  lemma SlotOfBestTag(streams: seq<Stream>, p: Tagged -> bool, k: nat)
    requires k < |streams|
    requires BestTag(Tag(streams), p) == Some(Seqs.SortBy(Tag(streams), TaggedKey)[k].0)
    ensures var sec := Seqs.Filter(Seqs.SortBy(Tag(streams), TaggedKey), p);
      sec != [] && Seqs.SortBy(Tag(streams), TaggedKey)[k].1 == sec[0].1
  {
    var sorted := Seqs.SortBy(Tag(streams), TaggedKey);
    var sec := Seqs.Filter(sorted, p);
    BestIsFirst(streams, p);
    assert sec != [] && sec[0].0 == sorted[k].0;
    Seqs.FilterMembers(sorted, p, sec[0]);
    SlotConsistent(streams, sec[0]);
    SlotConsistent(streams, sorted[k]);
  }

  /** A recommended item of the ungrouped view holds the library's best video or
      best audio stream. */
  lemma FlatRecommended(streams: seq<Stream>, k: nat, bv: Option<nat>, ba: Option<nat>)
    requires k < |streams|
    requires bv == BestTag(Tag(streams), TaggedVideo) || bv == None
    requires ba == BestTag(Tag(streams), TaggedAudio) || ba == None
    ensures var item := Items(Seqs.SortBy(Tag(streams), TaggedKey), bv, ba)[k];
      item.recommended ==>
        Some(item.stream) == GetBestStream(streams, Video) || Some(item.stream) == GetBestStream(streams, Audio)
  {
    var sorted := Seqs.SortBy(Tag(streams), TaggedKey);
    if bv == Some(sorted[k].0) {
      SlotOfBestTag(streams, TaggedVideo, k);
      GroupedVideo(streams, true);
      assert StreamsList(streams, true, true).video[0].stream == Seqs.Filter(sorted, TaggedVideo)[0].1;
    }
    if ba == Some(sorted[k].0) {
      SlotOfBestTag(streams, TaggedAudio, k);
      GroupedAudio(streams, true);
      assert StreamsList(streams, true, true).audio[0].stream == Seqs.Filter(sorted, TaggedAudio)[0].1;
    }
  }

  /** The ungrouped view lists every stream once, in the library's sorted order; an
      item is recommended only with recommendations on, and then its stream is the
      library's best video or best audio stream. With recommendations on, an item is
      recommended exactly when its object is the one `getBestStream` returned for
      video or for audio. */
  lemma FlatView(streams: seq<Stream>, showRecommendations: bool)
    requires streams != []
    ensures var v := StreamsList(streams, showRecommendations, false);
      && v.Flat?
      && ItemStreams(v.items) == SortStreams(streams)
      && forall k :: 0 <= k < |v.items| && v.items[k].recommended ==>
           showRecommendations
           && (Some(v.items[k].stream) == GetBestStream(streams, Video) || Some(v.items[k].stream) == GetBestStream(streams, Audio))
    ensures var v := StreamsList(streams, showRecommendations, false);
      var sorted := Seqs.SortBy(Tag(streams), TaggedKey);
      forall k :: 0 <= k < |v.items| ==>
        (v.items[k].recommended <==>
           showRecommendations
           && (Some(sorted[k].0) == BestTag(Tag(streams), TaggedVideo) || Some(sorted[k].0) == BestTag(Tag(streams), TaggedAudio)))
  {
    var tagged := Tag(streams);
    var sorted := Seqs.SortBy(tagged, TaggedKey);
    var bv := if showRecommendations then BestTag(tagged, TaggedVideo) else None;
    var ba := if showRecommendations then BestTag(tagged, TaggedAudio) else None;
    var items := Items(sorted, bv, ba);
    assert StreamsList(streams, showRecommendations, false) == Flat(items);
    SortedStreams(streams);
    ItemsStreams(sorted, bv, ba);
    forall k | 0 <= k < |items|
      ensures items[k].recommended ==> showRecommendations
      ensures items[k].recommended ==>
        Some(items[k].stream) == GetBestStream(streams, Video) || Some(items[k].stream) == GetBestStream(streams, Audio)
    {
      FlatRecommended(streams, k, bv, ba);
    }
  }
}
