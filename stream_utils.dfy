/** The stream helpers of the shared utility library (`streamUtils`): the quality
    table, the video-first sort, filtering by kind, best-stream choice and grouping
    by format. */
module StreamUtils {
  import opened Wrappers
  import Text
  import Seqs
  import Js

  /** A download stream as the lists carry it; a missing `hasVideo`/`hasAudio` flag
      reads as `false`. `size`, `fps` and `codec` are optional extras that only the
      service's normaliser sets and no list operation reads. */
  datatype Stream = Stream(quality: string, format: string, url: string, hasVideo: bool, hasAudio: bool,
                           size: Option<string>, fps: Option<int>, codec: Option<Js.Val>)

  /** The quality labels of `getQualityPriority` and their priorities. */
  const PriorityTable: seq<(string, nat)> := [
    ("2160p", 1), ("4K", 1), ("1440p", 2), ("2K", 2), ("1080p", 3), ("Full HD", 3),
    ("720p", 4), ("HD", 4), ("480p", 5), ("360p", 6), ("240p", 7), ("144p", 8),
    ("Audio", 10), ("320kbps", 11), ("256kbps", 12), ("192kbps", 13), ("128kbps", 14),
    ("96kbps", 15), ("64kbps", 16)]

  /** The priority listed for `name` in `table`. */
  function Lookup(table: seq<(string, nat)>, name: string): (r: Option<nat>)
    ensures r.Some? ==> (name, r.value) in table
    ensures r.None? ==> forall i :: 0 <= i < |table| ==> table[i].0 != name
  {
    LookupFrom(table, name, 0)
  }

  /** The priority of the first entry for `name` at or after `i`. */
  function LookupFrom(table: seq<(string, nat)>, name: string, i: nat): (r: Option<nat>)
    requires i <= |table|
    ensures r.Some? ==> exists k :: i <= k < |table| && table[k] == (name, r.value) && forall j :: i <= j < k ==> table[j].0 != name
    ensures r.None? ==> forall j :: i <= j < |table| ==> table[j].0 != name
    decreases |table| - i
  {
    if i == |table| then None
    else if table[i].0 == name then Some(table[i].1)
    else LookupFrom(table, name, i + 1)
  }

  /** The first entry for `name` is the one found. */
  lemma LookupAt(table: seq<(string, nat)>, name: string, i: nat)
    requires i < |table| && table[i].0 == name
    requires forall j :: 0 <= j < i ==> table[j].0 != name
    ensures Lookup(table, name) == Some(table[i].1)
  {
    var r := LookupFrom(table, name, 0);
    var k :| 0 <= k < |table| && table[k] == (name, r.value) && forall j :: 0 <= j < k ==> table[j].0 != name;
  }

  /** `priorities[quality] || 999` read as a table of numbers: no listed priority is 0,
      so a missing label is the only way to 999. The object literal also answers the
      `Object.prototype` names; `PriorityRead` gives that reading. */
  function QualityPriority(quality: string): nat {
    Lookup(PriorityTable, quality).GetOr(999)
  }

  /** `table[name] || 999` on an object literal: the listed priority unless it is 0,
      nothing numeric (`None`) for a name that only `Object.prototype` supplies, and
      999 otherwise. */
  function PriorityRead(table: seq<(string, nat)>, name: string): (r: Option<nat>)
    ensures r.None? <==> Lookup(table, name).None? && name in Js.ObjectPrototypeNames
  {
    match Lookup(table, name)
    case Some(p) => Some(if p != 0 then p else 999)
    case None => if name in Js.ObjectPrototypeNames then None else Some(999)
  }

  /** As written, `getQualityPriority` answers a non-number exactly for the
      `Object.prototype` names, and the table reading for every other label. */
  lemma PriorityReadAgrees(quality: string)
    ensures PriorityRead(PriorityTable, quality) == if quality in Js.ObjectPrototypeNames then None else Some(QualityPriority(quality))
  {
    TableBounds();
    if quality in Js.ObjectPrototypeNames {
      Js.PrototypeNameShape(quality);
      LabelShape();
      assert forall i :: 0 <= i < |PriorityTable| ==> PriorityTable[i].0 != quality;
    }
  }

  /** A label shorter than seven characters is not an `Object.prototype` name. */
  lemma Short(name: string)
    requires |name| < 7
    ensures name !in Js.ObjectPrototypeNames
  {
    if name in Js.ObjectPrototypeNames {
      Js.PrototypeNameShape(name);
    }
  }

  /** No label of the table is seven characters long and starts with 'v'. */
  lemma LabelShape()
    ensures forall i :: 0 <= i < |PriorityTable| ==>
      |PriorityTable[i].0| < 7 || (|PriorityTable[i].0| == 7 && PriorityTable[i].0[0] != 'v')
  {
  }

  /** Priorities run from 1 to 16 for the listed labels, and every other label gets 999. */
  lemma QualityPriorityRange(quality: string)
    ensures 1 <= QualityPriority(quality) < 1000
    ensures QualityPriority(quality) == 999 <==> forall i :: 0 <= i < |PriorityTable| ==> PriorityTable[i].0 != quality
    ensures QualityPriority(quality) != 999 ==> QualityPriority(quality) <= 16
  {
    TableBounds();
    LookupBounds(PriorityTable, quality, 1, 16);
  }

  lemma TableBounds()
    ensures forall i :: 0 <= i < |PriorityTable| ==> 1 <= PriorityTable[i].1 <= 16
  {
  }

  /** A name found in a table whose priorities lie in `lo..hi` gets one of them, and
      a name is missing exactly when no entry has it. */
  lemma LookupBounds(table: seq<(string, nat)>, name: string, lo: int, hi: int)
    requires forall i :: 0 <= i < |table| ==> lo <= table[i].1 <= hi
    ensures Lookup(table, name).Some? ==> lo <= Lookup(table, name).value <= hi
    ensures Lookup(table, name).None? <==> forall i :: 0 <= i < |table| ==> table[i].0 != name
  {
    var r := Lookup(table, name);
    if r.Some? {
      var i :| 0 <= i < |table| && table[i] == (name, r.value);
    }
  }

  /** Every label of the table gets the priority listed beside it: no label is
      listed twice. */
  lemma TablePriority(i: nat)
    requires i < |PriorityTable|
    ensures Lookup(PriorityTable, PriorityTable[i].0) == Some(PriorityTable[i].1)
    ensures QualityPriority(PriorityTable[i].0) == PriorityTable[i].1
  {
    var t := PriorityTable;
    forall j | 0 <= j < i ensures t[j].0 != t[i].0 {
      assert |t[j].0| != |t[i].0| || t[j].0[0] != t[i].0[0] || t[j].0[1] != t[i].0[1];
    }
    LookupAt(t, t[i].0, i);
  }

  /** The comparator of `sortStreams`: video first, then by priority. */
  function Compare(a: Stream, b: Stream): int {
    if a.hasVideo && !b.hasVideo then -1
    else if !a.hasVideo && b.hasVideo then 1
    else QualityPriority(a.quality) - QualityPriority(b.quality)
  }

  /** A comparator over `table` as written: the two video tests, then
      `aPriority - bPriority`, which is NaN (`None`) when either priority is not a number. */
  function CompareRead(table: seq<(string, nat)>, a: Stream, b: Stream): Option<int> {
    if a.hasVideo && !b.hasVideo then Some(-1 as int)
    else if !a.hasVideo && b.hasVideo then Some(1 as int)
    else
      match (PriorityRead(table, a.quality), PriorityRead(table, b.quality))
      case (Some(pa), Some(pb)) => Some(pa as int - pb as int)
      case _ => None
  }

  /** `Array.prototype.sort` takes a NaN comparator result for +0. */
  function SortValue(c: Option<int>): int {
    c.GetOr(0)
  }

  /** The comparator as written is NaN exactly when the streams are of the same kind
      and one label is an `Object.prototype` name, and is `Compare` otherwise. */
  lemma CompareReadAgrees(a: Stream, b: Stream)
    ensures CompareRead(PriorityTable, a, b).None? <==>
      a.hasVideo == b.hasVideo && (a.quality in Js.ObjectPrototypeNames || b.quality in Js.ObjectPrototypeNames)
    ensures CompareRead(PriorityTable, a, b).Some? ==> CompareRead(PriorityTable, a, b).value == Compare(a, b)
  {
    PriorityReadAgrees(a.quality);
    PriorityReadAgrees(b.quality);
  }

  /** Video streams labelled "constructor", "720p" and "1080p": for the sort the first
      compares equal to the other two, which do not compare equal to each other. The
      comparator is not consistent, so the order the sort produces is the engine's
      choice. */
  lemma InheritedLabelInconsistent(c: Stream, hd: Stream, fhd: Stream)
    requires c.hasVideo && hd.hasVideo && fhd.hasVideo
    requires c.quality == "constructor" && hd.quality == "720p" && fhd.quality == "1080p"
    ensures SortValue(CompareRead(PriorityTable, c, hd)) == 0 && SortValue(CompareRead(PriorityTable, c, fhd)) == 0
    ensures SortValue(CompareRead(PriorityTable, hd, fhd)) == 1
  {
    PriorityReadAgrees(c.quality);
    assert c.quality in Js.ObjectPrototypeNames;
    Short(hd.quality);
    Short(fhd.quality);
    PriorityReadAgrees(hd.quality);
    PriorityReadAgrees(fhd.quality);
    ResolutionPriorities();
  }

  lemma ResolutionPriorities()
    ensures QualityPriority("720p") == 4 && QualityPriority("1080p") == 3
  {
    assert PriorityTable[6] == ("720p", 4) && PriorityTable[4] == ("1080p", 3);
    TablePriority(6);
    TablePriority(4);
  }

  /** One number that orders streams as `Compare` does. */
  function SortKey(s: Stream): int {
    (if s.hasVideo then 0 else 1000) + QualityPriority(s.quality)
  }

  /** The comparator and the key order agree in sign, so the comparator is a
      consistent total preorder and the sort is the stable sort by `SortKey`. */
  lemma CompareMatchesKey(a: Stream, b: Stream)
    ensures Compare(a, b) < 0 <==> SortKey(a) < SortKey(b)
    ensures Compare(a, b) == 0 <==> SortKey(a) == SortKey(b)
  {
    QualityPriorityRange(a.quality);
    QualityPriorityRange(b.quality);
  }

  /** `sortStreams`: a sorted copy; `Array.prototype.sort` is stable. */
  function SortStreams(streams: seq<Stream>): seq<Stream> {
    Seqs.SortBy(streams, SortKey)
  }

  /** The sorted copy holds the same streams, every video stream comes before every
      other stream, priorities do not decrease within each group, and streams that
      compare equal keep their input order. */
  lemma SortStreamsSpec(streams: seq<Stream>)
    ensures multiset(SortStreams(streams)) == multiset(streams)
    ensures var r := SortStreams(streams);
      forall i, j :: 0 <= i < j < |r| && r[j].hasVideo ==> r[i].hasVideo
    ensures var r := SortStreams(streams);
      forall i, j :: 0 <= i < j < |r| && r[i].hasVideo == r[j].hasVideo ==> QualityPriority(r[i].quality) <= QualityPriority(r[j].quality)
    ensures forall k :: Seqs.WithKey(SortStreams(streams), SortKey, k) == Seqs.WithKey(streams, SortKey, k)
  {
    var r := SortStreams(streams);
    forall i, j | 0 <= i < j < |r|
      ensures r[j].hasVideo ==> r[i].hasVideo
      ensures r[i].hasVideo == r[j].hasVideo ==> QualityPriority(r[i].quality) <= QualityPriority(r[j].quality)
    {
      assert SortKey(r[i]) <= SortKey(r[j]);
      QualityPriorityRange(r[i].quality);
      QualityPriorityRange(r[j].quality);
    }
    forall k ensures Seqs.WithKey(r, SortKey, k) == Seqs.WithKey(streams, SortKey, k) {
      Seqs.SortStable(streams, SortKey, k);
    }
  }

  /** The `type` argument of the filters. */
  datatype Kind = Video | Audio | All

  predicate IsVideo(s: Stream) { s.hasVideo }
  predicate IsAudioOnly(s: Stream) { s.hasAudio && !s.hasVideo }

  /** What a filter of kind `kind` keeps. */
  predicate Keeps(kind: Kind, s: Stream) {
    match kind
    case Video => IsVideo(s)
    case Audio => IsAudioOnly(s)
    case All => true
  }

  /** `filterStreamsByType`, whose `type` defaults to 'all'. */
  function FilterStreamsByType(streams: seq<Stream>, kind: Kind := All): seq<Stream> {
    match kind
    case Video => Seqs.Filter(streams, IsVideo)
    case Audio => Seqs.Filter(streams, IsAudioOnly)
    case All => streams
  }

  /** A filter keeps each stream of its kind as often as it occurs, drops every other
      stream, and keeps the input order. */
  lemma FilterStreamsSpec(streams: seq<Stream>, kind: Kind, x: Stream)
    ensures multiset(FilterStreamsByType(streams, kind))[x] == if Keeps(kind, x) then multiset(streams)[x] else 0
    ensures x in FilterStreamsByType(streams, kind) <==> x in streams && Keeps(kind, x)
  {
    match kind
    case Video =>
      Seqs.FilterCount(streams, IsVideo, x);
      Seqs.FilterMembers(streams, IsVideo, x);
    case Audio =>
      Seqs.FilterCount(streams, IsAudioOnly, x);
      Seqs.FilterMembers(streams, IsAudioOnly, x);
    case All =>
  }

  /** Filtering preserves order: it distributes over concatenation. */
  lemma FilterStreamsConcat(a: seq<Stream>, b: seq<Stream>, kind: Kind)
    ensures FilterStreamsByType(a + b, kind) == FilterStreamsByType(a, kind) + FilterStreamsByType(b, kind)
  {
    match kind
    case Video => Seqs.FilterConcat(a, b, IsVideo);
    case Audio => Seqs.FilterConcat(a, b, IsAudioOnly);
    case All =>
  }

  /** `getBestStream`, whose `type` defaults to 'video': the head of the sorted
      filtered list, or `null`. */
  function GetBestStream(streams: seq<Stream>, kind: Kind := Video): Option<Stream> {
    var sorted := SortStreams(FilterStreamsByType(streams, kind));
    if |sorted| > 0 then Some(sorted[0]) else None
  }

  /** There is a best stream exactly when some stream is of the kind, and it is the
      first stream of that kind with the smallest sort key. */
  lemma GetBestStreamSpec(streams: seq<Stream>, kind: Kind)
    ensures GetBestStream(streams, kind).None? <==> FilterStreamsByType(streams, kind) == []
    ensures GetBestStream(streams, kind).Some? ==>
      var f := FilterStreamsByType(streams, kind);
      GetBestStream(streams, kind).value == f[Seqs.BestIndex(f, SortKey)]
  {
    var f := FilterStreamsByType(streams, kind);
    if f != [] {
      Seqs.SortHead(f, SortKey);
    }
  }

  // ---------------------------------------------------------------- grouping

  /** The group key of a stream: its lower-cased format. */
  function FormatKey(s: Stream): string {
    Text.Lower(s.format)
  }

  /** The streams whose key is `k`, in input order. */
  function GroupOf(streams: seq<Stream>, k: string): (r: seq<Stream>)
    ensures forall i :: 0 <= i < |r| ==> FormatKey(r[i]) == k
    decreases |streams|
  {
    if streams == [] then []
    else
      var last := streams[|streams| - 1];
      GroupOf(streams[..|streams| - 1], k) + (if FormatKey(last) == k then [last] else [])
  }

  /** The keys that occur, in order of first occurrence: the order in which an object
      literal lists its non-numeric keys. */
  function GroupKeys(streams: seq<Stream>): (r: seq<string>)
    ensures forall k :: k in r <==> exists i :: 0 <= i < |streams| && FormatKey(streams[i]) == k
    ensures forall i, j :: 0 <= i < j < |r| ==> r[i] != r[j]
    decreases |streams|
  {
    if streams == [] then []
    else
      var init := streams[..|streams| - 1];
      var k := FormatKey(streams[|streams| - 1]);
      var keys := GroupKeys(init);
      assert forall i :: 0 <= i < |init| ==> init[i] == streams[i];
      if k in keys then keys else keys + [k]
  }

  /** The evidently intended result of `groupStreamsByFormat`: one group per key. */
  function GroupsByFormat(streams: seq<Stream>): map<string, seq<Stream>> {
    map k | k in GroupKeys(streams) :: GroupOf(streams, k)
  }

  lemma {:induction false} GroupOfEmpty(streams: seq<Stream>, k: string)
    requires k !in GroupKeys(streams)
    ensures GroupOf(streams, k) == []
    decreases |streams|
  {
    if streams != [] {
      var init := streams[..|streams| - 1];
      assert forall i :: 0 <= i < |init| ==> init[i] == streams[i];
      GroupOfEmpty(init, k);
    }
  }

  lemma {:induction false} GroupOfHas(streams: seq<Stream>, i: nat)
    requires i < |streams|
    ensures streams[i] in GroupOf(streams, FormatKey(streams[i]))
    decreases |streams|
  {
    if i < |streams| - 1 {
      var init := streams[..|streams| - 1];
      GroupOfHas(init, i);
    }
  }

  /** Every stream lies in the group of its own key and in no other. */
  lemma GroupsPartition(streams: seq<Stream>)
    ensures forall i :: 0 <= i < |streams| ==>
      FormatKey(streams[i]) in GroupsByFormat(streams) && streams[i] in GroupsByFormat(streams)[FormatKey(streams[i])]
    ensures forall k, x :: k in GroupsByFormat(streams) && x in GroupsByFormat(streams)[k] ==> FormatKey(x) == k
  {
    forall i | 0 <= i < |streams| ensures streams[i] in GroupOf(streams, FormatKey(streams[i])) {
      GroupOfHas(streams, i);
    }
  }

  /** The sizes of the groups `ks`. */
  function GroupSizes(streams: seq<Stream>, ks: seq<string>): nat {
    if ks == [] then 0 else GroupSizes(streams, ks[..|ks| - 1]) + |GroupOf(streams, ks[|ks| - 1])|
  }

  lemma {:induction false} GroupSizesStep(streams: seq<Stream>, x: Stream, ks: seq<string>)
    requires forall i, j :: 0 <= i < j < |ks| ==> ks[i] != ks[j]
    ensures GroupSizes(streams + [x], ks) == GroupSizes(streams, ks) + (if FormatKey(x) in ks then 1 else 0)
    decreases |ks|
  {
    if ks != [] {
      var init := ks[..|ks| - 1];
      GroupSizesStep(streams, x, init);
      assert (streams + [x])[..|streams|] == streams;
      var last := ks[|ks| - 1];
      assert FormatKey(x) in ks <==> FormatKey(x) in init || FormatKey(x) == last;
      assert last !in init;
    }
  }

  /** The group sizes add up to the number of streams. */
  lemma {:induction false} GroupSizesTotal(streams: seq<Stream>)
    ensures GroupSizes(streams, GroupKeys(streams)) == |streams|
    decreases |streams|
  {
    if streams != [] {
      var init := streams[..|streams| - 1];
      var x := streams[|streams| - 1];
      assert streams == init + [x];
      GroupSizesTotal(init);
      var keys := GroupKeys(init);
      GroupSizesStep(init, x, keys);
      if FormatKey(x) !in keys {
        GroupOfEmpty(init, FormatKey(x));
        assert (keys + [FormatKey(x)])[..|keys|] == keys;
      }
    }
  }

  /** The keys under which a fresh `{}` already holds an inherited property: reading
      one yields a truthy value without `push`. */
  const InheritedKeys: set<string> := {"constructor", "__proto__"}

  /** The `reduce` itself, on keys that are not inherited: each stream is appended
      to the group of its key, a new key starting an empty group. */
  function Fold(streams: seq<Stream>): map<string, seq<Stream>>
    decreases |streams|
  {
    if streams == [] then map[]
    else
      var g := Fold(streams[..|streams| - 1]);
      var x := streams[|streams| - 1];
      var k := FormatKey(x);
      g[k := (if k in g then g[k] else []) + [x]]
  }

  /** The `reduce` builds exactly one group per key, as `GroupsByFormat` says. */
  lemma {:induction false} FoldGroups(streams: seq<Stream>)
    ensures Fold(streams) == GroupsByFormat(streams)
    decreases |streams|
  {
    if streams == [] {
      assert GroupKeys(streams) == [];
      assert GroupsByFormat(streams) == map[];
    } else {
      var pre := streams[..|streams| - 1];
      var x := streams[|streams| - 1];
      FoldGroups(pre);
      assert streams == pre + [x];
      GroupsSnoc(pre, x);
    }
  }

  /** `groupStreamsByFormat` as written: the `reduce` that pushes each stream onto
      `groups[format]`. On a key in `InheritedKeys` the `push` is a TypeError. */
  method GroupStreamsByFormat(streams: seq<Stream>) returns (r: Result<map<string, seq<Stream>>>)
    ensures r.Err? <==> exists i :: 0 <= i < |streams| && FormatKey(streams[i]) in InheritedKeys
    ensures r.Ok? ==> r.value == GroupsByFormat(streams)
  {
    var groups: map<string, seq<Stream>> := map[];
    var i := 0;
    while i < |streams|
      invariant 0 <= i <= |streams|
      invariant forall j :: 0 <= j < i ==> FormatKey(streams[j]) !in InheritedKeys
      invariant groups == Fold(streams[..i])
    {
      var format := FormatKey(streams[i]);
      if format in InheritedKeys {
        return Err("TypeError: groups[format].push is not a function");
      }
      assert streams[..i + 1][..i] == streams[..i];
      var current := if format in groups then groups[format] else [];
      groups := groups[format := current + [streams[i]]];
      i := i + 1;
    }
    assert streams[..i] == streams;
    FoldGroups(streams);
    return Ok(groups);
  }

  /** Adding one stream at the end adds it to the end of its own group. */
  lemma GroupsSnoc(pre: seq<Stream>, x: Stream)
    ensures var g := GroupsByFormat(pre);
      var k := FormatKey(x);
      GroupsByFormat(pre + [x]) == g[k := (if k in g then g[k] else []) + [x]]
  {
    var post := pre + [x];
    var k := FormatKey(x);
    var g := GroupsByFormat(pre);
    var expected := g[k := (if k in g then g[k] else []) + [x]];
    var actual := GroupsByFormat(post);
    GroupKeysSnoc(pre, x);
    assert actual.Keys == expected.Keys;
    forall k' | k' in actual.Keys ensures actual[k'] == expected[k'] {
      GroupSnocAt(pre, x, k');
    }
  }

  /** One group of the extended list: the old group, or nothing for a new key,
      with `x` appended when it has the group's key. */
  lemma GroupSnocAt(pre: seq<Stream>, x: Stream, k: string)
    ensures GroupOf(pre + [x], k) ==
      if k == FormatKey(x) then (if k in GroupKeys(pre) then GroupOf(pre, k) else []) + [x]
      else GroupOf(pre, k)
  {
    GroupOfSnoc(pre, x, k);
    if k == FormatKey(x) && k !in GroupKeys(pre) {
      GroupOfEmpty(pre, k);
    }
  }

  lemma GroupKeysSnoc(pre: seq<Stream>, x: Stream)
    ensures forall k' :: k' in GroupKeys(pre + [x]) <==> k' in GroupKeys(pre) || k' == FormatKey(x)
  {
    assert (pre + [x])[..|pre|] == pre;
  }

  lemma GroupOfSnoc(pre: seq<Stream>, x: Stream, k: string)
    ensures GroupOf(pre + [x], k) == GroupOf(pre, k) + (if FormatKey(x) == k then [x] else [])
  {
    assert (pre + [x])[..|pre|] == pre;
  }

  /** A stream whose format is "Constructor" makes `groupStreamsByFormat` throw. */
  lemma GroupThrowsOnConstructor()
    ensures var s := [Stream("720p", "Constructor", "", true, true, None, None, None)];
      exists i :: 0 <= i < |s| && FormatKey(s[i]) in InheritedKeys
  {
    var s := [Stream("720p", "Constructor", "", true, true, None, None, None)];
    assert FormatKey(s[0]) == "constructor";
  }
}
