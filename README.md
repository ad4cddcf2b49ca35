# Sonova downloader core in Dafny

Sonova is a Next.js site that downloads media from YouTube, TikTok, Instagram and
Twitter/X, and that summarises YouTube videos ("MindReplay"). This project models
the deterministic core of the site and proves properties of that model:

- the YouTube helpers in `src/lib/youtube-utils.ts`:
  - URL id extraction and URL normalisation;
  - duration text;
  - the quality-priority table and sorting, filtering, best-stream selection and grouping;
  - error classification;
  - URL and query validators;
- the `YouTubeUtils` object of `src/hooks/useYouTube.ts`;
- the stream normaliser and request building of `src/services/youtube.ts`;
- the classification and recommendation logic of `src/components/DownloadStreamItem.tsx`;
- the server routes under `src/app/api/`:
  - the Twitter, YouTube and Instagram media proxies and download routes;
  - the Twitter, Instagram and TikTok resolvers, which normalise provider answers;
  - the MindReplay route's choice of the text handed to the summarising model;
- the submit form of `src/components/HeroSection.tsx`:
  - the platform configuration;
  - platform detection from a URL;
  - the gating rules of `handleDownload`, as a class whose method updates the form's state;
  - platform names are the `HeroSection.Key` datatype; names outside the configuration table, such as `mindreplay`, are `Other(name)`.

How the model is laid out:

- **Common layer.** Each route is a function or method from already-parsed inputs to a response record.
  - The inputs are query parameters, a lower-cased header map, and one `Upstream` record standing for what the network answers.
  - The response record has a status, a header map and a body.
  - The JavaScript values that providers return are the `Js.Val` datatype, whose numbers are integers. `Js.Truthy`, `Js.Or` and `Js.FirstTruthy` model `||` chains.
  - URL parsing, serialisation, `encodeURIComponent` and `decodeURIComponent` are the fields of `Http.UrlApi`. Decoding may fail.
- **Requests.** A handler written as a method returns the outbound request it sends, as `Option<Http.Outbound>` (or a sequence of them for the Instagram resolver's retries). "Refused before any fetch" is `sent.None?`.
  - A handler written as a function has a companion function of the same inputs that gives the request: `TikTok.Sent`, `TwitterResolve.Sent`, `YoutubeService.DownloadRequest` and `YoutubeService.DetailsRequest`. Its `Upstream` input stands for the answer to that request.
- **Regular expressions.** Each one is a hand-written scanner in module `Scan`. Leftmost-match lemmas characterise what it captures.
- **Modules.** Each module follows one source file:
  - `YoutubeUtils`, `StreamUtils`, `ErrorUtils` and `ValidationUtils` follow `youtube-utils.ts`;
  - `YoutubeHook` follows `useYouTube.ts`;
  - `YoutubeService` follows `services/youtube.ts`;
  - `StreamList` follows `DownloadStreamItem.tsx`;
  - `TwitterDownload`, `TwitterProxy`, `YoutubeProxy`, `InstagramMedia`, `TwitterResolve`, `InstagramResolve`, `TikTok` and `MindReplay` follow the routes;
  - `HeroSection` follows the form.
  - `Text`, `Seqs`, `Scan`, `Patterns`, `Js`, `Http` and `Wrappers` are shared helpers.

Two points where the code is narrower than it may look:

- **Job and progress types.** `src/types/youtube.ts` declares the records of a job-submit and progress-poll flow (`YMStartItem`, `YMProgress`). No code in the modelled files implements that flow, so it is not modelled.
- **Twitter video links.** A video item's link and every variant link point at `/api/twitter/proxy`. The download button alone points at the worker's `/twitter/download` (`src/app/api/twitter/route.ts:76`, `:84`, `:115`).

## Model

| member | source | states |
|---|---|---|
| Js.FirstTruthy | src/app/api/tiktok/route.ts:35 | a chain `x1 \|\| … \|\| fallback` is the fallback exactly when no operand is truthy; otherwise it is truthy and one of the operands |
| Js.FirstTruthyAt | src/app/api/instagram/route.ts:239-248 | a `\|\|` chain whose operands before position i are all falsy and whose operand i is truthy gives operand i |
| Js.Read | src/app/api/instagram/route.ts:236-248 | an optional member read `it?.key`: an object gives its own member, a string gives a truthy function exactly for a `String.prototype` method name such as `link`, and every other value gives nothing |
| Http.QueryGet | src/app/api/twitter/download/route.ts:36-37 | `searchParams.get` gives the value of the first entry with that name, and nothing when no entry has it |
| Http.QuerySet | src/services/youtube.ts:61 | `searchParams.set` makes the name read back as the new value and leaves every other name's value alone |
| Http.QuerySetAppends | src/services/youtube.ts:61 | setting a name no entry has appends the entry |
| Http.RemoveAll | src/services/youtube.ts:61 | removing a name leaves no entry with it and keeps the value of every other name |
| Http.ByteStringConcat | src/app/api/twitter/download/route.ts:115 | a joined text is a ByteString (every character at most U+00FF) exactly when both pieces are |
| Patterns.FirstMatch | src/lib/youtube-utils.ts:11-25 | the first pattern in order that matches, with its match; none exactly when no pattern matches |
| Patterns.FindFirstMatch | src/lib/youtube-utils.ts:18-22 | the loop with early return over the patterns computes `FirstMatch` |
| Scan.SearchLeftmost | src/lib/youtube-utils.ts:13 | a search pattern's group is the capture after its leftmost prefix occurrence that has a capture after it: no earlier position succeeds with any prefix, and no earlier prefix succeeds at that position |
| Scan.CapturedFirstUnique | src/lib/youtube-utils.ts:13 | any two leftmost captures are at the same position, after the same prefix, and capture the same text, so the group a search returns is determined |
| YoutubeUtils.VideoIdShape | src/lib/youtube-utils.ts:11-25 | an extracted id is 11 characters of `[A-Za-z0-9_-]`; when some recognised prefix is followed by an id, it is the id after the leftmost such prefix; otherwise it is the whole input when that is a bare id, and there is none when it is not |
| YoutubeUtils.ExtractVideoId | src/lib/youtube-utils.ts:11-25 | the loop over the two patterns stops at the first that matches and returns `m[1] || m[0]` of it, which is `VideoIdOf` |
| YoutubeUtils.PlaylistIdShape | src/lib/youtube-utils.ts:30-44 | an extracted playlist id is a non-empty run of id characters; when some `&list=` or `?list=` is followed by an id character, it is the longest run after the leftmost such one; otherwise it is the whole input when that is a non-empty id run, and there is none when it is not |
| YoutubeUtils.ExtractPlaylistId | src/lib/youtube-utils.ts:30-44 | the loop over the playlist patterns returns `PlaylistIdOf` |
| YoutubeUtils.ChannelInfoShape | src/lib/youtube-utils.ts:49-73 | an extracted channel value is non-empty and drawn from its kind's characters; the first of the four channel URL forms that occurs with a value decides the kind (`id`, `handle`, `custom`, `custom`) and the value is the run after its leftmost occurrence; with no form present, a bare `UC` + 22 id is an `id`, else a bare `@handle` is a `handle` without its `@`, else there is none |
| YoutubeUtils.ChannelFormWins | src/lib/youtube-utils.ts:50-64 | the first channel URL form present decides the kind, and the value follows its leftmost occurrence |
| YoutubeUtils.ChannelDirect | src/lib/youtube-utils.ts:66-73 | with no channel URL form present, a bare `UC` id, then a bare handle, is accepted, and nothing else is |
| YoutubeUtils.ExtractChannelInfo | src/lib/youtube-utils.ts:49-73 | the loop over the channel patterns, then the bare id and bare `@handle` tests, returns `ChannelInfoOf` |
| YoutubeUtils.KeepOne | src/lib/youtube-utils.ts:98-103 | one kept parameter is at most one entry with that name and a non-empty value |
| YoutubeUtils.KeepParamsNames | src/lib/youtube-utils.ts:95-103 | the kept parameters are among `v`, `list`, `t`, in that order, with non-empty values |
| YoutubeUtils.KeepParamsValues | src/lib/youtube-utils.ts:98-103 | each kept name carries the first value the input gives it, when that value is non-empty |
| YoutubeUtils.KeepParamsIdempotent | src/lib/youtube-utils.ts:95-105 | keeping the parameters twice is keeping them once |
| YoutubeUtils.NormalizeUrlIdempotent | src/lib/youtube-utils.ts:90-112 | normalising a normalised URL changes nothing, given only the URL standard's promise about a parsed URL whose search and fragment are replaced: its serialisation parses again with that search and fragment and serialises the same |
| YoutubeUtils.DurationArithmetic | src/lib/youtube-utils.ts:137-139 | hours·3600 + minutes·60 + seconds is the input, minutes and seconds are below 60, and hours > 0 exactly from 3600 on |
| YoutubeUtils.HoursFields | src/lib/youtube-utils.ts:142 | `h:mm:ss` text splits at `:` into exactly its three fields |
| YoutubeUtils.MinutesFields | src/lib/youtube-utils.ts:144 | `m:ss` text splits at `:` into exactly its two fields |
| YoutubeUtils.FormatDurationFields | src/lib/youtube-utils.ts:136-145 | the text has three fields from one hour on and two below, every field after the first has two digits, and the text parses back to the input |
| YoutubeUtils.HoursDuration | src/lib/youtube-utils.ts:141-142 | from one hour on, the text has three fields, the last two of two digits, and it parses back to the input |
| YoutubeUtils.MinutesDuration | src/lib/youtube-utils.ts:144 | below one hour, the text has two fields, the second of two digits, and it parses back to the input |
| YoutubeUtils.HoursText | src/lib/youtube-utils.ts:142 | `h:mm:ss` text parses back to h·3600 + m·60 + s |
| YoutubeUtils.MinutesText | src/lib/youtube-utils.ts:144 | `m:ss` text parses back to m·60 + s |
| StreamUtils.Lookup | src/lib/youtube-utils.ts:201-219 | a table lookup returns a value paired with the name in the table, and nothing exactly when no row has the name |
| StreamUtils.LookupFrom | src/lib/youtube-utils.ts:201-219 | the lookup returns the value of the first row with the name |
| StreamUtils.LookupAt | src/lib/youtube-utils.ts:201-219 | the value of a row whose name appears in no earlier row is what the lookup returns |
| StreamUtils.QualityPriorityRange | src/lib/youtube-utils.ts:200-220 | the corrected priority is between 1 and 16 for a table label and 999 exactly for a label outside the table; it agrees with the code as written except on `Object.prototype` member names (`PriorityReadAgrees`) |
| StreamUtils.PriorityRead | src/lib/youtube-utils.ts:219 | `priorities[quality] \|\| 999` as written reads no number exactly for a label outside the table that names an `Object.prototype` member |
| StreamUtils.PriorityReadAgrees | src/lib/youtube-utils.ts:200-220 | the priority as written is the corrected priority for every label except the `Object.prototype` member names, for which it is not a number |
| StreamUtils.Short | src/lib/youtube-utils.ts:201-218 | a label shorter than seven characters names no `Object.prototype` member |
| StreamUtils.LabelShape | src/lib/youtube-utils.ts:201-218 | every table label is shorter than seven characters, or has seven and does not start with `v`, so none is an `Object.prototype` member name |
| StreamUtils.CompareReadAgrees | src/lib/youtube-utils.ts:226-235 | the comparator as written is NaN exactly for two streams of the same kind of which one has an `Object.prototype` member name as label; otherwise it equals the corrected comparator |
| StreamUtils.InheritedLabelInconsistent | src/lib/youtube-utils.ts:226-236 | for video streams labelled `constructor`, `720p` and `1080p`, `sort` reads the comparator as 0, 0 and 1: `constructor` ties with both while `720p` sorts after `1080p`, so the comparator is inconsistent |
| StreamUtils.ResolutionPriorities | src/lib/youtube-utils.ts:204-205 | `720p` has priority 4 and `1080p` priority 3 |
| StreamUtils.TableBounds | src/lib/youtube-utils.ts:201-218 | every table priority is between 1 and 16 |
| StreamUtils.LookupBounds | src/lib/youtube-utils.ts:201-219 | a lookup in a table whose values lie in [lo, hi] returns a value in [lo, hi], and nothing exactly for an absent name |
| StreamUtils.TablePriority | src/lib/youtube-utils.ts:201-219 | each table row's label gets that row's priority (`4K` and `2160p` 1, …, `Audio` 10, kbps labels 11-16) |
| StreamUtils.CompareMatchesKey | src/lib/youtube-utils.ts:226-235 | the sort comparator orders two streams the way the key "video first, then priority" does |
| StreamUtils.SortStreamsSpec | src/lib/youtube-utils.ts:225-237 | sorting is a permutation, puts every video stream before every non-video stream, orders by non-decreasing priority within each group, and keeps the input order among equal keys |
| StreamUtils.FilterStreamsSpec | src/lib/youtube-utils.ts:242-253 | `video` keeps exactly the video streams, `audio` exactly audio-without-video, `all` everything, with multiplicities |
| StreamUtils.FilterStreamsConcat | src/lib/youtube-utils.ts:242-253 | filtering a concatenation is the concatenation of the filtered parts, so order is preserved |
| StreamUtils.GetBestStreamSpec | src/lib/youtube-utils.ts:258-265 | there is no best stream exactly when the filtered list is empty; otherwise it is the earliest filtered stream of least sort key, which is the head of the sorted copy (`StreamList.BestIsHead`) |
| StreamUtils.GroupOf | src/lib/youtube-utils.ts:270-279 | one group holds only streams whose lower-cased format is its key |
| StreamUtils.GroupKeys | src/lib/youtube-utils.ts:270-279 | the group keys are exactly the lower-cased formats present, each once |
| StreamUtils.GroupOfEmpty | src/lib/youtube-utils.ts:270-279 | a key no stream has gets an empty group |
| StreamUtils.GroupOfHas | src/lib/youtube-utils.ts:270-279 | every stream is in the group of its own key |
| StreamUtils.GroupsPartition | src/lib/youtube-utils.ts:270-279 | every stream lies in the group of its key, and every group member has that group's key |
| StreamUtils.GroupSizesStep | src/lib/youtube-utils.ts:275 | over distinct keys, appending a stream adds one to the total group size exactly when its key is among them |
| StreamUtils.GroupSizesTotal | src/lib/youtube-utils.ts:270-279 | the group sizes sum to the input length |
| StreamUtils.GroupStreamsByFormat | src/lib/youtube-utils.ts:270-279 | the `reduce` as written fails exactly when some format lower-cases to an inherited property of `{}`, and otherwise builds the grouping `GroupsByFormat` |
| StreamUtils.FoldGroups | src/lib/youtube-utils.ts:271-276 | the `reduce` that appends each stream to the group of its key, starting a new group for a new key, ends with one group per key holding exactly that key's streams in order (`GroupsByFormat`) |
| StreamUtils.GroupsSnoc | src/lib/youtube-utils.ts:271-276 | grouping a list extended by one stream is the grouping of the list with that stream appended to its group |
| StreamUtils.GroupKeysSnoc | src/lib/youtube-utils.ts:272-274 | one more stream adds exactly its own key to the key set |
| StreamUtils.GroupOfSnoc | src/lib/youtube-utils.ts:275 | one more stream extends only its own group, at the end |
| StreamUtils.GroupThrowsOnConstructor | src/lib/youtube-utils.ts:272-275 | a stream with format `Constructor` hits an inherited key, so the `reduce` throws |
| ErrorUtils.MessageOf | src/lib/youtube-utils.ts:288-289 | the message read is a truthy `error.message`, else a truthy `error.error`, else `Unknown error` |
| ErrorUtils.KindOf | src/lib/youtube-utils.ts:291-333 | the kind is the first kind, in the fixed order validation, rate limit, permission, not found, configuration, whose substring test matches; unknown when none does |
| ErrorUtils.ParseApiError | src/lib/youtube-utils.ts:287-335 | throws exactly when the message has no `includes`; otherwise it gives the classified kind, its fixed message, and retryable exactly for rate limit and unknown |
| ErrorUtils.IsRetryableError | src/lib/youtube-utils.ts:340-343 | agrees with `parseApiError(...).retryable`, and throws when it throws |
| ValidationUtils.ValidateUrl | src/lib/youtube-utils.ts:351-403 | a URL is accepted exactly when it is non-empty, has a YouTube host, and the specific id is found; otherwise the error is the first failing check |
| ValidationUtils.ValidateVideoUrl | src/lib/youtube-utils.ts:351-365 | accepted exactly when non-empty, a YouTube host, and a video id extracts; the errors are required / not YouTube / no video id |
| ValidationUtils.ValidatePlaylistUrl | src/lib/youtube-utils.ts:370-384 | accepted exactly when non-empty, a YouTube host, and a playlist id extracts |
| ValidationUtils.ValidateChannelUrl | src/lib/youtube-utils.ts:389-403 | accepted exactly when non-empty, a YouTube host, and channel information extracts |
| ValidationUtils.ValidVideoUrlHasId | src/lib/youtube-utils.ts:351-365 | an accepted video URL yields an 11-character id that follows a recognised prefix or is the whole input |
| ValidationUtils.ValidateSearchQuery | src/lib/youtube-utils.ts:408-424 | a query is accepted exactly when it is non-empty and its trimmed length in UTF-16 code units lies in [min, max]; otherwise required, too short or too long, in that order |
| ValidationUtils.EmojiQueryAccepted | src/lib/youtube-utils.ts:415 | a single emoji is two code units long and passes the default minimum of 2 |
| ValidationUtils.BlankQueryRefused | src/lib/youtube-utils.ts:412-418 | a non-empty all-space query is refused as too short, for a positive minimum |
| ValidationUtils.SearchQueryTrimInvariant | src/lib/youtube-utils.ts:408-424 | validating the trimmed query gives the same verdict, for a query that does not trim to empty |
| YoutubeHook.VideoIdOfAgrees | src/hooks/useYouTube.ts:229-233 | the hook's single-regex extraction gives the same id as the library's loop over patterns |
| YoutubeHook.IsValidYouTubeUrlSpec | src/hooks/useYouTube.ts:234 | a URL is valid exactly when a recognised prefix is followed by an id or the input is a bare id |
| YoutubeHook.ThumbnailUrl | src/hooks/useYouTube.ts:235-236 | the link starts with the image host, the id and `/`, and ends with the quality's file name and `.jpg` |
| YoutubeHook.ThumbnailFileInjective | src/hooks/useYouTube.ts:236 | different quality names give different file names |
| YoutubeHook.ThumbnailUrlInjective | src/hooks/useYouTube.ts:235-236 | the link determines both the video id and the quality |
| YoutubeHook.QualityPriorityRange | src/hooks/useYouTube.ts:237 | the corrected hook priority is 1-8 for `2160p`…`144p` and 999 exactly for every other label; the code as written differs only on `Object.prototype` member names (`YoutubeHook.PriorityReadAgrees`) |
| YoutubeHook.PriorityReadAgrees | src/hooks/useYouTube.ts:237 | the hook's `[q] \|\| 999` as written is its corrected priority for every label except the `Object.prototype` member names, for which it is not a number |
| YoutubeHook.CompareReadAgrees | src/hooks/useYouTube.ts:238-242 | the hook's comparator as written is NaN exactly for two same-kind streams one of which has an `Object.prototype` member name as label; otherwise its sign is that of the corrected sort key's comparison |
| YoutubeHook.InheritedLabelInconsistent | src/hooks/useYouTube.ts:237-242 | for video streams labelled `constructor`, `720p` and `1080p`, `sort` reads the hook's comparator as 0, 0 and 1, an inconsistent comparator |
| YoutubeHook.ResolutionPriorities | src/hooks/useYouTube.ts:237 | the hook gives `720p` priority 4 and `1080p` priority 3 |
| YoutubeHook.TableBounds | src/hooks/useYouTube.ts:237 | every row of the hook's table lies in 1-8 |
| YoutubeHook.QualityPriorityAgrees | src/hooks/useYouTube.ts:237 | on the labels the hook knows, its priority equals the library's |
| YoutubeHook.LibraryEntry | src/hooks/useYouTube.ts:237 | each of the hook's rows is found in the library table with the same value |
| YoutubeHook.FourKDiffers | src/hooks/useYouTube.ts:237 | `4K` is 999 for the hook but 1 for the library |
| YoutubeHook.SortStreamsSpec | src/hooks/useYouTube.ts:238-242 | the hook's sort is a permutation, video first, by non-decreasing hook priority, stable |
| YoutubeHook.SortStreamsAgrees | src/hooks/useYouTube.ts:238-242 | on streams whose labels are all in the hook's table, the hook's sort equals the library's |
| YoutubeHook.GetBestStreamSpec | src/hooks/useYouTube.ts:243-249 | no best stream exactly when the filtered list is empty; otherwise the earliest filtered stream of least hook sort key |
| YoutubeService.NewService | src/services/youtube.ts:40-48 | construction fails exactly without a non-empty key; the host is the environment's or the default, and the base is `https://` + host |
| YoutubeService.PrefixInClass | src/services/youtube.ts:51-54 | a piece of a text drawn from a character class is drawn from it too |
| YoutubeService.BareIdHasNoPrefix | src/services/youtube.ts:51-54 | a bare 11-character id contains no recognised prefix |
| YoutubeService.ExtractVideoId | src/services/youtube.ts:50-56 | an extracted id is never empty |
| YoutubeService.ExtractVideoIdAgrees | src/services/youtube.ts:50-56 | the service's extraction succeeds exactly when the library's does, with the same id, and otherwise throws `Invalid YouTube video URL` |
| YoutubeService.SentParams | src/services/youtube.ts:60-62 | only parameters with a non-empty value are sent, and each sent name is one of the given ones |
| YoutubeService.BuildQuery | src/services/youtube.ts:59-62 | the `forEach` of `set` calls on a fresh URL builds `SentParams` |
| YoutubeService.SentParamsGet | src/services/youtube.ts:60-62 | a given parameter reads back as its value when it is sent and as absent when it is not |
| YoutubeService.LastNotSentBefore | src/services/youtube.ts:60-62 | a parameter whose name no earlier parameter has is absent from the earlier query |
| YoutubeService.MakeRequestTarget | src/services/youtube.ts:58-74 | the request is `RequestOf` the endpoint and parameters: base + endpoint, the sent parameters, and exactly the two RapidAPI headers |
| YoutubeService.ReadReply | src/services/youtube.ts:76-80 | a reply is read only when it is OK and parses; a non-OK reply throws the HTTP error text; a failed fetch rethrows its message |
| YoutubeService.HttpErrorTextBounded | src/services/youtube.ts:78 | the error text starts with the `HTTP` prefix, is at most 300 characters longer, and ends with the whole body when that has at most 300 characters |
| YoutubeService.FormatOf | src/services/youtube.ts:166-171 | the format is `mp4` for an empty mime or one without a subtype, else the lower-cased subtype |
| YoutubeService.QualityOf | src/services/youtube.ts:173 | the quality is the trimmed given quality when that is non-empty, and is never empty |
| YoutubeService.FallbackQuality | src/services/youtube.ts:173 | an item without a stated quality is labelled with a non-empty label, and `unknown` whenever its mime type does not contain `audio` |
| YoutubeService.ToNorm | src/services/youtube.ts:162-189 | an item is dropped exactly when its `url` is falsy; a kept stream has a size exactly when `size` is truthy (its text), an fps exactly when `fps` is a number, and a codec exactly when `codec \|\| encoding` is truthy |
| YoutubeService.ToNormFlags | src/services/youtube.ts:175-177 | a present, non-null `has_audio`/`has_video` decides its flag by truthiness; without either flag a kept stream has audio or video |
| YoutubeService.NormalizeAll | src/services/youtube.ts:191 | normalising never yields more streams than results |
| YoutubeService.NormalizeAllSpec | src/services/youtube.ts:191 | normalising succeeds exactly when every item normalises, and then yields, in order, exactly the normalised streams of the items whose `url` is truthy |
| YoutubeService.DownloadStreams | src/services/youtube.ts:153-197 | a missing answer or a status other than `ok` gives two empty lists; otherwise it fails exactly when normalising fails, and the lists are the video and audio-only filters of the normalised results |
| YoutubeService.DownloadStreamsPartition | src/services/youtube.ts:194-197 | no stream is in both lists; the video list holds only video streams and the audio list only audio-without-video streams |
| YoutubeService.GetDownloadStreams | src/services/youtube.ts:143-198 | an invalid input throws before any request; a reply that `makeRequest` rejects rethrows its error; a readable reply gives `DownloadStreams` of it |
| YoutubeService.DownloadRequest | src/services/youtube.ts:149-151 | no request exactly for an invalid input; otherwise `/download.php` on the base URL, where `id` reads back as the extracted id and `geo`/`lang` only when given and non-empty |
| YoutubeService.StreamParamsSent | src/services/youtube.ts:151 | `id` always reads back as sent; `geo` and `lang` only when non-empty |
| YoutubeService.FirstNonZero | src/services/youtube.ts:96-100 | the duration is the first candidate that converts to a non-zero number, else 0 |
| YoutubeService.PublishedOf | src/services/youtube.ts:114-121 | `publishDate` wins; a numeric `published` above 10^12 is read as milliseconds and otherwise as seconds; no date otherwise |
| YoutubeService.TimeClip | src/services/youtube.ts:115-118 | a `Date` holds a time value exactly within ±8.64·10^15 ms, and NaN beyond |
| YoutubeService.DateValue | src/services/youtube.ts:115 | `new Date(v)` keeps a number as is, within the bound, and is NaN for a text that the date parser cannot read |
| YoutubeService.FarPastTimestampThrows | src/services/youtube.ts:116-118 | `published: -10000000000000` is read as seconds, which gives -10^16 ms, beyond a `Date`'s range, so `toISOString` throws |
| YoutubeService.DetailsId | src/services/youtube.ts:124 | the id is `raw.id`, else `raw.videoId`, else the extracted id |
| YoutubeService.DetailsThumbnail | src/services/youtube.ts:90-94 | the thumbnail is always truthy; without any provider thumbnail it is the `hqdefault` image of the id |
| YoutubeService.DetailsDuration | src/services/youtube.ts:96-100 | a non-zero duration is the number of one of the three fields, and a non-zero `duration` field wins |
| YoutubeService.DetailsTags | src/services/youtube.ts:138 | the tags are `keywords` when it is an array, else `tags` when that is one, else empty |
| YoutubeService.Count | src/services/youtube.ts:110-112 | a count is 0 when neither field is truthy |
| YoutubeService.GetVideoDetails | src/services/youtube.ts:84-140 | an invalid input throws; success exactly when the id extracts, the reply reads and the chosen publication time is a valid date; a reply error is rethrown, and an invalid date throws the `RangeError` "Invalid time value"; the details carry a truthy id and thumbnail |
| YoutubeService.DetailsRequest | src/services/youtube.ts:85-88 | no request exactly for an invalid input; otherwise `/video.php` on the base URL with the query `id=<extracted id>` and nothing else |
| StreamList.StreamType | src/components/DownloadStreamItem.tsx:38-46 | `Video + Audio` exactly with both flags, `Video Only` exactly for video alone, `Audio Only` exactly without video |
| StreamList.StreamTypeSections | src/components/DownloadStreamItem.tsx:38-46 | a stream is not `Audio Only` exactly when it is a video stream; a stream with neither flag is labelled `Audio Only` yet falls in neither section |
| StreamList.QualityTierLabels | src/components/DownloadStreamItem.tsx:48-54 | green exactly for table rows 0-3, blue 4-7, yellow 8-9, gray for every label outside those rows |
| StreamList.TierBounds | src/components/DownloadStreamItem.tsx:48-54 | the table rows of each tier have priorities ≤2, 3-4, 5-6 and >6 |
| StreamList.PriorityIndex | src/components/DownloadStreamItem.tsx:48-54 | a label's corrected priority is its table row's value, and 999 exactly for a label outside the table |
| StreamList.TierAsRead | src/components/DownloadStreamItem.tsx:48-54 | the colour tier is the same whether a label outside the table reads as 999 or, as written, as an inherited non-number, whose `<=` tests all fail: gray |
| StreamList.Tag | src/components/DownloadStreamItem.tsx:198-206 | each array slot is paired with its index, which stands for object identity |
| StreamList.Items | src/components/DownloadStreamItem.tsx:208-221 | one rendered item per stream |
| StreamList.StreamsList | src/components/DownloadStreamItem.tsx:190-224 | the empty-list message exactly for no streams; the flat view exactly for streams without grouping |
| StreamList.UntagTag | src/components/DownloadStreamItem.tsx:198 | dropping the tags gives back the streams |
| StreamList.ItemsStreams | src/components/DownloadStreamItem.tsx:208-221 | the rendered items show the streams in order |
| StreamList.SortedStreams | src/components/DownloadStreamItem.tsx:198 | sorting the tagged slots and dropping tags is `sortStreams` |
| StreamList.SectionStreams | src/components/DownloadStreamItem.tsx:223-224 | the streams of a section are the sorted streams of its kind |
| StreamList.SectionTags | src/components/DownloadStreamItem.tsx:223-224 | the slots of a section are distinct and each names an input index holding its stream |
| StreamList.BestIsFirst | src/components/DownloadStreamItem.tsx:200-206 | the best slot of a kind is the first slot of its section, and none for an empty section |
| StreamList.OnlyFirstHasTag | src/components/DownloadStreamItem.tsx:240 | in a section of distinct slots no later slot names the first slot's index |
| StreamList.SectionItems | src/components/DownloadStreamItem.tsx:236-262 | each section item shows its stream and is recommended exactly when recommendations are on and it is the section's first slot |
| StreamList.BestIsHead | src/components/DownloadStreamItem.tsx:200-206 | `getBestStream` is the head of the sorted filtered list |
| StreamList.GroupedVideo | src/components/DownloadStreamItem.tsx:223-240 | the video section is the sorted video streams; an item is recommended exactly when recommendations are on and it is the first, which is the best video stream |
| StreamList.GroupedAudio | src/components/DownloadStreamItem.tsx:224-259 | the audio section is the sorted audio-only streams; an item is recommended exactly when recommendations are on and it is the first, which is the best audio stream |
| StreamList.SlotConsistent | src/components/DownloadStreamItem.tsx:198 | a slot of the sorted tagged list names an index of the input holding that stream |
| StreamList.SlotOfBestTag | src/components/DownloadStreamItem.tsx:200-206 | a slot that names the best index of a kind holds the first stream of that kind's section |
| StreamList.FlatRecommended | src/components/DownloadStreamItem.tsx:208-221 | a recommended flat item is the best video stream or the best audio stream |
| StreamList.FlatView | src/components/DownloadStreamItem.tsx:208-221 | the flat view shows all streams sorted; an item is recommended exactly when recommendations are on and its object is the one `getBestStream` returned for video or for audio, whose stream is then the best video or best audio stream |
| TwitterDownload.SanitizeFilename | src/app/api/twitter/download/route.ts:14-31 | never empty: the cleaned decoded name, or `twitter_media` when that is empty; undecodable input is used raw |
| TwitterDownload.FilteredAllowed | src/app/api/twitter/download/route.ts:25-26 | after the first two replacements no forbidden or control character remains |
| TwitterDownload.CleanSlice | src/app/api/twitter/download/route.ts:29 | a slice of a clean text is clean |
| TwitterDownload.CollapsedClean | src/app/api/twitter/download/route.ts:25-27 | after collapsing whitespace the text is clean: no forbidden or control character, no two spaces in a row |
| TwitterDownload.CleanedShape | src/app/api/twitter/download/route.ts:27-29 | a cleaned name has at most 200 characters and does not start with a space |
| TwitterDownload.CleanedClean | src/app/api/twitter/download/route.ts:24-29 | a cleaned name holds no forbidden or control character and no run of spaces |
| TwitterDownload.TrimmedClean | src/app/api/twitter/download/route.ts:25-28 | trimming keeps the text clean |
| TwitterDownload.CleanNameUnchanged | src/app/api/twitter/download/route.ts:24-29 | a name that is already clean, trimmed and short passes unchanged |
| TwitterDownload.FilterKeepsAll | src/app/api/twitter/download/route.ts:25-26 | removing characters none of which occur leaves the text unchanged |
| TwitterDownload.LastSegment | src/app/api/twitter/download/route.ts:97-98 | `/([^\/]+)$/` captures the non-empty slash-free tail after the last `/`; no match exactly for an empty path or one ending in `/` |
| TwitterDownload.BaseName | src/app/api/twitter/download/route.ts:90-102 | never empty; the sanitised query name when one is given |
| TwitterDownload.FinalFilename | src/app/api/twitter/download/route.ts:104-110 | the base name, with `.jpg`/`.png`/`.mp4`/`.gif` by content type added only when it has no `.` |
| TwitterDownload.TargetOf | src/app/api/twitter/download/route.ts:36-63 | no media exactly when `mediaUrl` is missing or empty; a parsed target came from the parser |
| TwitterDownload.TargetCases | src/app/api/twitter/download/route.ts:43-63 | a bad proxy link exactly for a `/api/twitter/proxy` link that resolves and has no inner `mediaUrl`; a proxy link that does not resolve throws; any other link is decoded then parsed, throwing or refusing on failure |
| TwitterDownload.ProxyLinkUnwrapped | src/app/api/twitter/download/route.ts:46-53 | a `/api/twitter/proxy` link is unwrapped to its own decoded `mediaUrl` |
| TwitterDownload.ChooseFilename | src/app/api/twitter/download/route.ts:90-110 | the reassignments of `finalFilename` compute `FinalFilename` |
| TwitterDownload.Attachment | src/app/api/twitter/download/route.ts:113-128 | the `headers.set` calls build `AttachmentAnswer`: the catch-all 500 when the file name is not a ByteString, else the 200 attachment |
| TwitterDownload.DispositionByteString | src/app/api/twitter/download/route.ts:115 | the `Content-Disposition` value is a ByteString exactly when the file name is |
| TwitterDownload.AttachmentSpec | src/app/api/twitter/download/route.ts:113-135 | a file name with a character above U+00FF gives the catch-all 500; otherwise 200 with the upstream body, the content type, `attachment; filename="<name>"`, CORS `*`, one-hour caching, content length only when upstream gave one, and no other header |
| TwitterDownload.Get | src/app/api/twitter/download/route.ts:33-137 | the 400 answers for a missing media URL, a bad proxy link and an unparsable URL; a fetch exactly for a parsed target whose host is `video.twimg.com` or `pbs.twimg.com`; a non-OK reply keeps its status; an OK reply gets `AttachmentAnswer` for the final file name, so a name outside Latin-1 gives 500 |
| TwitterProxy.CorsJson | src/app/api/twitter/proxy/route.ts:83-88 | a JSON answer carries the status, the body, a JSON content type and every CORS header |
| TwitterProxy.Options | src/app/api/twitter/proxy/route.ts:21-23 | the preflight answer is 200, bodiless, and carries exactly the three CORS headers: any origin, GET, HEAD and OPTIONS, and the allowed request headers |
| TwitterProxy.NormalizeUrl | src/app/api/twitter/proxy/route.ts:13-19 | no URL exactly for an empty input |
| TwitterProxy.NormalizeHttps | src/app/api/twitter/proxy/route.ts:17-18 | a URL that already has a web scheme is unchanged |
| TwitterProxy.RewrittenHttps | src/app/api/twitter/proxy/route.ts:15-17 | `//x`, `http://…` and scheme-less inputs become `https://` URLs |
| TwitterProxy.NormalizeIdempotent | src/app/api/twitter/proxy/route.ts:13-19 | normalising twice is normalising once |
| TwitterProxy.NormalizeGuard | src/app/api/twitter/proxy/route.ts:28-33 | the https guard passes exactly for a non-empty input that has no `http(s)://` scheme in any case or starts with lower-case `http://` or `https://`, so `HTTPS://…` is refused |
| TwitterProxy.DropOthers | src/app/api/twitter/proxy/route.ts:36 | the leading run of characters outside the name class is dropped, and only it |
| TwitterProxy.ReplaceOthers | src/app/api/twitter/proxy/route.ts:36 | each run of characters outside `[\w.\-()[\] ]` becomes one `_`; the output is in the class, not longer, and empty only for empty input |
| TwitterProxy.DropOthersKeeps | src/app/api/twitter/proxy/route.ts:36 | dropping the leading run keeps every name character |
| TwitterProxy.ReplaceKeeps | src/app/api/twitter/proxy/route.ts:36 | the replacement keeps every name character, in order |
| TwitterProxy.ReplaceClean | src/app/api/twitter/proxy/route.ts:36 | a name already in the class is unchanged |
| TwitterProxy.ReplaceIdempotent | src/app/api/twitter/proxy/route.ts:36 | replacing twice is replacing once |
| TwitterProxy.FetchHeaders | src/app/api/twitter/proxy/route.ts:39-47 | `Range` is forwarded exactly when the request has one; the referer is `https://x.com/`; no other header |
| TwitterProxy.RelayHeaders | src/app/api/twitter/proxy/route.ts:57-72 | the `h.set` calls build `Relayed` from the upstream headers and the disposition |
| TwitterProxy.RelayedSpec | src/app/api/twitter/proxy/route.ts:57-72 | the relayed headers: the CORS headers; the upstream content type or octet-stream; content length and range only when present; accept-ranges and caching with their defaults; a disposition exactly in download mode; and no other header |
| TwitterProxy.BuildSpec | src/app/api/twitter/proxy/route.ts:57-72 | each header set after the CORS ones reads back as its value, an empty length or range is absent, and the CORS headers keep their values |
| TwitterProxy.BuildKeys | src/app/api/twitter/proxy/route.ts:57-72 | the header names are the CORS names, type, ranges and caching, plus length, range and disposition exactly when set |
| TwitterProxy.Get | src/app/api/twitter/proxy/route.ts:25-81 | a non-https target is refused with 400 before any fetch; a failed fetch gives 500; a reply neither OK nor 206 gives 502; otherwise the upstream status with exactly the `Relayed` headers |
| YoutubeProxy.FetchHeaders | src/app/api/youtube/proxy/route.ts:13-17 | `Range` is forwarded exactly when the request has one, and nothing else |
| YoutubeProxy.CopyHeaders | src/app/api/youtube/proxy/route.ts:20-26 | the copy loop keeps exactly content-type, content-length, content-range and accept-ranges, with their upstream values |
| YoutubeProxy.Get | src/app/api/youtube/proxy/route.ts:7-31 | `fileUrl` is preferred over `mediaUrl`; both missing gives 400 and no fetch; otherwise the fetch has no host check; a failure gives 500; a reply's status is relayed unchanged with the copied headers |
| InstagramMedia.SanitizeFilename | src/app/api/instagram/download/route.ts:5-7 | the output's length is the smaller of 200 and the name's UTF-16 length, every character is in `[A-Za-z0-9_.-]`, and a name of basic-plane characters is mapped character for character |
| InstagramMedia.Replaced | src/app/api/instagram/download/route.ts:6 | the per-code-unit replacement has the name's UTF-16 length and only allowed characters: a character outside the basic plane becomes two `_` |
| InstagramMedia.ReplacedBasic | src/app/api/instagram/download/route.ts:6 | on basic-plane characters the replacement keeps allowed characters and turns each other one into one `_` |
| InstagramMedia.SanitizeEmoji | src/app/api/instagram/download/route.ts:5-7 | `😀.jpg` becomes `__.jpg` |
| InstagramMedia.SanitizeClean | src/app/api/instagram/download/route.ts:5-7 | a short name of allowed characters is unchanged |
| InstagramMedia.SanitizeIdempotent | src/app/api/instagram/download/route.ts:5-7 | sanitising twice is sanitising once |
| InstagramMedia.UpstreamFailed | src/app/api/instagram/download/route.ts:27-30 | a non-OK upstream gives 502 |
| InstagramMedia.MediaHeaders | src/app/api/instagram/download/route.ts:33-39 | the content type, an optional disposition and `no-store`, and exactly those header names |
| InstagramMedia.Download | src/app/api/instagram/download/route.ts:9-48 | a missing URL gives 400; a fetch exactly for an `https://` URL; failure 500; non-OK 502; success 200 with the upstream type (default octet-stream), `attachment` with the sanitised name (default `download`) and `no-store` |
| InstagramMedia.Proxy | src/app/api/instagram/proxy/route.ts:5-36 | a missing URL gives 400; a fetch exactly for an http or https URL in any case, with no Range header; failure 500; non-OK 502; success 200 with exactly the content type and `no-store` headers |
| TwitterResolve.StripSlashes | src/app/api/twitter/route.ts:11 | `/\/+$/` removes exactly the trailing slashes: a prefix that does not end in `/` |
| TwitterResolve.WorkerBase | src/app/api/twitter/route.ts:9-12 | the environment override without trailing slashes, or the default when that is missing or empty; never empty, no trailing `/` |
| TwitterResolve.WorkerBaseOfEnv | src/app/api/twitter/route.ts:11 | a non-trivial override is a prefix of the environment value followed only by slashes |
| TwitterResolve.UrlField | src/app/api/twitter/route.ts:55-60 | a falsy field gives none; a string field is normalised to a non-empty URL; any other truthy value throws |
| TwitterResolve.TitleOf | src/app/api/twitter/route.ts:80-81 | the trimmed tweet text, or `Twitter Media` when it is missing or blank; a non-string text throws |
| TwitterResolve.Items | src/app/api/twitter/route.ts:69-78 | at most one item: an image of the thumbnail for a photo with a thumbnail, else a proxied video for a video or GIF with a best URL |
| TwitterResolve.Round1000 | src/app/api/twitter/route.ts:121 | `Math.round(n/1000)` is the nearest integer, halves up |
| TwitterResolve.Label | src/app/api/twitter/route.ts:119-121 | the given label, else `<height>p`, else `<round(bitrate/1000)>kbps` with `NaNkbps` for a non-numeric bitrate, else `mp4` |
| TwitterResolve.Variants | src/app/api/twitter/route.ts:61-66 | no more variants than given; a failure is the TypeError of a non-string URL |
| TwitterResolve.VariantsOk | src/app/api/twitter/route.ts:61-66 | building the variants succeeds exactly when every kept variant's URL is a string |
| TwitterResolve.VariantsMap | src/app/api/twitter/route.ts:61-66 | the variants are the URL-bearing ones, in order, each reshaped (the mapping is applied at lines 114-122) |
| TwitterResolve.Reshape | src/app/api/twitter/route.ts:51-123 | reshaping throws a TypeError exactly when `best`, `thumbnail` or `profile_image` is truthy and not a string, `text` is neither a string nor null, or a kept variant's URL is not a string; otherwise the answer echoes the input, has the worker download link, type image exactly for a photo, the normalised thumbnail and profile image, the trimmed title, the items of `Items` and the variants of `Variants` |
| TwitterResolve.Get | src/app/api/twitter/route.ts:23-130 | a missing URL gives 400; a failed fetch 500; a non-OK worker 502; non-JSON 500; a reshaping TypeError the catch-all 500 with its message; otherwise the reshaped answer |
| TwitterResolve.Sent | src/app/api/twitter/route.ts:23-40 | nothing is sent exactly when `url` is missing or empty; otherwise the worker request for it |
| TwitterResolve.WorkerRequest | src/app/api/twitter/route.ts:37-40 | the worker URL is the base, `/twitter/resolve?url=`, the encoded tweet address and `&all=1`, sent with only the user agent header |
| TwitterResolve.ProxyLinkReachesDownload | src/app/api/twitter/route.ts:76 | the video item's proxy link, given to the download route, unwraps to the best URL |
| TwitterResolve.VariantLinkReachesProxy | src/app/api/twitter/route.ts:115 | a variant's link, given to the proxy route, makes it fetch the normalised URL |
| InstagramResolve.Truncate | src/app/api/instagram/route.ts:206-209 | null stays null; at most n characters is unchanged; longer becomes its first n characters plus `…(truncated)` |
| InstagramResolve.Refusal | src/app/api/instagram/route.ts:24-48 | the checks in order: missing URL 400, missing key 500, unparsable URL 400, non-Instagram host 400; none exactly when all pass |
| InstagramResolve.Toggle | src/app/api/instagram/route.ts:56-57 | a trailing `/` is removed, else one is added |
| InstagramResolve.ToggleTwice | src/app/api/instagram/route.ts:56-57 | toggling twice restores the base, except for a base ending in `//` |
| InstagramResolve.IgVariants | src/app/api/instagram/route.ts:51-57 | exactly two distinct variants, in order: the base without query or fragment, then the base with its trailing `/` toggled |
| InstagramResolve.AttemptOf | src/app/api/instagram/route.ts:109-115 | each attempt logs the tried URL, the redacted provider URL, and either the status or, on the error path of lines 168-172, the error |
| InstagramResolve.StopAnswer | src/app/api/instagram/route.ts:118-161 | OK gives 200 with the parsed payload, its normalisation and the attempts, or the raw text and the attempts when the body does not parse; 401 gives 502; 422 and 429 are relayed, each with its message and the attempts so far |
| InstagramResolve.FirstStop | src/app/api/instagram/route.ts:96-178 | the first answer that stops the loop, and none exactly when no answer stops it |
| InstagramResolve.FirstStopFrom | src/app/api/instagram/route.ts:96-178 | the first stopping answer from a position on |
| InstagramResolve.Attempts | src/app/api/instagram/route.ts:93-172 | the loop over the variants leaves one log entry per variant tried, in order |
| InstagramResolve.Requests | src/app/api/instagram/route.ts:96-106 | one provider request per variant tried, in order |
| InstagramResolve.FirstStatus | src/app/api/instagram/route.ts:184-185 | `attempts.find(a => a.status && p)` is a non-zero recorded status satisfying p, and none when no status does |
| InstagramResolve.FirstStatusFrom | src/app/api/instagram/route.ts:184-185 | the same search from a position on |
| InstagramResolve.FinalStatus | src/app/api/instagram/route.ts:183-186 | the status is 502 or a recorded one; it is 404 only when no status is ≥400 and ≠404 |
| InstagramResolve.AllFailed | src/app/api/instagram/route.ts:188-197 | the answer has the final status and all attempts; the message is `Media not found…` exactly for 404 |
| InstagramResolve.OutcomeOk | src/app/api/instagram/route.ts:117-177 | the outcome is 200 exactly when the loop stopped on an OK answer |
| InstagramResolve.OutcomeStopped | src/app/api/instagram/route.ts:117-161 | when the loop stops at an answer, the outcome is 200 exactly when that answer is OK |
| InstagramResolve.OutcomeFailed | src/app/api/instagram/route.ts:180-197 | when no answer stops the loop, the outcome is not 200 |
| InstagramResolve.StopOk | src/app/api/instagram/route.ts:118-161 | a stopping answer gives 200 exactly when it is OK |
| InstagramResolve.FailedNotOk | src/app/api/instagram/route.ts:183-186 | the final status after all attempts fail is never 200 |
| InstagramResolve.OutcomeLog | src/app/api/instagram/route.ts:93-172 | every outcome body carries one log entry per variant tried |
| InstagramResolve.Get | src/app/api/instagram/route.ts:19-202 | a refusal sends nothing; otherwise the loop sends one request per tried variant, stopping at the first stopping answer, and answers `Outcome` |
| InstagramResolve.StopsAt | src/app/api/instagram/route.ts:96-178 | a loop stopping at i has tried i+1 variants and answers the stop answer with those attempts |
| InstagramResolve.Candidates | src/app/api/instagram/route.ts:220-233 | the concatenated pools when they are non-empty, else the data array itself when data is an array, else `[data]` when data has a truthy `url`, `video`, `image` or `download_url`, else nothing |
| InstagramResolve.ItemOf | src/app/api/instagram/route.ts:235-253 | an item is a video exactly when one of the video fields is set; its URL is the first truthy of the nine fields in priority order, read as `it?.key` reads them |
| InstagramResolve.StringItemKept | src/app/api/instagram/route.ts:235-255 | a string in a pool has a truthy `link` (the inherited `String.prototype.link`), so it is kept, as an image whose URL is that function |
| InstagramResolve.StringItemExtras | src/app/api/instagram/route.ts:250-253 | a string in a pool has no thumbnail or quality member, so both of its fields are `null` |
| InstagramResolve.NormalizedItems | src/app/api/instagram/route.ts:235-256 | every normalised item has a truthy URL, and there are at most as many items as candidates |
| InstagramResolve.NormalizeInstagram | src/app/api/instagram/route.ts:215-260 | the loop that pushes onto `items` computes `Normalize`, string pool items included, with the title priority title, caption, description, meta title |
| TikTok.ProviderRequest | src/app/api/tiktok/route.ts:13-19 | the TikWM URL is the endpoint, the encoded address and `&hd=1`, sent with only the XHR header |
| TikTok.Sent | src/app/api/tiktok/route.ts:7-19 | nothing is sent exactly when the address is missing or empty |
| TikTok.MediaOf | src/app/api/tiktok/route.ts:32-39 | the title, audio and cover default to `""` and the duration to 0; the video is hdplay, else play, else `""` |
| TikTok.RejectionBody | src/app/api/tiktok/route.ts:29 | the provider's truthy `msg`, else the route's default message |
| TikTok.Get | src/app/api/tiktok/route.ts:3-44 | missing address 400; failed fetch 500; a non-OK status passed through; a non-JSON or null body 500; a rejection 502; success 200 with the media body, and only success is OK |
| TikTok.ErrorsCarryMessage | src/app/api/tiktok/route.ts:9-42 | every non-success answer is a one-member `error` object, and only a TikWM rejection carries a message that is not the route's own |
| MindReplay.VideoIdShape | src/app/api/mindreplay/route.ts:107-122 | the id is a non-empty run free of `&`, `?`, `#` and newline after the leftmost occurrence of the first of the three forms followed by one; none exactly when no form is |
| MindReplay.WinningFormLeftmost | src/app/api/mindreplay/route.ts:114-118 | the id of the winning form is a non-empty run free of `&`, `?`, `#` and newline; it follows that form's leftmost occurrence with an id after it, and no earlier form has an id after it |
| MindReplay.ExtractVideoId | src/app/api/mindreplay/route.ts:107-122 | the loop over the three patterns returns `VideoIdOf` |
| Text.TrimEmptyIff | src/app/api/mindreplay/route.ts:34 | `!s.trim()` (here and at line 60) holds exactly when every character is white space |
| MindReplay.MetadataNotBlank | src/app/api/mindreplay/route.ts:40-57 | every metadata text, placeholder included, is not blank |
| MindReplay.SourceTextChoice | src/app/api/mindreplay/route.ts:26-63 | the text is the transcript whenever it is not blank, else the metadata text; it is never blank, so the generic sentence is never chosen |
| MindReplay.PlaceholderWhenUnavailable | src/app/api/mindreplay/route.ts:40-57 | the placeholder is used exactly when the watch URL is refused or the lookup fails, and it contains the video id |
| MindReplay.ChooseSourceText | src/app/api/mindreplay/route.ts:22-63 | the chain of reassignments computes the source text, which is not blank |
| MindReplay.Get | src/app/api/mindreplay/route.ts:7-105 | missing URL or no id gives 400 and no prompt; otherwise the prompt is the source text; a failed model call gives 500; otherwise 200 with the summaries |
| HeroSection.KeyNameRoundTrip | src/components/HeroSection.tsx:23-95 | a page name (one of the `platform` names declared at line 9) read as a key gives the name back, and a proper key reads back as itself, so key comparison is the source's name comparison |
| HeroSection.PageKey | src/components/HeroSection.tsx:96-97 | a key exactly for a non-empty `platform`, naming that property (the `platform` prop taken at line 12 and tested at line 143) |
| HeroSection.EffectiveConfig | src/components/HeroSection.tsx:157 | a known key's configuration, else YouTube's (the same fallback as line 171) |
| HeroSection.FindFormat | src/components/HeroSection.tsx:101 | `formats.find`: the first format with the selected value, none exactly when no format has it |
| HeroSection.SelectedFormat | src/components/HeroSection.tsx:101 | the found format, else the first format, else a synthetic entry named after the selection |
| HeroSection.DownloadLink | src/components/HeroSection.tsx:31-34 | `MP4` picks the video URL and another format the other field, each with its caption; a platform without links gives none |
| HeroSection.DetectPlatform | src/components/HeroSection.tsx:106-118 | always one of the four detectable platforms; an unparsable URL gives youtube |
| HeroSection.DetectPlatformHosts | src/components/HeroSection.tsx:106-118 | for a parsed URL the first host substring test in order decides: tiktok, instagram and twitter exactly under their tests, youtube otherwise |
| HeroSection.FormatDurationRoundTrip | src/components/HeroSection.tsx:121-126 | `""` exactly for 0; otherwise `m:ss` with two-digit seconds, whose fields read back to the input |
| HeroSection.GateError | src/components/HeroSection.tsx:133-156 | a blank input gives the enter-URL error; none exactly for a non-blank input that is either unfixed or detected as the fixed platform; otherwise the mismatch message |
| HeroSection.UndetectablePageRefusesAll | src/components/HeroSection.tsx:143-156 | a page fixed to a platform that detection (lines 106-118) never yields (such as `mindreplay`) refuses every input, a non-blank one with the mismatch message |
| HeroSection.AdmittedRoute | src/components/HeroSection.tsx:157-159 | an admitted input is sent to the configuration of its detected platform, the one lines 171-174 record |
| HeroSection.Answered | src/components/HeroSection.tsx:159-166 | a network error or unreadable body (the catch of lines 182-184) shows the network message; a result exactly for an OK reply without a truthy error; otherwise the error shown is `data.error` when truthy and `Gagal mengambil data.` when not |
| HeroSection.Form.constructor | src/components/HeroSection.tsx:97-103 | the form reads its `platform` as a key and starts with `MP4`, an empty input, no result, not loading, no error and the page's configuration |
| HeroSection.Form.HandleDownload | src/components/HeroSection.tsx:129-188 | a refused input sets its error, clears the result and sends nothing, leaving loading as it was for a blank input and false otherwise; an admitted one sends one request, sets the route's configuration, shows the answer and ends not loading; the format and input are unchanged |

## Left out

- Network I/O is not modelled. Every `fetch` is replaced by an `Upstream` input, and the request that would be sent is returned or given by a companion function.
- The AbortController timeout of the Instagram resolver is left out (`src/app/api/instagram/route.ts:60-91`). A timed-out attempt is one more `Failure`.
- Response body streaming, `safeText`, `res.text().catch` and `clone().text()` are left out. Error bodies that quote the upstream text carry it as given.
- The exact wording of `TypeError`/`SyntaxError` messages and of `String(err)` is not modelled. A thrown error is an opaque message string.
- URL parsing, serialisation and percent-encoding are abstract functions in `Http.UrlApi`. The parsed fields (hostname, pathname, query) are what the model reads.
- Redirect following and the `cache: 'no-store'` fetch option are left out, because they have no effect on the answer the model describes.
- Environment variables are inputs to the functions that read them: `NEXT_PUBLIC_TWITTER_WORKER_BASE`, `FASTSAVER_API_KEY`, `RAPIDAPI_KEY`/`RAPIDAPI_HOST` and the AI key.
- Floating-point numbers are left out. `Js.Val` numbers are integers, and `Number(...)` conversions read integer text only.
- The Gemini calls of the MindReplay route are left out (`src/app/api/mindreplay/route.ts:66-98`). Their summaries are an input, `None` when a call throws.
- MindReplay.VideoIdShape: the optional `(?:https?:\/\/)?(?:www\.)?` parts of the three patterns are not scanned. They contain no `y`, so a match that uses them has its literal part at the same leftmost occurrence, and the capture is the same.
- The transcript fetch and `ytdl` are left out. Their outcomes are inputs.
- Console logging is left out.
- `formatNumber`, `formatFileSize` and `formatRelativeTime` are left out, because they need floating point and dates.
- The ISO date strings of `getVideoDetails` are left out. `PublishedOf` gives the timestamp and its unit, not the text. Whether the time is valid is modelled: `new Date`'s reading of a `publishDate` text is the `parseDate` input, and an invalid time makes `GetVideoDetails` fail with the `RangeError`.
- The browser utilities and the hook's React state are left out.
- Rendering is left out: HeroSection's JSX, the download list's markup and colours beyond the tier, and the rest of the UI.
- The YouTube job, playlist and stream routes are left out, along with the services they import, because their implementations are not part of this model.
- HeroSection.FormatDurationRoundTrip: the duration is a natural number, so negative and fractional durations are not modelled.
- YoutubeUtils.FormatDurationFields: the duration is a natural number, so negative and fractional inputs are not modelled.
- HeroSection.Form.HandleDownload: the intermediate `setLoading(true)` and the React render between the setters are not modelled. Only the state after the handler returns is stated.
- TwitterProxy.Get: the `status !== 206` test is redundant, because 206 is already OK. The model keeps it as written.
- Options of `fetch` that only the network sees are left out: `cache`, `redirect` and the `user-agent` of the resolvers.
- StreamUtils.QualityPriorityRange: states the corrected priority, 999 for every label outside the table. The code as written reads an inherited member for `Object.prototype` names (see Findings and `StreamUtils.PriorityReadAgrees`).
- StreamUtils.CompareMatchesKey: holds for the corrected comparator. As written, the comparator is NaN for same-kind streams with an `Object.prototype` label (`StreamUtils.CompareReadAgrees`).
- StreamUtils.SortStreamsSpec: sorts by the corrected comparator. With an `Object.prototype` label the code's comparator is inconsistent, and the engine's order is not modelled (`StreamUtils.InheritedLabelInconsistent`).
- StreamUtils.GetBestStreamSpec: picks the head of the corrected sort, for the same reason.
- YoutubeHook.QualityPriorityRange: states the corrected hook priority; the code as written differs on `Object.prototype` names (`YoutubeHook.PriorityReadAgrees`).
- YoutubeHook.SortStreamsSpec: sorts by the corrected hook comparator; as written it is inconsistent on `Object.prototype` labels (`YoutubeHook.InheritedLabelInconsistent`).
- YoutubeHook.GetBestStreamSpec: picks the head of the corrected hook sort.
- StreamList.PriorityIndex: states the corrected priority. The colour tier agrees with the code as written for every label (`StreamList.TierAsRead`); the list's order and recommendations use the corrected sort.
- TwitterDownload.SanitizeFilename: `slice(0, 200)` counts UTF-16 code units and the model counts characters, so a name with characters outside the basic plane may keep a different number of them.
- InstagramResolve.Truncate: `length` and `slice` count UTF-16 code units and the model counts characters, so the cut point differs for text with characters outside the basic plane.
- YoutubeService.HttpErrorTextBounded: `slice(0, 300)` counts UTF-16 code units and the model counts characters, so the bound is 300 characters, not 300 code units.
- Text.Lower: lower-cases ASCII letters only, where `toLowerCase` also maps other capital letters. For a host, format or scheme with non-ASCII capitals the model's lower-cased text differs from the code's.
- TwitterDownload.AttachmentAnswer: only the disposition is checked for ByteString characters. The content type and length come from another `Headers` object and are ByteStrings already.

## Findings

| source | as written | input that shows it | evidently intended | confidence | as-written member | corrected member |
|---|---|---|---|---|---|---|
| src/lib/youtube-utils.ts:270-279 | `groups[format]` is read on a plain `{}`, so a format that lower-cases to an inherited property (`constructor`, `__proto__`) finds a truthy value that has no `push`, and the call throws a TypeError | a stream whose `format` is `"Constructor"` | every stream is placed in the group of its lower-cased format, one group per key | not executed | StreamUtils.GroupStreamsByFormat, StreamUtils.GroupThrowsOnConstructor | StreamUtils.GroupsPartition, StreamUtils.GroupSizesTotal |
| src/lib/youtube-utils.ts:219 | `priorities[quality] \|\| 999` reads a plain object literal, so a label naming an `Object.prototype` member (`constructor`, `toString`, `valueOf`, …) reads an inherited function, not 999; the comparator's difference is then NaN, which `sort` reads as 0, so the comparator is inconsistent and the order is up to the engine | video streams labelled `constructor`, `720p` and `1080p`: `constructor` ties with both, yet `720p` sorts after `1080p` | every label outside the table has priority 999, and sorting is by video first and then priority | not executed | StreamUtils.PriorityRead, StreamUtils.CompareReadAgrees, StreamUtils.InheritedLabelInconsistent | StreamUtils.QualityPriorityRange, StreamUtils.SortStreamsSpec |
| src/hooks/useYouTube.ts:237 | the hook's `({...} as Record<string, number>)[q] \|\| 999` has the same inherited-member reading, and its comparator the same NaN | the same three streams | every label outside the hook's table has priority 999 | not executed | YoutubeHook.PriorityReadAgrees, YoutubeHook.CompareReadAgrees, YoutubeHook.InheritedLabelInconsistent | YoutubeHook.QualityPriorityRange, YoutubeHook.SortStreamsSpec |

Other behaviours of the code that the model exhibits, kept as written:

- **Upper-case schemes.** `twitter/proxy` refuses `HTTPS://…`. The case-insensitive scheme test leaves it unchanged, and the case-sensitive `startsWith('https://')` guard then rejects it (`TwitterProxy.NormalizeGuard`).
- **Scheme rules differ.** `instagram/proxy` accepts `http://` media, while `instagram/download` requires `https://`.
- **Trailing slashes.** Toggling the trailing slash twice does not restore a path ending in `//` (`InstagramResolve.ToggleTwice`).
- **Twitter detection.** `detectPlatformFromUrl` treats any host containing `x.com` as Twitter, for example `dropbox.com`.
- **MindReplay fallback.** The generic fallback sentence is unreachable, because every metadata text is non-blank (`MindReplay.SourceTextChoice`).
