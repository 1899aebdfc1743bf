# ImageDownloader backend: resource caching, response parsing, upstream requests and history merge

This project models the core of the ImageDownloader backend in Dafny and
proves its properties. The backend fetches a post from a social platform
(Xiaohongshu, Miyoushe, Weibo, Pixiv), extracts the resource URLs from the
response, and mirrors each resource into an S3-compatible object store. It
also merges a client's download history into the copy kept in the store.

The model covers:

- **Cache keys** (`CacheKeys`): `generateKey` is the extension guess `\.([a-zA-Z0-9]+)(\?|$)`,
  the file stem or the MD5 digest, and the layout `cache/<prefix>/[<sourceId>/]<name>.<ext>`.
  `buildPublicUrl` builds the public URL with trailing slashes trimmed.
- **The object store** (`S3Store`): a class holding a map from key to object.
  Its existence check maps every failure to "absent". Its upload stores the
  content type, or `application/octet-stream`, with an immutable cache directive.
- **One caching step and the batch** (`CachingCore`):
  - `CacheStep` is the specification of `cacheResourceToS3`. It is a
    passthrough when no store is configured. Otherwise it checks for the
    key, downloads and uploads only on a miss, and wraps any failure.
  - `RunQueue` and `BatchSpec` specify the worker pool of
    `batchCacheResources`. The queue is de-duplicated and claimed index by
    index. Each entry is `[u, s3url]`, or `[u, u]` when caching threw.
- **The two copies of the proxy**:
  - the `ResourceProxy` class (`Proxy`);
  - its `PixivProxy` subclass (`Pixiv`, with the pure Pixiv naming in
    `PixivNames`), whose overridden key and header methods are selected by a
    `Hooks` value;
  - the module-level functions of `downloadProxy.js` (`DownloadProxy`).

  Each copy's imperative methods are proved equal to the `CachingCore`
  specifications. They act on an `ObjectStore` and keep a shared cursor and
  a results sequence.
- **Response parsing** (`ParsingResponse`): `ensureHttps`, and the `exec` loop of `extractUrls`.
  The loop runs over a scanner for the two regular-expression shapes the dispatcher uses.
  It has a JSON-array mode (strip quotes, split, prefix) and a meta-tag mode (un-escape `\u002F`).
  The per-downloader dispatch is also modelled.
- **The upstream request** (`FetchUrl`):
  - the API address per platform;
  - the first `SUB=` visitor cookie;
  - the Pixiv cookie check;
  - the overlay of the platform headers on the common ones;
  - the wrapping of network errors.
- **History sync** (`History`):
  - `mergeRecords`, as two loops filling an insertion-ordered map class;
  - it is proved equal to a per-id resolution: the first record attaining
    the latest `updated_at`, the server's last duplicate first;
  - the `since` filter;
  - the `/sync` handler as written, which always fails once authenticated,
    and as intended, with its record flow.

Outside inputs are parameters. The `Env` datatype supplies the MD5 digest,
`mime.lookup`, the download, failures of the store's requests, `new URL(...).pathname`
and `Date.now()`. `FetchUrl` takes the visitor-cookie response and the page
request as parameters. The store configuration is passed in explicitly.
In the application as configured by `app.js`, `s3Endpoint` is set while both
proxies read `s3EndpointInternal`/`s3EndpointPublic`, so caching is a passthrough
there. `CachingCore.CachePassthrough` and `CachingCore.UnconfiguredRunIsIdentity`
describe exactly that behaviour.

## Model

| member | source | states |
|---|---|---|
| Strs.Split | src/resourceProxy.js:38 | `split` on one character yields one more piece than there are separators, and no piece contains the separator |
| Strs.JoinSplit | src/resourceProxy.js:38 | joining the pieces of `split` with the separator gives back the string |
| Strs.LastSegmentIsSuffix | src/resourceProxy.js:38 | `split(c).pop()` is a `c`-free suffix of the string, preceded by `c` unless it is the whole string |
| Strs.FirstSegmentIsPrefix | src/resourceProxy.js:38 | `split(c)[0]` is a `c`-free prefix of the string, followed by `c` unless it is the whole string |
| Strs.LastIndexOf | src/resourceProxy.js:40 | the index found holds the character and no later index does; it is -1 exactly when the character is absent |
| Strs.TrimTrailing | src/resourceProxy.js:56 | `replace(/\/+$/, '')` leaves a prefix of the input that does not end with the character, and only that character was removed |
| Strs.RemoveAll | src/parsingResponse.js:27 | `replace(/"/g, "")` leaves no occurrence of the character, is obtained from the input by deletions, and is shorter by exactly the number of occurrences, so only those are deleted |
| Strs.RemoveAllKeepsOthers | src/parsingResponse.js:27 | every other character occurs as often after the removal as before |
| Strs.RemoveAllConcat | src/parsingResponse.js:27 | removing from a concatenation removes from each part |
| Strs.RemoveAllAbsent | src/parsingResponse.js:27 | text without the character is left unchanged |
| Strs.SplitAbsent | src/parsingResponse.js:27 | text without the separator splits into itself alone |
| Strs.Decimal | src/pixivProxy.js:32 | `${Date.now()}` is a non-empty run of digits denoting the number, with a leading zero only for zero |
| Strs.DecimalInjective | src/pixivProxy.js:32 | different timestamps give different fallback names |
| Seqs.Dedup | src/resourceProxy.js:135 | `Array.from(new Set(urls))` has no repeated element, holds every input element and nothing else, and is no longer than the input |
| Seqs.DedupMembers | src/resourceProxy.js:135 | an element is in the de-duplicated queue exactly when it is in the input |
| Seqs.DedupKeepsFirstOrder | src/resourceProxy.js:135 | the de-duplicated queue lists the elements in the order of their first appearance |
| CacheKeys.AlnumRun | src/resourceProxy.js:29 | the greedy `[a-zA-Z0-9]+` run stops at the first other character or the end |
| CacheKeys.FindExtDot | src/resourceProxy.js:29 | the search returns the leftmost dot starting a match of `\.([a-zA-Z0-9]+)(\?|$)`, or reports that none exists |
| CacheKeys.Extension | src/resourceProxy.js:28-32 | the extension is always a non-empty alphanumeric string |
| CacheKeys.ExtensionFound | src/resourceProxy.js:29-31 | when the search finds a dot, the regular expression matches there with the extension as its first group |
| CacheKeys.ExtensionDefault | src/resourceProxy.js:28-32 | with no match anywhere in the URL the extension is `jpg` |
| CacheKeys.ExtensionLeftmost | src/resourceProxy.js:29-31 | with a match, the extension is the group of the leftmost match |
| CacheKeys.FileStem | src/resourceProxy.js:38-40 | the file name used with a source id contains neither `/` nor `?` |
| CacheKeys.FileStemSpec | src/resourceProxy.js:38-40 | the file name is the last `/`-segment cut at `?`, with everything from its last `.` removed when it has one |
| CacheKeys.KeyInjective | src/resourceProxy.js:46-48 | two URLs get the same key under one prefix exactly when their names and extensions agree; with a source id, exactly when their stems and extensions agree |
| CacheKeys.HashedKeyIgnoresSourceId | src/resourceProxy.js:42-48 | without a truthy source id the key is `cache/<prefix>/<md5>.<ext>`, whatever falsy id was passed |
| CacheKeys.BuildPublicUrl | src/resourceProxy.js:54-59 | a non-empty public base wins, trimmed, then `/key`. Otherwise the URL is the trimmed endpoint, `/bucket/key`, or a throw when the endpoint is undefined. Every result ends with `/key` |
| S3Store.PutContentType | src/s3Client.js:43 | the stored content type is the given one, or `application/octet-stream` when that is empty, and never empty |
| S3Store.ObjectStore.Exists | src/s3Client.js:25-33 | the check answers true exactly when the key is stored and its HEAD request does not fail |
| S3Store.ObjectStore.Put | src/s3Client.js:38-47 | a successful put stores the body under the key with the resolved content type and the immutable directive; a failed one changes nothing |
| CachingCore.ContentType | src/resourceProxy.js:81-86 | the content type is the response header, else the MIME guess, else `application/octet-stream`, and is never empty |
| CachingCore.DownloadResource | src/resourceProxy.js:72-87 | the download fails exactly when the request fails; on success it yields the response bytes and a non-empty content type |
| CachingCore.TryStore | src/resourceProxy.js:108-118 | the check, download and upload against the store produce exactly the result, new contents and request sequence of `StoreIfMissing` |
| CachingCore.CachePassthrough | src/resourceProxy.js:96-98 | with the internal endpoint or bucket unset the URL comes back unchanged, the store is untouched and no request is sent |
| CachingCore.CacheHit | src/resourceProxy.js:109-110 | when the key exists only the existence check is sent and the store is unchanged; the call succeeds exactly when a public URL can be built |
| CachingCore.CacheMiss | src/resourceProxy.js:110-117 | on a miss the URL is downloaded with the given headers and uploaded under the same key. A failed download or upload is wrapped and leaves the store as it was |
| CachingCore.CacheSuccess | src/resourceProxy.js:106-120 | a successful call returns `buildPublicUrl` of its key, which ends with `/key`, and the key is stored |
| CachingCore.CacheTouchesOnlyItsKey | src/resourceProxy.js:106-114 | one call removes nothing and writes no key other than its own |
| CachingCore.RunQueueSnoc | src/resourceProxy.js:139-151 | claiming the next index appends one entry for that URL and runs its step on the store left by the earlier claims |
| CachingCore.WorkerCount | src/resourceProxy.js:156 | `Math.min(concurrency, queue.length)` as an array length: at most the queue length, zero for a non-positive concurrency, at least one for a non-empty queue and positive concurrency |
| CachingCore.BatchOfRun | src/resourceProxy.js:156-159 | a pool that runs no worker yields the empty map, and a pool that drains the queue yields the run over the whole queue |
| CachingCore.RunQueueEntries | src/resourceProxy.js:138-153 | the `i`-th entry is the `i`-th queued URL, mapped to what caching it returned against the store the earlier entries left, or to itself when it threw |
| CachingCore.BatchEntries | src/resourceProxy.js:132-160 | with at least one worker there is one entry per distinct URL in queue order, each mapped to its cached URL or to itself. With no worker the map is empty and the store untouched |
| CachingCore.BatchKeysAreInputUrls | src/resourceProxy.js:135-159 | the keys of the returned map are pairwise distinct and are exactly the input URLs |
| CachingCore.UnconfiguredRunIsIdentity | src/resourceProxy.js:96-98 | with no store configured every URL maps to itself, nothing is sent and the store is unchanged |
| CachingCore.SingleUrlPassthrough | src/downloadProxy.js:56-58 | with no store configured a batch of one URL is the identity entry for it |
| CachingCore.BrokenUrlFallsBack | src/resourceProxy.js:148-151 | a URL whose existence check and download fail maps to itself |
| CachingCore.DownloadFailureDegrades | src/downloadProxy.js:24-31 | a failing URL inside a batch maps to itself, and the batch still has its entry |
| CachingCore.CachedRunTransfersNothing | src/resourceProxy.js:109-114 | when every key is already stored and answers its check, the run sends only existence checks and leaves the store unchanged |
| CachingCore.RunStoresEveryKey | src/resourceProxy.js:109-114 | over a healthy network a configured run leaves every queued URL's key in the store |
| CachingCore.RerunTransfersNothing | src/resourceProxy.js:132-160 | running the same batch again over a healthy network, under the same key derivation, downloads and uploads nothing and leaves the store as it was; this holds for every key that does not read the clock (every default key, every Pixiv key except the `unknown_<now>.jpg` fallback) |
| Proxy.KeyFor | src/resourceProxy.js:106 | the instance's key is the parent's `cache/<prefix>/...` key, or the Pixiv `cache/pixiv/...` key, which fails exactly when the URL does not parse |
| Proxy.DownloadHeadersFor | src/resourceProxy.js:65-67 | the parent sends the caller's headers unchanged. The Pixiv override adds `Referer` and `Cookie`, and caller headers of the same name win |
| Proxy.PixivKeyIgnoresCaller | src/pixivProxy.js:29-40 | the Pixiv key does not depend on the prefix or source id it is asked with |
| Proxy.DefaultKeyLayout | src/resourceProxy.js:46-48 | the parent's key is `cache/<prefix>/<sourceId>/<stem>.<ext>` with a truthy source id and `cache/<prefix>/<md5>.<ext>` without |
| Proxy.ResourceProxy.CacheResourceToS3 | src/resourceProxy.js:92-121 | one call's result, new store and requests are exactly `CacheStep` for the instance's key and download headers |
| Proxy.ResourceProxy.Worker | src/resourceProxy.js:138-153 | a worker claims `idx++` until the cursor leaves the queue; each index is claimed once, in order, and the results match the run over the queue |
| Proxy.ResourceProxy.BatchCacheResources | src/resourceProxy.js:132-160 | the entries, store and requests are exactly `BatchSpec`; with positive concurrency every queue index is claimed exactly once and the cursor ends at or past the queue length |
| DownloadProxy.CacheResourceToS3 | src/downloadProxy.js:45-81 | one call's result, new store and requests are exactly `CacheStep` with `generateKey` and the caller's headers |
| DownloadProxy.Worker | src/downloadProxy.js:18-33 | a worker claims `idx++` until the cursor leaves the queue; each index is claimed once, in order, and the results match the run over the queue |
| DownloadProxy.BatchCacheResources | src/downloadProxy.js:12-40 | the entries, store and requests are exactly `BatchSpec`; with positive concurrency the cursor hands out `0..n-1` once each and ends at or past `n` |
| DownloadProxy.HashedStepIgnoresSourceId | src/downloadProxy.js:109-131 | without a truthy source id a step's outcome does not depend on which falsy id was passed |
| Pixiv.PixivProxy.constructor | src/pixivProxy.js:6-9 | the instance keeps the cookie read once at construction and runs the Pixiv overrides |
| Pixiv.PixivProxy.BatchCacheResources | src/pixivProxy.js:58-62 | the batch is the parent's batch with prefix `pixiv`, no caller headers and no source id |
| Pixiv.BatchDownloadHeaders | src/pixivProxy.js:46-52 | inside a Pixiv batch every download carries exactly the Pixiv referer and the stored cookie |
| Pixiv.PixivStep | src/pixivProxy.js:29-52 | a Pixiv step keys the URL by its pathname alone; a URL that does not parse fails before any request |
| PixivNames.SafeFilter | src/pixivProxy.js:20 | the filter output holds only `[a-zA-Z0-9._-]`, is a subsequence of its input, and is empty exactly when the input has no safe character |
| PixivNames.SafeFilterChar | src/pixivProxy.js:20 | one character is kept when it is safe and deleted otherwise |
| PixivNames.SafeFilterConcat | src/pixivProxy.js:20 | the filter of a concatenation is the concatenation of the filters, so with SafeFilterChar every unsafe character is deleted and every safe one kept, in order |
| PixivNames.SafeFilterKeepsSafe | src/pixivProxy.js:20 | a string of safe characters passes the filter unchanged |
| PixivNames.SafeFilterIdempotent | src/pixivProxy.js:20 | filtering twice gives the same as filtering once |
| PixivNames.ExtractPixivFilename | src/pixivProxy.js:15-22 | the file name holds only safe characters, is a subsequence of the pathname's last segment, and is empty exactly when that segment has no safe character |
| PixivNames.FilenameOfLastPiece | src/pixivProxy.js:18-20 | the file name is the filter of the piece after the last `/` |
| PixivNames.DigitRun | src/pixivProxy.js:35 | the greedy `\d+` run stops at the first non-digit or the end |
| PixivNames.IllustIdOfPattern | src/pixivProxy.js:35-36 | a name `<digits>_p<digits>.<rest>` has its leading digits as illustration id |
| PixivNames.IllustIdSound | src/pixivProxy.js:35-36 | an id other than `unknown` is a non-empty digit run that begins the name and is followed by `_p`, digits and a dot |
| PixivNames.IllustIdNeedsLeadingDigit | src/pixivProxy.js:35-36 | a name that does not start with a digit has the id `unknown` |
| PixivNames.KeyOfPatternName | src/pixivProxy.js:24-39 | a safe name `<digits>_p<digits>.<rest>` at the end of the path is stored under `cache/pixiv/<digits>/<name>`, extension kept |
| PixivNames.FinalNameOfSafe | src/pixivProxy.js:30-32 | a safe last segment is used unchanged as the file name |
| PixivNames.EmptyNameFallsBack | src/pixivProxy.js:32-36 | an empty file name falls back to `unknown_<now>.jpg`, filed under `unknown` |
| PixivNames.PixivHeaders | src/pixivProxy.js:46-52 | the headers are the caller's plus `Referer` and `Cookie`; the Pixiv referer and the stored cookie apply only where the caller gave none |
| Downloaders.Classify | src/parsingResponse.js:5-16 | a name selects one of the five literal cases exactly when it equals that literal, otherwise the default branch |
| Downloaders.ClassifyNameOf | src/fetchUrl.js:39-81 | classifying a known downloader's name gives the downloader back |
| ParsingResponse.EnsureHttps | src/parsingResponse.js:38-43 | a URL on `http://` becomes `https://` with the rest unchanged, any other URL is unchanged, and no result starts with `http://` |
| ParsingResponse.EnsureHttpsIdempotent | src/parsingResponse.js:38-43 | applying `ensureHttps` twice gives the same as once |
| ParsingResponse.Unescape | src/parsingResponse.js:30 | replacing every `\u002F` by `/` never lengthens the text |
| ParsingResponse.UnescapeSkipsPlain | src/parsingResponse.js:30 | text without a backslash is copied unchanged ahead of the rest |
| ParsingResponse.UnescapeReplaces | src/parsingResponse.js:30 | the first `\u002F` becomes `/` and the replacement goes on after it |
| ParsingResponse.UnescapeKeepsLoneBackslash | src/parsingResponse.js:30 | a backslash that does not begin `\u002F` is kept |
| ParsingResponse.UnescapeLeavesNone | src/parsingResponse.js:30 | no `\u002F` remains after the replacement |
| ParsingResponse.UnescapeIdentity | src/parsingResponse.js:30 | text without `\u002F` is left unchanged |
| ParsingResponse.EnsureHttpsKeepsNoEscape | src/parsingResponse.js:30-31 | upgrading the scheme introduces no `\u002F` |
| ParsingResponse.SpaceRun | src/parsingResponse.js:9 | the greedy `\s` run stops at the first non-space or the end |
| ParsingResponse.RunUntil | src/parsingResponse.js:11 | the greedy `[^stop]` run stops at the first stop character or the end |
| ParsingResponse.ScanLead | src/parsingResponse.js:9-13 | matching the literals and whitespace runs of a pattern ends within the text, no earlier than it started |
| ParsingResponse.MatchAt | src/parsingResponse.js:9-13 | a match's capture is a non-empty run free of the stop character, immediately followed by the stop character that ends the match |
| ParsingResponse.FirstMatchFrom | src/parsingResponse.js:25 | `exec` finds the leftmost position at or after `lastIndex` where the pattern matches, or reports that none exists |
| ParsingResponse.NextMatch | src/parsingResponse.js:25 | the match found lies at or after `lastIndex`, with a non-empty capture before its end |
| ParsingResponse.Captures | src/parsingResponse.js:25 | every capture of the global search is non-empty and free of the stop character |
| ParsingResponse.UrlsOf | src/parsingResponse.js:26-32 | JSON mode yields `count(delimiter) + 1` URLs per capture, each `ensureHttps(prefix + piece)` of the quote-free text; meta mode yields the one un-escaped, upgraded URL |
| ParsingResponse.PushCaptureUrls | src/parsingResponse.js:26-32 | one round appends exactly that capture's URLs to the list |
| ParsingResponse.ExtractStep | src/parsingResponse.js:25-33 | the URLs still to come from `lastIndex` are the next capture's URLs followed by those after the match's end |
| ParsingResponse.ExtractUrls | src/parsingResponse.js:22-35 | the loop returns the URLs of all captures in capture order, then piece order |
| ParsingResponse.JsonUrlCount | src/parsingResponse.js:27-28 | a JSON capture yields one URL more than it holds delimiters, the quotes removed notwithstanding |
| ParsingResponse.JsonUrlsShape | src/parsingResponse.js:26-28 | in JSON mode every URL is `ensureHttps(prefix + piece)` for a piece without `"` |
| ParsingResponse.RemoveAllSplitPieces | src/parsingResponse.js:27 | no piece of the split quote-free capture contains `"` |
| ParsingResponse.MetaUrlsShape | src/parsingResponse.js:29-31 | in meta mode there is exactly one URL per capture and none holds `\u002F` |
| ParsingResponse.ParseResponse | src/parsingResponse.js:4-17 | the dispatch, reading the body it is given, yields the URLs the downloader's pattern, prefix and mode define, and none for the other downloaders |
| ParsingResponse.AsWrittenFindsNothing | src/parsingResponse.js:9-13 | as written, the three parsing branches throw a ReferenceError and every other downloader gets `[]`, so no URL is ever returned |
| ParsingResponse.RunUntilAt | src/parsingResponse.js:13 | the `[^\]]+` run ends at the first closing bracket |
| ParsingResponse.MatchAtOf | src/parsingResponse.js:25 | a matching lead followed by a non-empty run and its stop character is a match |
| ParsingResponse.NoMatchAtEnd | src/parsingResponse.js:25 | `exec` finds nothing once `lastIndex` is at the end of the text |
| ParsingResponse.JsonArrayOneCapture | src/parsingResponse.js:11-13 | a body `"<key>":[<cap>]` has exactly the one capture `cap` |
| ParsingResponse.ParsedWeiboOfOneCapture | src/parsingResponse.js:13 | a Weibo body with one capture yields that capture's URLs |
| ParsingResponse.WeiboBodyOfOneId | src/parsingResponse.js:13 | the corrected parser turns `"pic_ids":["<id>"]` into the one URL `https://wx1.sinaimg.cn/large/<id>` |
| ParsingResponse.JsonUrlsStartWith | src/parsingResponse.js:27-28 | in JSON mode with an `https://` prefix, every URL starts with the prefix |
| ParsingResponse.WeiboUrlsOnImageHost | src/parsingResponse.js:13 | every Weibo URL lies on `https://wx1.sinaimg.cn/large/` |
| ParsingResponse.UnparsedDownloaders | src/parsingResponse.js:6-15 | the Xiaohongshu image downloader, Pixiv and unrecognised downloaders parse nothing |
| FetchUrl.GetTargetUrl | src/fetchUrl.js:85-101 | downloaders without an API keep the URL; the three API platforms get their template's fixed head, then the post id, then the fixed tail |
| FetchUrl.WeiboIdClean | src/fetchUrl.js:92-93 | the Weibo id holds neither `/` nor `?` and begins the URL's last `/`-segment, which ends the URL |
| FetchUrl.RawIdIsLastPiece | src/fetchUrl.js:88-97 | the Miyoushe and Pixiv id is the raw last `/`-segment, query kept: `/`-free, ending the URL, preceded by `/` |
| FetchUrl.TargetUrlDeterminesId | src/fetchUrl.js:85-101 | two URLs get the same API address only when their ids agree |
| FetchUrl.FirstSubSpec | src/fetchUrl.js:49-57 | the cookie picked is the first beginning with `SUB=`, or `""` when there is none |
| FetchUrl.PickSubCookie | src/fetchUrl.js:49-57 | the loop with `break` returns the first `SUB=` cookie, or `""` |
| FetchUrl.GetHeaders | src/fetchUrl.js:38-82 | returns the platform's headers: a Referer, plus a Cookie for Weibo and Pixiv, or the error of the visitor-cookie request or of the missing Pixiv cookie |
| FetchUrl.PlatformHeadersShape | src/fetchUrl.js:38-82 | header building fails exactly for Weibo with a failed cookie request and for Pixiv with an empty cookie. The API platforms always send a Referer, Weibo and Pixiv a Cookie, and the others nothing |
| FetchUrl.RequestHeaders | src/fetchUrl.js:15-18 | the request headers are the common ones overlaid by the platform's, and a platform value wins over a common one |
| FetchUrl.CommonHeadersKept | src/fetchUrl.js:6-18 | `Accept: */*` and the browser `User-Agent` are always sent as set |
| FetchUrl.Fetch | src/fetchUrl.js:13-33 | a request is sent exactly when the headers could be built, to the target address with the overlaid headers; the result is the response or the wrapped error |
| FetchUrl.FetchErrors | src/fetchUrl.js:15-32 | a header failure is reported as thrown, before any request; a request failure is reported as `网络请求失败: ` followed by its message |
| History.LastWith | routes/api/history.js:19-21 | after the server loop an id holds a record exactly when it occurs in the server records, and that record has the id and comes from the input |
| History.Resolved | routes/api/history.js:24-35 | after both loops an id holds a record exactly when it occurs in either list, and the record carries that id |
| History.FirstMax | routes/api/history.js:29-33 | the reference resolution picks, from a non-empty list, a member whose time is at least every other |
| History.FirstMaxKeepsEarliest | routes/api/history.js:31 | the reference resolution picks the earliest record attaining the latest time; every earlier record is strictly older |
| History.ResolvedIsFirstMax | routes/api/history.js:24-35 | the loop's resolution of an id equals the reference one over the server's last record for it followed by the client's records for it |
| History.MergedIds | routes/api/history.js:16-37 | the merge holds exactly one record per distinct id of `server ++ client`, in the order of first appearance |
| History.MergedServerOnly | routes/api/history.js:19-21 | an id only the server has keeps its last server record |
| History.ResolvedLatest | routes/api/history.js:29-33 | the resolved record is at least as recent as every candidate and strictly more recent than the candidates before it |
| History.CandidatesFromInput | routes/api/history.js:19-35 | every candidate record of an id is an input record |
| History.MergedLatest | routes/api/history.js:15-38 | every merged record comes from the input, is at least as recent as the server's last record for its id and every client record for it (earlier server records for the id are overwritten without comparison), and strictly more recent than those of them seen before it |
| History.ClientTieKeepsExisting | routes/api/history.js:29-33 | a client record that is not strictly later than the held one leaves it in place |
| History.ClientNewIdInserted | routes/api/history.js:25-27 | a client record whose id is new is inserted as it is |
| History.RecordMap.Get | routes/api/history.js:25 | `map.get` answers a record exactly when the id is a key, and that key's record |
| History.RecordMap.Set | routes/api/history.js:20 | `map.set` stores the record; a new key goes to the back, an existing key keeps its place |
| History.RecordMap.Values | routes/api/history.js:37 | `Array.from(map.values())` lists one value per key, in key order |
| History.MergeOne | routes/api/history.js:25-33 | one client record leaves the keys of the map plus its own id |
| History.KeysStep | routes/api/history.js:16-27 | setting an id keeps the map's key order equal to the ids seen, de-duplicated in first-appearance order |
| History.ServerStep | routes/api/history.js:19-21 | one server record keeps every id's value equal to its last server record so far |
| History.ClientStep | routes/api/history.js:24-35 | one client record keeps every id's value equal to its resolution over the records seen so far |
| History.AddServerRecords | routes/api/history.js:19-21 | after the first loop the keys are the distinct server ids in order and each holds its last server record |
| History.MergeClientRecords | routes/api/history.js:24-35 | after the second loop the keys are the distinct ids in order and each holds its resolved record |
| History.MergeRecords | routes/api/history.js:15-38 | `mergeRecords` returns exactly the per-id resolution in first-appearance order |
| History.FilterSince | routes/api/history.js:91-98 | without `since` all records are returned; with it only records strictly after it, never more than were given |
| History.FilterSinceMembers | routes/api/history.js:94-97 | a record is returned exactly when it was stored and is strictly after `since` |
| History.FilterSinceInOrder | routes/api/history.js:94-97 | the returned records keep their stored order |
| History.FilterSinceConcat | routes/api/history.js:94-97 | filtering a concatenation filters each part, so each kept record is kept once per occurrence and in place |
| History.FilterSinceOne | routes/api/history.js:94-97 | one record is kept exactly when it is strictly after `since` |
| History.SyncRecords | routes/api/history.js:69-98 | the stored records, or `[]`, are merged and written back exactly when the client sent records; what is returned is the `since` filter of the result |
| History.SyncAsWrittenNeverSyncs | routes/api/history.js:51-70 | as written, the handler never answers with records: an authenticated request fails with a 500 before the stored records are read |
| History.Sync | routes/api/history.js:51-107 | with the history object read as intended: 401 on a wrong token, 500 on a missing store setting or a failed write back, else the `since` filter of the merged records |

## Left out

- I/O is not modelled: the network, the AWS SDK, Express routing and logging. These are oracles or are absent. The `/sync` handler's token check is a boolean parameter, and its replies are the `SyncReply` values 401, 500 and records.
- `src/s3Client.js` is modelled as a map held by a class. The MD5 digest, `mime.lookup`, `new URL(...)` and `Date.now()` are oracle parameters; one `now` serves a whole batch. A second batch runs under a new `now`, so a Pixiv URL whose file name filters to empty gets a new `unknown_<now>.jpg` key and is downloaded and uploaded again; `CachingCore.RerunTransfersNothing` covers only key derivations that do not read the clock.
- Real interleaving under `Promise.all` is not modelled. The model runs the sequential schedule, in which each claimed URL is cached before the next index is claimed. JavaScript never produces that schedule when two or more workers start: each worker claims an index before its first `await`, so several URLs are in flight together. When the keys of a batch are distinct the outcome is the same, since each step touches only its own key (`CachingCore.CacheTouchesOnlyItsKey`), except that the source sends the requests of different URLs interleaved where the model sends them URL by URL, and pushes entries in completion order where the model has claim order. When two URLs of a batch share a key (the same stem and extension under one source id, or the same Pixiv file name), the source can differ from the model in the requests sent (two HEAD/GET/PUT sequences where the model sends one existence check for the second), in the entries (a failed second download gives the URL itself where the model gives the cached address), and in what the store holds.
- The guard `if (i >= queue.length) break` of both workers cannot fire after the loop condition checked the same cursor with no await in between, so the loop never takes it.
- `getDownloadHeaders` of the parent returns `headers || {}`; the model's headers are always a map, so the `{}` fallback does not arise.
- A numeric `sourceId` is not modelled: source ids are strings, and only present, non-empty ones are truthy.
- The regular-expression engine is not modelled. A scanner for the two pattern shapes in use is taken instead, and the delimiter of JSON mode is a single character (`,` in every call).
- JavaScript date parsing is not modelled: `updated_at` and `since` are integer milliseconds. A date that does not parse, and the `NaN` comparisons it causes, are left out.
- A record's fields other than `id` and `updated_at` are one opaque `payload`. JSON serialisation of the history object is not modelled: an absent or unparseable object is `None`.
- `History.SyncRecords`: it takes the stored records as a parameter, which the handler as written never gets to: the call of `getObject` at routes/api/history.js:70 throws first (see "## Findings"). It and `History.Sync` model the handler as evidently intended.
- `History.SyncRecords`: `since` is an `Option`, where `None` stands for an absent or empty parameter.
- `History.SyncRecords`: `clientRecords` is taken as a list, so a non-array `records` field is not modelled.
- `FetchUrl.GetHeaders`: the `set-cookie` list is taken as given, so a response without that header, for which the source's `for…of` throws, is not modelled.
- The Pixiv cookie from `getApp()` is a parameter; an unset one is `""`.
- `Proxy.KeyFor` covers the Pixiv key only through the pathname oracle: it does not model what `new URL` itself parses.

## Findings

| source | as written | input that shows it | evidently intended | confidence | as-written member | corrected member |
|---|---|---|---|---|---|---|
| src/parsingResponse.js:9,11,13 | the three parsing branches pass `text`, which is not declared anywhere, to `extractUrls` (modelled by `ParsingResponse.ParsingResponseAsWritten`) | `parsingResponse(anyResponse, "米游社图片下载器")` throws `ReferenceError: text is not defined` | parse the text of the response the function receives | not executed | ParsingResponse.AsWrittenFindsNothing | ParsingResponse.ParseResponse |
| routes/api/history.js:7,70 | `getObject` is destructured from `src/s3Client.js`, which exports only `createS3Client`, `objectExists` and `putObject` (src/s3Client.js:49), so the call at line 70 throws `TypeError: getObject is not a function` (modelled by `History.SyncAsWritten`) | in a deployment that mounts this router (the `app.js` in the repository mounts only `/v1/test` and `/v1/extract`), any `POST /v1/history/sync` with the right token and a configured store is answered 500 `同步历史记录失败: getObject is not a function` | read the history object, merge, write back and answer the filtered records | not executed | History.SyncAsWrittenNeverSyncs | History.Sync |
