/** The behaviour shared by both copies of the caching proxy
    (src/resourceProxy.js and src/downloadProxy.js): what one call of
    `cacheResourceToS3` does to the store and returns (`CacheStep`), and what
    the worker pool of `batchCacheResources` computes (`BatchSpec`). The
    imperative methods of each proxy are proved equal to these functions; the
    lemmas here state what the functions mean. */
module CachingCore {
  import opened Wrappers
  import opened Strs
  import opened Seqs
  import opened S3Store
  import opened CacheKeys

  /** The store configuration each proxy reads; absent settings are "" except
      the public endpoint, whose absence makes `buildPublicUrl` throw. */
  datatype S3Config = S3Config(
    endpointInternal: string,
    endpointPublic: Option<string>,
    bucket: string,
    accessKeyId: string,
    secretAccessKey: string,
    publicBase: string)

  /** Why caching one URL threw. */
  datatype CacheError =
    | MissingS3Config            // createS3Client: endpoint or credentials missing
    | InvalidUrl                 // new URL(url) threw (Pixiv key)
    | S3OperationFailed(cause: string) // the wrapped error of the existence/download/upload block
    | NoPublicEndpoint           // buildPublicUrl on an undefined endpoint

  /** Caching is a passthrough unless the internal endpoint and the bucket are set. */
  predicate Configured(cfg: S3Config) {
    cfg.endpointInternal != "" && cfg.bucket != ""
  }

  /** The content type `downloadResource` reports: the response header, else
      the guess from the URL's extension, else the generic binary type. */
  function ContentType(header: string, guessed: string): (ct: string)
    ensures ct != ""
    ensures header != "" ==> ct == header
    ensures header == "" ==> ct == (if guessed != "" then guessed else OctetStream)
  {
    if header != "" then header else if guessed != "" then guessed else OctetStream
  }

  datatype Downloaded = Downloaded(buffer: seq<byte>, contentType: string)

  /** `downloadResource(url, headers)`: the bytes and the resolved content type,
      or the request's error message. */
  function DownloadResource(env: Env, url: string, headers: Headers): (r: Result<Downloaded, string>)
    ensures env.get(url, headers).Failure? <==> r.Failure?
    ensures r.Success? ==> r.value.buffer == env.get(url, headers).value.data && r.value.contentType != ""
  {
    match env.get(url, headers)
    case Failure(msg) => Failure(msg)
    case Success(resp) => Success(Downloaded(resp.data, ContentType(resp.contentType, env.mimeLookup(url))))
  }

  /** The outcome of caching one URL: what it returned (or threw), the store
      afterwards, and the requests it sent, in order. */
  datatype Step = Step(result: Result<string, CacheError>, objects: Objects, calls: seq<Call>)

  /** The `try` block of `cacheResourceToS3`: check, and on a miss download and
      upload under `key`; any failure is rethrown wrapped. */
  function StoreIfMissing(env: Env, objects: Objects, url: string, key: string, headers: Headers): Step {
    if ObjectExists(env, objects, key) then Step(Success(key), objects, [HeadObject(key)])
    else
      match DownloadResource(env, url, headers)
      case Failure(msg) => Step(Failure(S3OperationFailed(msg)), objects, [HeadObject(key), Download(url)])
      case Success(d) =>
        var calls := [HeadObject(key), Download(url), PutObject(key)];
        if env.putFails(key) then Step(Failure(S3OperationFailed("PutObject failed")), objects, calls)
        else Step(Success(key), objects[key := StoredObject(d.buffer, PutContentType(d.contentType), ImmutableCacheControl)], calls)
  }

  /** `cacheResourceToS3(url, ...)` with the key already derived (`key`, which
      may itself have failed) and the headers the download uses. */
  function CacheStep(cfg: S3Config, env: Env, objects: Objects, url: string,
                     key: Result<string, CacheError>, headers: Headers): Step
  {
    if !Configured(cfg) then Step(Success(url), objects, [])
    else if !ClientConfigOk(cfg.endpointInternal, cfg.accessKeyId, cfg.secretAccessKey) then
      Step(Failure(MissingS3Config), objects, [])
    else if key.Failure? then Step(Failure(key.error), objects, [])
    else
      var t := StoreIfMissing(env, objects, url, key.value, headers);
      if t.result.Failure? then t
      else match BuildPublicUrl(cfg.publicBase, cfg.endpointPublic, cfg.bucket, key.value)
        case None => Step(Failure(NoPublicEndpoint), t.objects, t.calls)
        case Some(publicUrl) => Step(Success(publicUrl), t.objects, t.calls)
  }

  /** The `try` block of `cacheResourceToS3` against the store: `objectExists`,
      then on a miss `downloadResource` and `putObject`. `calls` are the
      requests sent, in order. */
  method TryStore(store: ObjectStore, env: Env, url: string, key: string, headers: Headers)
    returns (r: Result<string, CacheError>, ghost calls: seq<Call>)
    modifies store
    ensures Step(r, store.objects, calls) == StoreIfMissing(env, old(store.objects), url, key, headers)
  {
    var found := store.Exists(env, key);
    calls := [HeadObject(key)];
    if !found {
      var got := DownloadResource(env, url, headers);
      calls := calls + [Download(url)];
      if got.Failure? {
        return Failure(S3OperationFailed(got.error)), calls;
      }
      var ok := store.Put(env, key, got.value.buffer, got.value.contentType);
      calls := calls + [PutObject(key)];
      if !ok {
        return Failure(S3OperationFailed("PutObject failed")), calls;
      }
    }
    r := Success(key);
  }

  /** Caching with an unconfigured store returns the URL unchanged and sends nothing. */
  lemma CachePassthrough(cfg: S3Config, env: Env, objects: Objects, url: string, key: Result<string, CacheError>, headers: Headers)
    requires !Configured(cfg)
    ensures CacheStep(cfg, env, objects, url, key, headers) == Step(Success(url), objects, [])
  {}

  /** On a hit only the existence check is sent and the store is unchanged. */
  lemma CacheHit(cfg: S3Config, env: Env, objects: Objects, url: string, key: string, headers: Headers)
    requires Configured(cfg) && ClientConfigOk(cfg.endpointInternal, cfg.accessKeyId, cfg.secretAccessKey)
    requires ObjectExists(env, objects, key)
    ensures var s := CacheStep(cfg, env, objects, url, Success(key), headers);
            s.objects == objects && s.calls == [HeadObject(key)]
            && (s.result.Success? <==> BuildPublicUrl(cfg.publicBase, cfg.endpointPublic, cfg.bucket, key).Some?)
  {}

  /** On a miss the URL is downloaded with the given headers and, if that
      worked, uploaded under the same key; a failure of either is wrapped and
      leaves the store as it was. */
  lemma CacheMiss(cfg: S3Config, env: Env, objects: Objects, url: string, key: string, headers: Headers)
    requires Configured(cfg) && ClientConfigOk(cfg.endpointInternal, cfg.accessKeyId, cfg.secretAccessKey)
    requires !ObjectExists(env, objects, key)
    ensures var s := CacheStep(cfg, env, objects, url, Success(key), headers);
            var got := env.get(url, headers);
            && s.calls == [HeadObject(key), Download(url)] + (if got.Success? then [PutObject(key)] else [])
            && (got.Failure? ==> s.objects == objects && s.result == Failure(S3OperationFailed(got.error)))
            && (got.Success? && env.putFails(key) ==> s.objects == objects && s.result.Failure? && s.result.error.S3OperationFailed?)
            && (got.Success? && !env.putFails(key) ==>
                  s.objects == objects[key := StoredObject(got.value.data,
                      ContentType(got.value.contentType, env.mimeLookup(url)), ImmutableCacheControl)])
  {}

  /** A successful call returns the public URL of its key, and that key is in
      the store afterwards. */
  lemma CacheSuccess(cfg: S3Config, env: Env, objects: Objects, url: string, key: Result<string, CacheError>, headers: Headers)
    requires Configured(cfg)
    requires CacheStep(cfg, env, objects, url, key, headers).result.Success?
    ensures var s := CacheStep(cfg, env, objects, url, key, headers);
            && key.Success? && key.value in s.objects
            && Some(s.result.value) == BuildPublicUrl(cfg.publicBase, cfg.endpointPublic, cfg.bucket, key.value)
            && EndsWith(s.result.value, "/" + key.value)
  {}

  /** One call writes at most its own key and never removes anything. */
  lemma CacheTouchesOnlyItsKey(cfg: S3Config, env: Env, objects: Objects, url: string, key: Result<string, CacheError>, headers: Headers)
    ensures var s := CacheStep(cfg, env, objects, url, key, headers);
            && objects.Keys <= s.objects.Keys
            && forall k :: k in s.objects && (key.Failure? || k != key.value) ==> k in objects && s.objects[k] == objects[k]
  {}

  /** A batch entry: the URL itself when caching threw. */
  function Fallback(r: Result<string, CacheError>, u: string): string {
    if r.Success? then r.value else u
  }

  /** The entries of the returned `Map` in insertion order, the store
      afterwards and every request sent. */
  datatype Batch = Batch(entries: seq<(string, string)>, objects: Objects, calls: seq<Call>)

  /** The queue processed claim by claim: each claimed URL is cached against
      the store left by the previous claims. */
  function RunQueue(step: (Objects, string) -> Step, objects: Objects, queue: seq<string>): Batch
    decreases |queue|
  {
    if queue == [] then Batch([], objects, [])
    else
      var before := RunQueue(step, objects, queue[..|queue| - 1]);
      var u := queue[|queue| - 1];
      var s := step(before.objects, u);
      Batch(before.entries + [(u, Fallback(s.result, u))], s.objects, before.calls + s.calls)
  }

  /** Extending the processed prefix of the queue by one claim. */
  lemma RunQueueSnoc(step: (Objects, string) -> Step, objects: Objects, queue: seq<string>, i: nat)
    requires i < |queue|
    ensures var before := RunQueue(step, objects, queue[..i]);
            var s := step(before.objects, queue[i]);
            RunQueue(step, objects, queue[..i + 1])
            == Batch(before.entries + [(queue[i], Fallback(s.result, queue[i]))], s.objects, before.calls + s.calls)
  {
    assert queue[..i + 1][..i] == queue[..i];
  }

  /** `Math.min(concurrency, queue.length)` as an array length: never negative. */
  function WorkerCount(concurrency: int, n: nat): (w: nat)
    ensures w <= n
    ensures concurrency >= 1 && n >= 1 ==> w >= 1
    ensures concurrency <= 0 ==> w == 0
  {
    if concurrency < n then (if concurrency <= 0 then 0 else concurrency) else n
  }

  /** What `batchCacheResources(urls, ...)` returns and leaves behind, for one
      call of `step` per distinct URL; with no worker nothing runs. */
  function BatchSpec(step: (Objects, string) -> Step, objects: Objects, urls: seq<string>, concurrency: int): Batch {
    var queue := Dedup(urls);
    if WorkerCount(concurrency, |queue|) == 0 then Batch([], objects, [])
    else RunQueue(step, objects, queue)
  }

  /** The outcome of a pool that ran no worker, or drained the whole queue. */
  lemma BatchOfRun(step: (Objects, string) -> Step, objects: Objects, urls: seq<string>, concurrency: int, b: Batch)
    requires WorkerCount(concurrency, |Dedup(urls)|) == 0 ==> b == Batch([], objects, [])
    requires WorkerCount(concurrency, |Dedup(urls)|) > 0 ==> b == RunQueue(step, objects, Dedup(urls))
    ensures b == BatchSpec(step, objects, urls, concurrency)
  {}

  /** The per-URL step of a proxy whose keys and download headers are given per URL. */
  function CacheStepFn(cfg: S3Config, env: Env, keyOf: string -> Result<string, CacheError>,
                       headersOf: string -> Headers): (Objects, string) -> Step
  {
    (o: Objects, u: string) => CacheStep(cfg, env, o, u, keyOf(u), headersOf(u))
  }

  /** The `i`-th entry of a run is the `i`-th queued URL, mapped to what caching
      it returned against the store left by the entries before it, or to itself. */
  lemma {:induction false} RunQueueEntries(step: (Objects, string) -> Step, objects: Objects, queue: seq<string>)
    ensures |RunQueue(step, objects, queue).entries| == |queue|
    ensures forall i :: 0 <= i < |queue| ==>
              RunQueue(step, objects, queue).entries[i]
              == (queue[i], Fallback(step(RunQueue(step, objects, queue[..i]).objects, queue[i]).result, queue[i]))
    decreases |queue|
  {
    if queue != [] {
      var n := |queue| - 1;
      var init := queue[..n];
      RunQueueEntries(step, objects, init);
      var b0 := RunQueue(step, objects, init);
      assert RunQueue(step, objects, queue).entries == b0.entries + [(queue[n], Fallback(step(b0.objects, queue[n]).result, queue[n]))];
      forall i | 0 <= i < |queue|
        ensures RunQueue(step, objects, queue).entries[i]
                == (queue[i], Fallback(step(RunQueue(step, objects, queue[..i]).objects, queue[i]).result, queue[i]))
      {
        if i < n {
          assert init[..i] == queue[..i] && init[i] == queue[i];
        } else {
          assert queue[..i] == init;
        }
      }
    }
  }

  /** With at least one worker the batch has exactly one entry per distinct
      input URL, in queue order, each mapped to its cached URL or to itself:
      one failing URL never aborts the batch. With no worker the map is empty
      and the store untouched. */
  lemma BatchEntries(step: (Objects, string) -> Step, objects: Objects, urls: seq<string>, concurrency: int)
    ensures var b := BatchSpec(step, objects, urls, concurrency);
            var queue := Dedup(urls);
            && (concurrency <= 0 || urls == [] ==> b == Batch([], objects, []))
            && (concurrency >= 1 ==>
                 && |b.entries| == |queue|
                 && (forall i :: 0 <= i < |queue| ==> b.entries[i].0 == queue[i])
                 && (forall i :: 0 <= i < |queue| ==>
                       b.entries[i].1 == queue[i]
                       || step(RunQueue(step, objects, queue[..i]).objects, queue[i]).result == Success(b.entries[i].1)))
  {
    RunQueueEntries(step, objects, Dedup(urls));
  }

  /** The keys of the batch's map are exactly the distinct input URLs. */
  lemma BatchKeysAreInputUrls(step: (Objects, string) -> Step, objects: Objects, urls: seq<string>, concurrency: int)
    requires concurrency >= 1
    ensures var b := BatchSpec(step, objects, urls, concurrency);
            && (forall i, j :: 0 <= i < j < |b.entries| ==> b.entries[i].0 != b.entries[j].0)
            && (forall k :: 0 <= k < |urls| ==> exists i :: 0 <= i < |b.entries| && b.entries[i].0 == urls[k])
            && (forall i :: 0 <= i < |b.entries| ==> b.entries[i].0 in urls)
  {
    var queue := Dedup(urls);
    BatchEntries(step, objects, urls, concurrency);
    var b := BatchSpec(step, objects, urls, concurrency);
    forall k | 0 <= k < |urls| ensures exists i :: 0 <= i < |b.entries| && b.entries[i].0 == urls[k] {
      var i :| 0 <= i < |queue| && queue[i] == urls[k];
      assert b.entries[i].0 == urls[k];
    }
  }

  /** An unconfigured store turns the batch into the identity map and sends nothing. */
  lemma {:induction false} UnconfiguredRunIsIdentity(cfg: S3Config, env: Env, keyOf: string -> Result<string, CacheError>,
                                                     headersOf: string -> Headers, objects: Objects, queue: seq<string>)
    requires !Configured(cfg)
    ensures var b := RunQueue(CacheStepFn(cfg, env, keyOf, headersOf), objects, queue);
            && b.objects == objects && b.calls == []
            && |b.entries| == |queue| && forall i :: 0 <= i < |queue| ==> b.entries[i] == (queue[i], queue[i])
    decreases |queue|
  {
    if queue != [] {
      var init := queue[..|queue| - 1];
      UnconfiguredRunIsIdentity(cfg, env, keyOf, headersOf, objects, init);
      forall i | 0 <= i < |queue| - 1 ensures init[i] == queue[i] {}
    }
  }

  /** With no store configured, a batch of one URL returns that URL as its
      sole entry, stores nothing and sends nothing, whatever the proxy's keys
      and headers. */
  lemma SingleUrlPassthrough(cfg: S3Config, env: Env, keyOf: string -> Result<string, CacheError>,
                             headersOf: string -> Headers, objects: Objects, u: string, concurrency: int)
    requires !Configured(cfg) && concurrency >= 1
    ensures BatchSpec(CacheStepFn(cfg, env, keyOf, headersOf), objects, [u], concurrency) == Batch([(u, u)], objects, [])
  {
    assert Dedup([u]) == [u] by {
      assert [u][..0] == [];
    }
    UnconfiguredRunIsIdentity(cfg, env, keyOf, headersOf, objects, [u]);
  }

  /** Caching a URL whose existence check fails and whose download fails
      falls back to the URL itself, whatever the store holds. */
  lemma BrokenUrlFallsBack(cfg: S3Config, env: Env, objects: Objects, u: string, key: Result<string, CacheError>, headers: Headers)
    requires key.Success? && env.headFails(key.value) && env.get(u, headers).Failure?
    ensures Fallback(CacheStep(cfg, env, objects, u, key, headers).result, u) == u
  {}

  /** A URL whose existence check fails and whose download fails maps to
      itself, and the batch still has one entry per distinct URL: one broken
      URL degrades its own entry and aborts nothing. */
  lemma DownloadFailureDegrades(cfg: S3Config, env: Env, keyOf: string -> Result<string, CacheError>,
                                headersOf: string -> Headers, objects: Objects, urls: seq<string>, concurrency: int, i: nat)
    requires concurrency >= 1 && i < |Dedup(urls)|
    requires keyOf(Dedup(urls)[i]).Success? && env.headFails(keyOf(Dedup(urls)[i]).value)
    requires env.get(Dedup(urls)[i], headersOf(Dedup(urls)[i])).Failure?
    ensures var b := BatchSpec(CacheStepFn(cfg, env, keyOf, headersOf), objects, urls, concurrency);
            |b.entries| == |Dedup(urls)| && b.entries[i] == (Dedup(urls)[i], Dedup(urls)[i])
  {
    var step := CacheStepFn(cfg, env, keyOf, headersOf);
    var queue := Dedup(urls);
    var u := queue[i];
    RunQueueEntries(step, objects, queue);
    var before := RunQueue(step, objects, queue[..i]).objects;
    BrokenUrlFallsBack(cfg, env, before, u, keyOf(u), headersOf(u));
    assert step(before, u) == CacheStep(cfg, env, before, u, keyOf(u), headersOf(u));
    assert BatchSpec(step, objects, urls, concurrency) == RunQueue(step, objects, queue);
  }

  ghost predicate NoTransfers(calls: seq<Call>) {
    forall i :: 0 <= i < |calls| ==> calls[i].HeadObject?
  }

  /** Every key the URLs name is already stored and answers its existence check. */
  ghost predicate AllCached(env: Env, keyOf: string -> Result<string, CacheError>, objects: Objects, queue: seq<string>) {
    forall i :: 0 <= i < |queue| && keyOf(queue[i]).Success? ==> ObjectExists(env, objects, keyOf(queue[i]).value)
  }

  /** When every key is already cached the run downloads and uploads nothing
      and leaves the store as it was. */
  lemma {:induction false} CachedRunTransfersNothing(cfg: S3Config, env: Env, keyOf: string -> Result<string, CacheError>,
                                                     headersOf: string -> Headers, objects: Objects, queue: seq<string>)
    requires AllCached(env, keyOf, objects, queue)
    ensures var b := RunQueue(CacheStepFn(cfg, env, keyOf, headersOf), objects, queue);
            b.objects == objects && NoTransfers(b.calls)
    decreases |queue|
  {
    if queue != [] {
      var init := queue[..|queue| - 1];
      var u := queue[|queue| - 1];
      assert AllCached(env, keyOf, objects, init) by {
        forall i | 0 <= i < |init| ensures init[i] == queue[i] {}
      }
      CachedRunTransfersNothing(cfg, env, keyOf, headersOf, objects, init);
      var s := CacheStepFn(cfg, env, keyOf, headersOf)(objects, u);
      assert s.objects == objects && NoTransfers(s.calls);
    }
  }

  /** No download or upload fails and every existence check answers truthfully. */
  ghost predicate HealthyNetwork(cfg: S3Config, env: Env, keyOf: string -> Result<string, CacheError>, headersOf: string -> Headers, queue: seq<string>) {
    && (forall k :: !env.headFails(k) && !env.putFails(k))
    && (forall i :: 0 <= i < |queue| ==> env.get(queue[i], headersOf(queue[i])).Success?)
  }

  /** After a run on a configured store over a healthy network, every key the
      queue names is stored. */
  lemma {:induction false} RunStoresEveryKey(cfg: S3Config, env: Env, keyOf: string -> Result<string, CacheError>,
                                             headersOf: string -> Headers, objects: Objects, queue: seq<string>)
    requires Configured(cfg) && ClientConfigOk(cfg.endpointInternal, cfg.accessKeyId, cfg.secretAccessKey)
    requires HealthyNetwork(cfg, env, keyOf, headersOf, queue)
    ensures var b := RunQueue(CacheStepFn(cfg, env, keyOf, headersOf), objects, queue);
            && objects.Keys <= b.objects.Keys
            && AllCached(env, keyOf, b.objects, queue)
    decreases |queue|
  {
    if queue != [] {
      var init := queue[..|queue| - 1];
      var u := queue[|queue| - 1];
      assert HealthyNetwork(cfg, env, keyOf, headersOf, init) by {
        forall i | 0 <= i < |init| ensures init[i] == queue[i] {}
      }
      RunStoresEveryKey(cfg, env, keyOf, headersOf, objects, init);
      var before := RunQueue(CacheStepFn(cfg, env, keyOf, headersOf), objects, init);
      var s := CacheStepFn(cfg, env, keyOf, headersOf)(before.objects, u);
      CacheTouchesOnlyItsKey(cfg, env, before.objects, u, keyOf(u), headersOf(u));
      forall i | 0 <= i < |queue| && keyOf(queue[i]).Success?
        ensures ObjectExists(env, s.objects, keyOf(queue[i]).value)
      {
        if i < |init| {
          assert init[i] == queue[i];
        }
      }
    }
  }

  /** Running the same batch twice over a healthy network with one key
      derivation: the second run downloads and uploads nothing and leaves the
      store as the first left it. A derivation that reads the clock (the Pixiv
      `unknown_<now>` fallback) is a different `keyOf` on the second run. */
  lemma RerunTransfersNothing(cfg: S3Config, env: Env, keyOf: string -> Result<string, CacheError>,
                              headersOf: string -> Headers, objects: Objects, urls: seq<string>, concurrency: int)
    requires Configured(cfg) && ClientConfigOk(cfg.endpointInternal, cfg.accessKeyId, cfg.secretAccessKey)
    requires HealthyNetwork(cfg, env, keyOf, headersOf, Dedup(urls))
    ensures var step := CacheStepFn(cfg, env, keyOf, headersOf);
            var first := BatchSpec(step, objects, urls, concurrency);
            var second := BatchSpec(step, first.objects, urls, concurrency);
            second.objects == first.objects && NoTransfers(second.calls)
  {
    var queue := Dedup(urls);
    if WorkerCount(concurrency, |queue|) > 0 {
      RunStoresEveryKey(cfg, env, keyOf, headersOf, objects, queue);
      var first := RunQueue(CacheStepFn(cfg, env, keyOf, headersOf), objects, queue);
      CachedRunTransfersNothing(cfg, env, keyOf, headersOf, first.objects, queue);
    }
  }
}
