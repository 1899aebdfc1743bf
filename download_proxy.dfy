/** The module-level caching proxy of src/downloadProxy.js: the same steps as
    the `ResourceProxy` class without the overridable hooks. The store
    configuration is read from the application settings at every call; here
    it is a parameter. */
module DownloadProxy {
  import opened Wrappers
  import opened Seqs
  import opened S3Store
  import opened CacheKeys
  import opened CachingCore

  /** The per-URL step of this module: keys by `generateKey`, downloads with
      the caller's headers unchanged. */
  function StepOf(cfg: S3Config, env: Env, prefix: string, headers: Headers, sourceId: Option<string>): (Objects, string) -> Step {
    CacheStepFn(cfg, env, u => Success(GenerateKey(u, prefix, sourceId, env.md5hex)), u => headers)
  }

  lemma StepOfApplies(cfg: S3Config, env: Env, prefix: string, headers: Headers, sourceId: Option<string>, objects: Objects, u: string)
    ensures StepOf(cfg, env, prefix, headers, sourceId)(objects, u)
            == CacheStep(cfg, env, objects, u, Success(GenerateKey(u, prefix, sourceId, env.md5hex)), headers)
  {}

  /** `cacheResourceToS3(url, prefix, headers, sourceId)`. `calls` are the
      requests sent, in order. */
  method CacheResourceToS3(cfg: S3Config, store: ObjectStore, env: Env, url: string, prefix: string, headers: Headers,
                           sourceId: Option<string>)
    returns (r: Result<string, CacheError>, ghost calls: seq<Call>)
    modifies store
    ensures Step(r, store.objects, calls)
            == CacheStep(cfg, env, old(store.objects), url, Success(GenerateKey(url, prefix, sourceId, env.md5hex)), headers)
  {
    calls := [];
    if cfg.endpointInternal == "" || cfg.bucket == "" {
      return Success(url), calls;
    }
    if !ClientConfigOk(cfg.endpointInternal, cfg.accessKeyId, cfg.secretAccessKey) {
      return Failure(MissingS3Config), calls;
    }
    var key := GenerateKey(url, prefix, sourceId, env.md5hex);
    var t;
    t, calls := TryStore(store, env, url, key, headers);
    if t.Failure? {
      return t, calls;
    }
    var publicUrl := BuildPublicUrl(cfg.publicBase, cfg.endpointPublic, cfg.bucket, key);
    if publicUrl.None? {
      r := Failure(NoPublicEndpoint);
    } else {
      r := Success(publicUrl.value);
    }
  }

  /** The `worker` closure: claim `idx++` until the cursor leaves the queue,
      pushing one entry per claim. */
  method Worker(cfg: S3Config, store: ObjectStore, env: Env, queue: seq<string>, prefix: string, headers: Headers,
                sourceId: Option<string>, ghost start: Objects, idx0: nat, results0: seq<(string, string)>,
                ghost calls0: seq<Call>, ghost claims0: seq<nat>)
    returns (idx: nat, results: seq<(string, string)>, ghost calls: seq<Call>, ghost claims: seq<nat>)
    requires idx0 <= |queue|
    requires |claims0| == idx0 && forall j :: 0 <= j < idx0 ==> claims0[j] == j
    requires Batch(results0, store.objects, calls0) == RunQueue(StepOf(cfg, env, prefix, headers, sourceId), start, queue[..idx0])
    modifies store
    ensures idx == |queue|
    ensures |claims| == idx && forall j :: 0 <= j < idx ==> claims[j] == j
    ensures Batch(results, store.objects, calls) == RunQueue(StepOf(cfg, env, prefix, headers, sourceId), start, queue)
  {
    ghost var step := StepOf(cfg, env, prefix, headers, sourceId);
    idx, results, calls, claims := idx0, results0, calls0, claims0;
    while idx < |queue|
      invariant idx <= |queue|
      invariant |claims| == idx && forall j :: 0 <= j < idx ==> claims[j] == j
      invariant Batch(results, store.objects, calls) == RunQueue(step, start, queue[..idx])
    {
      var i := idx;
      idx := idx + 1;
      claims := claims + [i];
      var u := queue[i];
      ghost var before := store.objects;
      var r, c := CacheResourceToS3(cfg, store, env, u, prefix, headers, sourceId);
      StepOfApplies(cfg, env, prefix, headers, sourceId, before, u);
      results := results + [(u, if r.Success? then r.value else u)];
      calls := calls + c;
      RunQueueSnoc(step, start, queue, i);
    }
    assert queue[..idx] == queue;
  }

  /** `batchCacheResources(urls, prefix, headers, concurrency, sourceId)`:
      `Math.min(concurrency, queue.length)` workers over the de-duplicated
      queue, run in the sequential schedule, where each claimed URL is cached
      before the next claim (the source's workers overlap; the outcome is the
      same when the keys are distinct). `claims` are the indices in the order
      handed out and `cursor` is the final `idx`. */
  method BatchCacheResources(cfg: S3Config, store: ObjectStore, env: Env, urls: seq<string>, prefix: string,
                             headers: Headers, concurrency: int, sourceId: Option<string>)
    returns (results: seq<(string, string)>, ghost calls: seq<Call>, ghost claims: seq<nat>, ghost cursor: nat)
    modifies store
    ensures Batch(results, store.objects, calls) == BatchSpec(StepOf(cfg, env, prefix, headers, sourceId), old(store.objects), urls, concurrency)
    ensures concurrency >= 1 ==> |claims| == |Dedup(urls)| && (forall j :: 0 <= j < |claims| ==> claims[j] == j) && cursor >= |Dedup(urls)|
  {
    var queue := Dedup(urls);
    var idx := 0;
    results, calls, claims := [], [], [];
    ghost var start := store.objects;
    assert queue[..idx] == [];
    var workers := WorkerCount(concurrency, |queue|);
    var w := 0;
    while w < workers
      invariant 0 <= w <= workers && idx <= |queue|
      invariant idx == if w == 0 then 0 else |queue|
      invariant |claims| == idx && forall j :: 0 <= j < idx ==> claims[j] == j
      invariant Batch(results, store.objects, calls) == RunQueue(StepOf(cfg, env, prefix, headers, sourceId), start, queue[..idx])
    {
      idx, results, calls, claims := Worker(cfg, store, env, queue, prefix, headers, sourceId, start, idx, results, calls, claims);
      assert queue[..idx] == queue;
      w := w + 1;
    }
    if workers > 0 {
      assert queue[..idx] == queue;
    }
    BatchOfRun(StepOf(cfg, env, prefix, headers, sourceId), start, urls, concurrency, Batch(results, store.objects, calls));
    cursor := idx;
  }

  /** Without a truthy source id the module's step names the same key for a
      URL however it is asked, so repeated batches hit the same objects. */
  lemma HashedStepIgnoresSourceId(cfg: S3Config, env: Env, prefix: string, headers: Headers,
                                  s1: Option<string>, s2: Option<string>, objects: Objects, u: string)
    requires !Truthy(s1) && !Truthy(s2)
    ensures StepOf(cfg, env, prefix, headers, s1)(objects, u) == StepOf(cfg, env, prefix, headers, s2)(objects, u)
  {
    HashedKeyIgnoresSourceId(u, prefix, s1, s2, env.md5hex);
  }
}
