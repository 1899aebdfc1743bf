/** The `ResourceProxy` class (src/resourceProxy.js): the per-URL caching
    step and the batch worker pool over one object store. A subclass changes
    two hooks, the key naming and the download headers; `Hooks` says which
    version of them an instance runs, so the Pixiv subclass
    (src/pixivProxy.js) reuses the parent's methods unchanged. */
module Proxy {
  import opened Wrappers
  import opened Strs
  import opened Seqs
  import opened S3Store
  import opened CacheKeys
  import opened CachingCore
  import opened PixivNames

  /** The overridable methods: the parent's own, or the Pixiv overrides with
      the cookie the subclass read at construction. */
  datatype Hooks = Default | PixivHooks(pixivCookie: string)

  /** `generateKey(url, prefix, sourceId)` as the instance dispatches it. The
      Pixiv override parses the URL, which throws on a malformed one. */
  function KeyFor(hooks: Hooks, env: Env, url: string, prefix: string, sourceId: Option<string>): (r: Result<string, CacheError>)
    ensures r.Failure? ==> hooks.PixivHooks? && r.error == InvalidUrl
    ensures hooks.Default? ==> r.Success? && StartsWith(r.value, "cache/" + prefix + "/")
    ensures hooks.PixivHooks? ==> (r.Success? <==> env.pathname(url).Some?)
    ensures r.Success? && hooks.PixivHooks? ==> StartsWith(r.value, "cache/pixiv/")
  {
    match hooks
    case Default => Success(CacheKeys.GenerateKey(url, prefix, sourceId, env.md5hex))
    case PixivHooks(_) =>
      match env.pathname(url)
      case None => Failure(InvalidUrl)
      case Some(path) => Success(PixivKey(path, env.now))
  }

  /** `getDownloadHeaders(url, headers)`: the parent passes the caller's
      headers through; the override adds `Referer` and `Cookie` beneath them. */
  function DownloadHeadersFor(hooks: Hooks, headers: Headers): (h: Headers)
    ensures headers.Keys <= h.Keys && forall k :: k in headers ==> h[k] == headers[k]
    ensures hooks.Default? ==> h == headers
    ensures hooks.PixivHooks? ==> h.Keys == headers.Keys + {"Referer", "Cookie"}
    ensures hooks.PixivHooks? && "Referer" !in headers ==> h["Referer"] == PixivReferer
    ensures hooks.PixivHooks? && "Cookie" !in headers ==> h["Cookie"] == hooks.pixivCookie
  {
    match hooks
    case Default => headers
    case PixivHooks(cookie) => PixivHeaders(cookie, headers)
  }

  /** The Pixiv key of a URL ignores the prefix and source id it is asked with. */
  lemma PixivKeyIgnoresCaller(cookie: string, env: Env, url: string, p1: string, p2: string, s1: Option<string>, s2: Option<string>)
    ensures KeyFor(PixivHooks(cookie), env, url, p1, s1) == KeyFor(PixivHooks(cookie), env, url, p2, s2)
  {}

  /** The parent's key: the documented layout with the optional source-id directory. */
  lemma DefaultKeyLayout(env: Env, url: string, prefix: string, sourceId: Option<string>)
    ensures var r := KeyFor(Default, env, url, prefix, sourceId);
            && r.Success?
            && (Truthy(sourceId) ==> r.value == "cache/" + prefix + "/" + sourceId.value + "/" + FileStem(url) + "." + Extension(url))
            && (!Truthy(sourceId) ==> r.value == "cache/" + prefix + "/" + env.md5hex(url) + "." + Extension(url))
  {
    var name := KeyName(url, sourceId, env.md5hex);
    assert KeyFor(Default, env, url, prefix, sourceId) == Success("cache/" + prefix + "/" + name + "." + Extension(url));
    if Truthy(sourceId) {
      assert name == sourceId.value + "/" + FileStem(url);
    }
  }

  class ResourceProxy {
    const config: S3Config
    const hooks: Hooks

    constructor (config: S3Config, hooks: Hooks)
      ensures this.config == config && this.hooks == hooks
    {
      this.config := config;
      this.hooks := hooks;
    }

    /** What one call of `CacheResourceToS3` does, as a function of the store; the
        batch's specification runs it once per claimed URL. */
    function StepOf(env: Env, prefix: string, headers: Headers, sourceId: Option<string>): (Objects, string) -> Step {
      CacheStepFn(config, env, u => KeyFor(hooks, env, u, prefix, sourceId), u => DownloadHeadersFor(hooks, headers))
    }

    /** `cacheResourceToS3(url, prefix, headers, sourceId)`: passthrough on an
        unconfigured store; otherwise build the client, derive the key, check,
        download and upload on a miss, and return the public URL. `calls` are
        the requests sent, in order. */
    method CacheResourceToS3(store: ObjectStore, env: Env, url: string, prefix: string, headers: Headers, sourceId: Option<string>)
      returns (r: Result<string, CacheError>, ghost calls: seq<Call>)
      modifies store
      ensures Step(r, store.objects, calls)
              == CacheStep(config, env, old(store.objects), url, KeyFor(hooks, env, url, prefix, sourceId), DownloadHeadersFor(hooks, headers))
    {
      calls := [];
      if config.endpointInternal == "" || config.bucket == "" {
        return Success(url), calls;
      }
      if !ClientConfigOk(config.endpointInternal, config.accessKeyId, config.secretAccessKey) {
        return Failure(MissingS3Config), calls;
      }
      var key := KeyFor(hooks, env, url, prefix, sourceId);
      if key.Failure? {
        return Failure(key.error), calls;
      }
      var k := key.value;
      var t;
      t, calls := TryStore(store, env, url, k, DownloadHeadersFor(hooks, headers));
      if t.Failure? {
        return t, calls;
      }
      var publicUrl := BuildPublicUrl(config.publicBase, config.endpointPublic, config.bucket, k);
      if publicUrl.None? {
        r := Failure(NoPublicEndpoint);
      } else {
        r := Success(publicUrl.value);
      }
    }

    /** The `worker` closure of `batchCacheResources`: claim `idx++` while the
        cursor is inside the queue and push the claimed URL's entry. The cursor
        and the results are shared by all workers; the processed prefix is
        `queue[..idx]` on entry and the whole queue on exit. */
    method Worker(store: ObjectStore, env: Env, queue: seq<string>, prefix: string, headers: Headers, sourceId: Option<string>,
                  ghost start: Objects, idx0: nat, entries0: seq<(string, string)>, ghost calls0: seq<Call>, ghost claims0: seq<nat>)
      returns (idx: nat, entries: seq<(string, string)>, ghost calls: seq<Call>, ghost claims: seq<nat>)
      requires idx0 <= |queue|
      requires |claims0| == idx0 && forall j :: 0 <= j < idx0 ==> claims0[j] == j
      requires Batch(entries0, store.objects, calls0) == RunQueue(StepOf(env, prefix, headers, sourceId), start, queue[..idx0])
      modifies store
      ensures idx == |queue|
      ensures |claims| == idx && forall j :: 0 <= j < idx ==> claims[j] == j
      ensures Batch(entries, store.objects, calls) == RunQueue(StepOf(env, prefix, headers, sourceId), start, queue)
    {
      ghost var step := StepOf(env, prefix, headers, sourceId);
      idx, entries, calls, claims := idx0, entries0, calls0, claims0;
      while idx < |queue|
        invariant idx <= |queue|
        invariant |claims| == idx && forall j :: 0 <= j < idx ==> claims[j] == j
        invariant Batch(entries, store.objects, calls) == RunQueue(step, start, queue[..idx])
      {
        var i := idx;
        idx := idx + 1;
        claims := claims + [i];
        var u := queue[i];
        ghost var before := store.objects;
        var r, c := CacheResourceToS3(store, env, u, prefix, headers, sourceId);
        assert Step(r, store.objects, c) == step(before, u);
        entries := entries + [(u, if r.Success? then r.value else u)];
        calls := calls + c;
        RunQueueSnoc(step, start, queue, i);
      }
      assert queue[..idx] == queue;
    }

    /** `batchCacheResources(urls, prefix, headers, concurrency, sourceId)`:
        `Math.min(concurrency, queue.length)` workers share the cursor `idx`
        over the de-duplicated queue; every claimed URL is cached and its
        entry pushed, the URL itself when caching threw. The model runs the
        sequential schedule, in which each claimed URL is cached before the
        next claim. It is not the schedule of the source, where every worker
        claims an index before its first `await`; the outcome is the same
        when the batch's keys are distinct (see CacheTouchesOnlyItsKey).
        `claims` lists the indices in the order they were handed out and
        `cursor` is the final `idx`. */
    method BatchCacheResources(store: ObjectStore, env: Env, urls: seq<string>, prefix: string, headers: Headers,
                               concurrency: int, sourceId: Option<string>)
      returns (entries: seq<(string, string)>, ghost calls: seq<Call>, ghost claims: seq<nat>, ghost cursor: nat)
      modifies store
      ensures Batch(entries, store.objects, calls) == BatchSpec(StepOf(env, prefix, headers, sourceId), old(store.objects), urls, concurrency)
      ensures concurrency >= 1 ==> |claims| == |Dedup(urls)| && (forall j :: 0 <= j < |claims| ==> claims[j] == j) && cursor >= |Dedup(urls)|
    {
      var queue := Dedup(urls);
      var idx := 0;
      entries, calls, claims := [], [], [];
      ghost var start := store.objects;
      assert queue[..idx] == [];
      var workers := WorkerCount(concurrency, |queue|);
      var w := 0;
      while w < workers
        invariant 0 <= w <= workers && idx <= |queue|
        invariant idx == if w == 0 then 0 else |queue|
        invariant |claims| == idx && forall j :: 0 <= j < idx ==> claims[j] == j
        invariant Batch(entries, store.objects, calls) == RunQueue(StepOf(env, prefix, headers, sourceId), start, queue[..idx])
      {
        idx, entries, calls, claims := Worker(store, env, queue, prefix, headers, sourceId, start, idx, entries, calls, claims);
        assert queue[..idx] == queue;
        w := w + 1;
      }
      if workers > 0 {
        assert queue[..idx] == queue;
      }
      cursor := idx;
    }
  }
}
