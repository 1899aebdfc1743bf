/** The `PixivProxy` subclass (src/pixivProxy.js): a `ResourceProxy` running
    the Pixiv key and header overrides, whose batch entry point fixes the
    prefix, the headers and the source id. */
module Pixiv {
  import opened Wrappers
  import opened Strs
  import opened Seqs
  import opened S3Store
  import opened CacheKeys
  import opened CachingCore
  import opened PixivNames
  import opened Proxy

  class PixivProxy {
    const pixivCookie: string
    /** The parent part of the instance, dispatching to the overrides. */
    const base: ResourceProxy

    /** The cookie is read once at construction; an unset one is "". */
    constructor (config: S3Config, pixivCookie: string)
      ensures this.pixivCookie == pixivCookie
      ensures base.config == config && base.hooks == PixivHooks(pixivCookie)
    {
      this.pixivCookie := pixivCookie;
      base := new ResourceProxy(config, PixivHooks(pixivCookie));
    }

    /** `batchCacheResources(urls, concurrency)`: the parent's batch with the
        prefix `pixiv`, no headers of the caller and no source id. */
    method BatchCacheResources(store: ObjectStore, env: Env, urls: seq<string>, concurrency: int)
      returns (entries: seq<(string, string)>, ghost calls: seq<Call>)
      modifies store
      ensures Batch(entries, store.objects, calls)
              == BatchSpec(base.StepOf(env, "pixiv", map[], None), old(store.objects), urls, concurrency)
    {
      ghost var claims, cursor;
      entries, calls, claims, cursor := base.BatchCacheResources(store, env, urls, "pixiv", map[], concurrency, None);
    }
  }

  /** The headers every Pixiv download of a batch carries: exactly the referer
      and the stored cookie. */
  lemma BatchDownloadHeaders(cookie: string)
    ensures DownloadHeadersFor(PixivHooks(cookie), map[]) == map["Referer" := PixivReferer, "Cookie" := cookie]
  {}

  /** One step of a Pixiv batch: the URL's key comes from its pathname alone,
      the download carries the referer and the cookie, and a URL that does not
      parse fails before the store is asked anything. */
  lemma PixivStep(cfg: S3Config, cookie: string, env: Env, objects: Objects, u: string)
    requires Configured(cfg) && ClientConfigOk(cfg.endpointInternal, cfg.accessKeyId, cfg.secretAccessKey)
    ensures var s := CacheStep(cfg, env, objects, u, KeyFor(PixivHooks(cookie), env, u, "pixiv", None),
                               DownloadHeadersFor(PixivHooks(cookie), map[]));
            && (env.pathname(u).None? ==> s == Step(Failure(InvalidUrl), objects, []))
            && (env.pathname(u).Some? ==>
                  var key := PixivKey(env.pathname(u).value, env.now);
                  s == CacheStep(cfg, env, objects, u, Success(key), map["Referer" := PixivReferer, "Cookie" := cookie]))
  {
    BatchDownloadHeaders(cookie);
  }
}
