/** The object store as the caching proxy sees it (src/s3Client.js): an
    existence check that maps every error to "absent", an upload that sets a
    long-lived immutable cache directive, and the guard that refuses to build
    a client without endpoint and credentials. The store's contents are a map
    from key to object held in a class field; the outside world (network,
    digests, MIME table, URL parser, clock) is the oracle bundle `Env`. */
module S3Store {
  import opened Wrappers

  newtype byte = x: int | 0 <= x < 256

  /** Request headers: a JavaScript object; a later spread overrides an earlier one. */
  type Headers = map<string, string>

  datatype StoredObject = StoredObject(body: seq<byte>, contentType: string, cacheControl: string)

  type Objects = map<string, StoredObject>

  const ImmutableCacheControl: string := "public,max-age=31536000,immutable"
  const OctetStream: string := "application/octet-stream"

  /** One request the proxy sends out, to the store or to the origin. */
  datatype Call = HeadObject(key: string) | Download(url: string) | PutObject(key: string)

  /** An `axios.get(..., {responseType: 'arraybuffer'})` response: the bytes and
      the `content-type` header, "" when the header is absent. */
  datatype Response = Response(data: seq<byte>, contentType: string)

  /** Everything the model takes from outside instead of computing it:
      - `md5hex`: the hex MD5 digest of a string;
      - `mimeLookup`: `mime.lookup(url)`, "" where it returns `false`;
      - `get`: a download of a URL with headers, or the failure's message;
      - `headFails`, `putFails`: which store requests fail for a key;
      - `pathname`: `new URL(url).pathname`, `None` when the constructor throws;
      - `now`: `Date.now()`. */
  datatype Env = Env(
    md5hex: string -> string,
    mimeLookup: string -> string,
    get: (string, Headers) -> Result<Response, string>,
    headFails: string -> bool,
    putFails: string -> bool,
    pathname: string -> Option<string>,
    now: nat)

  /** `createS3Client` throws unless endpoint and both credentials are truthy. */
  predicate ClientConfigOk(endpoint: string, accessKeyId: string, secretAccessKey: string) {
    endpoint != "" && accessKeyId != "" && secretAccessKey != ""
  }

  /** `putObject` stores `contentType || 'application/octet-stream'`. */
  function PutContentType(contentType: string): (ct: string)
    ensures ct != ""
    ensures contentType != "" ==> ct == contentType
  {
    if contentType != "" then contentType else OctetStream
  }

  /** What `objectExists` answers: present, and the HEAD request did not fail
      (a failed request of any kind reads as "absent"). */
  predicate ObjectExists(env: Env, objects: Objects, key: string) {
    key in objects && !env.headFails(key)
  }

  class ObjectStore {
    var objects: Objects

    constructor (objects: Objects)
      ensures this.objects == objects
    {
      this.objects := objects;
    }

    /** `objectExists(s3, bucket, key)`. */
    method Exists(env: Env, key: string) returns (b: bool)
      ensures b <==> key in objects && !env.headFails(key)
    {
      b := key in objects && !env.headFails(key);
    }

    /** `putObject(s3, bucket, key, body, contentType)`; `ok` is false where the
        request fails, and then nothing is written. */
    method Put(env: Env, key: string, body: seq<byte>, contentType: string) returns (ok: bool)
      modifies this
      ensures ok <==> !env.putFails(key)
      ensures objects == if ok then old(objects)[key := StoredObject(body, PutContentType(contentType), ImmutableCacheControl)]
                         else old(objects)
    {
      ok := !env.putFails(key);
      if ok {
        objects := objects[key := StoredObject(body, PutContentType(contentType), ImmutableCacheControl)];
      }
    }
  }
}
