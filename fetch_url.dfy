/** The upstream request of src/fetchUrl.js: the target address each
    downloader asks, the headers it sends, and the request itself. The two
    network exchanges are parameters: `weiboCookies`, the `set-cookie` list
    of the visitor-cookie request (or its error), and `get`, the page or API
    fetch (its body, or the message of its error). */
module FetchUrl {
  import opened Wrappers
  import opened Strs
  import opened S3Store
  import opened Downloaders

  const UserAgent: string :=
    "Mozilla/5.0 (Macintosh; Intel Mac OS X 10_15_7) AppleWebKit/537.36 (KHTML, like Gecko) Chrome/120.0.0.0 Safari/537.36"

  /** The headers of every request. */
  const CommonHeaders: Headers := map["Accept" := "*/*", "User-Agent" := UserAgent]

  const MiyousheReferer: string := "https://www.miyoushe.com/"
  const WeiboReferer: string := "https://weibo.com/"
  const PixivRefererPage: string := "https://www.pixiv.net/"
  const PixivCookieMissing: string := "使用 Pixiv 图片下载器要求正确配置 PIXIV_COOKIE 环境变量"
  const NetworkFailurePrefix: string := "网络请求失败: "

  // ---- The target address ----

  /** The id each platform's API is asked for: the last `/`-piece of the
      page URL, cut at the first `?` for Weibo. */
  function PostId(url: string, d: Downloader): string {
    if d == WeiboImages then FirstSegment(LastSegment(url, '/'), '?') else LastSegment(url, '/')
  }

  /** The text around the id in each platform's API address. */
  function TemplateHead(d: Downloader): string {
    match d
    case MiyousheImages => "https://bbs-api.miyoushe.com/post/wapi/getPostFull?gids=2&post_id="
    case WeiboImages => "https://weibo.com/ajax/statuses/show?id="
    case PixivImages => "https://www.pixiv.net/ajax/illust/"
    case _ => ""
  }

  function TemplateTail(d: Downloader): string {
    match d
    case MiyousheImages => "&read=1"
    case WeiboImages => "&locale=zh-CN"
    case PixivImages => "/pages"
    case _ => ""
  }

  predicate AsksApi(d: Downloader) {
    d == MiyousheImages || d == WeiboImages || d == PixivImages
  }

  /** `getTargetUrl(url, downloader)`: the API address for the three API
      platforms, the page itself for the others. */
  function GetTargetUrl(url: string, downloader: string): (r: string)
    ensures !AsksApi(Classify(downloader)) ==> r == url
    ensures AsksApi(Classify(downloader)) ==>
              StartsWith(r, TemplateHead(Classify(downloader))) && EndsWith(r, TemplateTail(Classify(downloader)))
    ensures AsksApi(Classify(downloader)) ==>
              r == TemplateHead(Classify(downloader)) + PostId(url, Classify(downloader)) + TemplateTail(Classify(downloader))
  {
    var d := Classify(downloader);
    if AsksApi(d) then
      var r := TemplateHead(d) + PostId(url, d) + TemplateTail(d);
      assert r[..|TemplateHead(d)|] == TemplateHead(d);
      assert r[|r| - |TemplateTail(d)|..] == TemplateTail(d);
      r
    else url
  }

  /** The Weibo id holds neither `/` nor `?`, and it begins the URL's last
      `/`-piece, which ends the URL. */
  lemma WeiboIdClean(url: string)
    ensures var id := PostId(url, WeiboImages);
            '/' !in id && '?' !in id
            && StartsWith(LastSegment(url, '/'), id) && EndsWith(url, LastSegment(url, '/'))
  {
    LastSegmentIsSuffix(url, '/');
    var last := LastSegment(url, '/');
    FirstSegmentIsPrefix(last, '?');
    var id := FirstSegment(last, '?');
    assert forall k :: 0 <= k < |id| ==> id[k] == last[k];
  }

  /** The Miyoushe and Pixiv id is the raw last `/`-piece, query included:
      it holds no `/`, ends the URL, and follows a `/` unless it is the whole URL. */
  lemma RawIdIsLastPiece(url: string, downloader: string)
    requires Classify(downloader) == MiyousheImages || Classify(downloader) == PixivImages
    ensures var id := PostId(url, Classify(downloader));
            '/' !in id && EndsWith(url, id) && (|id| < |url| ==> url[|url| - |id| - 1] == '/')
  {
    LastSegmentIsSuffix(url, '/');
  }

  /** The API address determines the id it asks for. */
  lemma TargetUrlDeterminesId(u1: string, u2: string, downloader: string)
    requires AsksApi(Classify(downloader))
    requires GetTargetUrl(u1, downloader) == GetTargetUrl(u2, downloader)
    ensures PostId(u1, Classify(downloader)) == PostId(u2, Classify(downloader))
  {
    var d := Classify(downloader);
    var h, t := TemplateHead(d), TemplateTail(d);
    var i1, i2 := PostId(u1, d), PostId(u2, d);
    var r := h + i1 + t;
    assert r == h + i2 + t;
    assert |i1| == |i2|;
    assert i1 == r[|h|..|h| + |i1|];
    assert i2 == (h + i2 + t)[|h|..|h| + |i2|];
  }

  // ---- The headers ----

  /** The first cookie of the list that starts with `SUB=`, or "". */
  function FirstSub(cookies: seq<string>): string {
    if cookies == [] then ""
    else if StartsWith(cookies[0], "SUB=") then cookies[0]
    else FirstSub(cookies[1..])
  }

  /** What FirstSub picks: the first `SUB=` cookie, and "" only when there is none. */
  lemma {:induction false} FirstSubSpec(cookies: seq<string>)
    ensures (forall i :: 0 <= i < |cookies| ==> !StartsWith(cookies[i], "SUB=")) ==> FirstSub(cookies) == ""
    ensures forall i :: (0 <= i < |cookies| && StartsWith(cookies[i], "SUB=")
                         && (forall j :: 0 <= j < i ==> !StartsWith(cookies[j], "SUB="))) ==> FirstSub(cookies) == cookies[i]
  {
    if cookies != [] && !StartsWith(cookies[0], "SUB=") {
      FirstSubSpec(cookies[1..]);
      forall i | 0 <= i < |cookies| && StartsWith(cookies[i], "SUB=")
                 && (forall j :: 0 <= j < i ==> !StartsWith(cookies[j], "SUB="))
        ensures FirstSub(cookies) == cookies[i]
      {
        assert cookies[1..][i - 1] == cookies[i];
        forall j | 0 <= j < i - 1 ensures !StartsWith(cookies[1..][j], "SUB=") {
          assert cookies[1..][j] == cookies[j + 1];
        }
      }
    }
  }

  /** The loop of the Weibo branch: keep the first `SUB=` cookie and stop. */
  method PickSubCookie(cookies: seq<string>) returns (subCookie: string)
    ensures subCookie == FirstSub(cookies)
  {
    subCookie := "";
    var i := 0;
    while i < |cookies|
      invariant 0 <= i <= |cookies|
      invariant FirstSub(cookies) == FirstSub(cookies[i..])
    {
      if StartsWith(cookies[i], "SUB=") {
        subCookie := cookies[i];
        break;
      }
      assert cookies[i..][1..] == cookies[i + 1..];
      i := i + 1;
    }
  }

  /** The platform headers `getHeaders` resolves to, or the error it throws. */
  function PlatformHeaders(d: Downloader, weiboCookies: Result<seq<string>, string>, pixivCookie: string): Result<Headers, string> {
    match d
    case MiyousheImages => Success(map["Referer" := MiyousheReferer])
    case WeiboImages =>
      (match weiboCookies
       case Failure(e) => Failure(e)
       case Success(cs) => Success(map["Cookie" := FirstSub(cs), "Referer" := WeiboReferer]))
    case PixivImages =>
      if pixivCookie == "" then Failure(PixivCookieMissing)
      else Success(map["Cookie" := pixivCookie, "Referer" := PixivRefererPage])
    case _ => Success(map[])
  }

  /** `getHeaders(downloader)`. The visitor cookie is asked for only by the
      Weibo branch; an unset Pixiv cookie is "". */
  method GetHeaders(downloader: string, weiboCookies: Result<seq<string>, string>, pixivCookie: string)
    returns (r: Result<Headers, string>)
    ensures r == PlatformHeaders(Classify(downloader), weiboCookies, pixivCookie)
  {
    var d := Classify(downloader);
    match d {
      case MiyousheImages =>
        r := Success(map["Referer" := MiyousheReferer]);
      case WeiboImages =>
        if weiboCookies.Failure? {
          return Failure(weiboCookies.error);
        }
        var subCookie := PickSubCookie(weiboCookies.value);
        r := Success(map["Cookie" := subCookie, "Referer" := WeiboReferer]);
      case PixivImages =>
        if pixivCookie == "" {
          return Failure(PixivCookieMissing);
        }
        r := Success(map["Cookie" := pixivCookie, "Referer" := PixivRefererPage]);
      case _ =>
        r := Success(map[]);
    }
  }

  /** Which platforms fail to produce headers, and what the others send. */
  lemma PlatformHeadersShape(d: Downloader, weiboCookies: Result<seq<string>, string>, pixivCookie: string)
    ensures var r := PlatformHeaders(d, weiboCookies, pixivCookie);
            && (r.Failure? <==> (d == WeiboImages && weiboCookies.Failure?) || (d == PixivImages && pixivCookie == ""))
            && (r.Success? && AsksApi(d) ==> "Referer" in r.value)
            && (r.Success? && (d == WeiboImages || d == PixivImages) ==> "Cookie" in r.value)
            && (r.Success? && !AsksApi(d) ==> r.value == map[])
  {}

  /** The request headers: the common ones overlaid by the platform's. */
  function RequestHeaders(platform: Headers): (h: Headers)
    ensures h.Keys == CommonHeaders.Keys + platform.Keys
    ensures forall k :: k in platform ==> h[k] == platform[k]
    ensures forall k :: k in CommonHeaders && k !in platform ==> h[k] == CommonHeaders[k]
  {
    CommonHeaders + platform
  }

  /** No platform replaces `Accept` or `User-Agent`, so both always go out as set. */
  lemma CommonHeadersKept(d: Downloader, weiboCookies: Result<seq<string>, string>, pixivCookie: string)
    requires PlatformHeaders(d, weiboCookies, pixivCookie).Success?
    ensures var h := RequestHeaders(PlatformHeaders(d, weiboCookies, pixivCookie).value);
            h["Accept"] == "*/*" && h["User-Agent"] == UserAgent
  {}

  // ---- The request ----

  /** What `fetchUrl(url, downloader)` returns or throws, and the request it
      sends. */
  function FetchSpec(url: string, downloader: string, weiboCookies: Result<seq<string>, string>, pixivCookie: string,
                     get: (string, Headers) -> Result<string, string>): Result<string, string>
  {
    match PlatformHeaders(Classify(downloader), weiboCookies, pixivCookie)
    case Failure(e) => Failure(e)
    case Success(platform) =>
      match get(GetTargetUrl(url, downloader), RequestHeaders(platform))
      case Failure(msg) => Failure(NetworkFailurePrefix + msg)
      case Success(body) => Success(body)
  }

  /** `fetchUrl(url, downloader)`: the headers first (their error is not
      wrapped), then the request, whose error is wrapped. `sent` is the
      request, when one was sent. */
  method Fetch(url: string, downloader: string, weiboCookies: Result<seq<string>, string>, pixivCookie: string,
               get: (string, Headers) -> Result<string, string>)
    returns (r: Result<string, string>, ghost sent: Option<(string, Headers)>)
    ensures r == FetchSpec(url, downloader, weiboCookies, pixivCookie, get)
    ensures sent.Some? <==> PlatformHeaders(Classify(downloader), weiboCookies, pixivCookie).Success?
    ensures sent.Some? ==> sent.value == (GetTargetUrl(url, downloader),
                                          RequestHeaders(PlatformHeaders(Classify(downloader), weiboCookies, pixivCookie).value))
  {
    var platform := GetHeaders(downloader, weiboCookies, pixivCookie);
    if platform.Failure? {
      return Failure(platform.error), None;
    }
    var headers := RequestHeaders(platform.value);
    var targetUrl := GetTargetUrl(url, downloader);
    sent := Some((targetUrl, headers));
    var response := get(targetUrl, headers);
    if response.Failure? {
      return Failure(NetworkFailurePrefix + response.error), sent;
    }
    r := Success(response.value);
  }

  /** A failed request is reported with the network prefix; a failure to
      build the headers is reported as it was thrown. */
  lemma FetchErrors(url: string, downloader: string, weiboCookies: Result<seq<string>, string>, pixivCookie: string,
                    get: (string, Headers) -> Result<string, string>)
    ensures var platform := PlatformHeaders(Classify(downloader), weiboCookies, pixivCookie);
            var r := FetchSpec(url, downloader, weiboCookies, pixivCookie, get);
            && (platform.Failure? ==> r == Failure(platform.error))
            && (platform.Success? ==>
                  var got := get(GetTargetUrl(url, downloader), RequestHeaders(platform.value));
                  (r.Failure? <==> got.Failure?)
                  && (r.Failure? ==> StartsWith(r.error, NetworkFailurePrefix) && r.error[|NetworkFailurePrefix|..] == got.error))
  {
    var platform := PlatformHeaders(Classify(downloader), weiboCookies, pixivCookie);
    if platform.Success? {
      var got := get(GetTargetUrl(url, downloader), RequestHeaders(platform.value));
      if got.Failure? {
        var e := NetworkFailurePrefix + got.error;
        assert e[..|NetworkFailurePrefix|] == NetworkFailurePrefix;
        assert e[|NetworkFailurePrefix|..] == got.error;
      }
    }
  }
}
