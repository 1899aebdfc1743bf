/** The downloader names the request handlers dispatch on; every `switch` of
    src/parsingResponse.js and src/fetchUrl.js compares the name against these
    literals, and any other name takes the `default` branch. */
module Downloaders {

  datatype Downloader =
    | XiaohongshuImages   // 小红书图片下载器
    | XiaohongshuVideo    // 小红书视频下载器
    | MiyousheImages      // 米游社图片下载器
    | WeiboImages         // 微博图片下载器
    | PixivImages         // Pixiv 图片下载器
    | Unrecognised(name: string)

  const XiaohongshuImagesName: string := "小红书图片下载器"
  const XiaohongshuVideoName: string := "小红书视频下载器"
  const MiyousheImagesName: string := "米游社图片下载器"
  const WeiboImagesName: string := "微博图片下载器"
  const PixivImagesName: string := "Pixiv 图片下载器"

  function NameOf(d: Downloader): string {
    match d
    case XiaohongshuImages => XiaohongshuImagesName
    case XiaohongshuVideo => XiaohongshuVideoName
    case MiyousheImages => MiyousheImagesName
    case WeiboImages => WeiboImagesName
    case PixivImages => PixivImagesName
    case Unrecognised(name) => name
  }

  /** The case a name selects: one of the five literals, else `default`. */
  function Classify(name: string): (d: Downloader)
    ensures NameOf(d) == name
    ensures d.Unrecognised? <==> name !in {XiaohongshuImagesName, XiaohongshuVideoName, MiyousheImagesName, WeiboImagesName, PixivImagesName}
  {
    if name == XiaohongshuImagesName then XiaohongshuImages
    else if name == XiaohongshuVideoName then XiaohongshuVideo
    else if name == MiyousheImagesName then MiyousheImages
    else if name == WeiboImagesName then WeiboImages
    else if name == PixivImagesName then PixivImages
    else Unrecognised(name)
  }

  /** Classifying a known downloader's name gives it back. */
  lemma ClassifyNameOf(d: Downloader)
    requires !d.Unrecognised? || Classify(d.name).Unrecognised?
    ensures Classify(NameOf(d)) == d
  {}
}
