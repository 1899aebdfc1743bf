/** The response parser of src/parsingResponse.js: it finds the resource URLs
    in a fetched page or JSON text by running one global regular expression
    with `exec` until it fails, and turns each capture into URLs.

    The two kinds of expression it uses,
      <meta\s+name="og:video"\s+content="([^"]+)"
      "<key>"\s*:\s*\[([^\]]+)\]
    are literals and whitespace runs, then one run of "anything but a stop
    character" followed by that stop character. Every literal after a
    whitespace run starts with a non-space, and the stop character ends the
    capture class, so the greedy scanner below finds exactly the matches the
    backtracking engine finds. */
module ParsingResponse {
  import opened Wrappers
  import opened Strs
  import opened Downloaders

  /** `ensureHttps(url)`: the scheme `http://` becomes `https://`. */
  function EnsureHttps(url: string): (r: string)
    ensures !StartsWith(r, "http://")
    ensures StartsWith(url, "http://") ==> r == "https://" + url[7..]
    ensures !StartsWith(url, "http://") ==> r == url
  {
    if StartsWith(url, "http://") then
      var r := "https://" + url[7..];
      assert r[..7] == "https:/";
      r
    else url
  }

  lemma EnsureHttpsIdempotent(url: string)
    ensures EnsureHttps(EnsureHttps(url)) == EnsureHttps(url)
  {}

  /** The escaped slash `/` as it appears, unparsed, in page text. */
  const EscapedSlash: string := "\\u002F"

  /** `s.replace(/\\u002F/g, "/")`: every escaped slash, left to right, becomes `/`. */
  function Unescape(s: string): (r: string)
    ensures |r| <= |s|
    decreases |s|
  {
    if StartsWith(s, EscapedSlash) then "/" + Unescape(s[6..])
    else if s == [] then []
    else [s[0]] + Unescape(s[1..])
  }

  /** Text without a backslash is copied as it is, and the rest follows. */
  lemma {:induction false} UnescapeSkipsPlain(a: string, t: string)
    requires '\\' !in a
    ensures Unescape(a + t) == a + Unescape(t)
    decreases |a|
  {
    if a != [] {
      assert (a + t)[0] == a[0] && (a + t)[1..] == a[1..] + t;
      assert '\\' !in a[1..];
      UnescapeSkipsPlain(a[1..], t);
      assert Unescape(a + t) == [a[0]] + (a[1..] + Unescape(t));
    } else {
      assert a + t == t;
    }
  }

  /** The first escaped slash becomes `/`, and the replacement goes on after it. */
  lemma UnescapeReplaces(a: string, b: string)
    requires '\\' !in a
    ensures Unescape(a + EscapedSlash + b) == a + "/" + Unescape(b)
  {
    UnescapeSkipsPlain(a, EscapedSlash + b);
    assert a + EscapedSlash + b == a + (EscapedSlash + b);
    assert (EscapedSlash + b)[..6] == EscapedSlash && (EscapedSlash + b)[6..] == b;
  }

  /** A backslash that does not begin an escaped slash is kept. */
  lemma UnescapeKeepsLoneBackslash(b: string)
    requires !StartsWith("\\" + b, EscapedSlash)
    ensures Unescape("\\" + b) == "\\" + Unescape(b)
  {
    assert ("\\" + b)[1..] == b;
  }

  /** A prefix of the unescaped text without `/` was already in the text. */
  lemma {:induction false} UnescapePrefix(t: string, p: string)
    requires '/' !in p && StartsWith(Unescape(t), p)
    ensures StartsWith(t, p)
    decreases |p|
  {
    if p != [] && !StartsWith(t, EscapedSlash) && t != [] {
      {
        var r := Unescape(t[1..]);
        assert Unescape(t) == [t[0]] + r;
        assert StartsWith(r, p[1..]) by {
          assert r[..|p| - 1] == Unescape(t)[1..|p|];
        }
        UnescapePrefix(t[1..], p[1..]);
        assert t[..|p|] == [t[0]] + t[1..][..|p| - 1];
      }
    } else if p != [] && StartsWith(t, EscapedSlash) {
      UnescapeOfEscaped(t);
      assert false;
    }
  }

  lemma UnescapeOfEscaped(t: string)
    requires StartsWith(t, EscapedSlash)
    ensures |Unescape(t)| > 0 && Unescape(t)[0] == '/'
  {}

  /** No escaped slash survives the replacement. */
  lemma {:induction false} UnescapeLeavesNone(s: string)
    ensures !Contains(Unescape(s), EscapedSlash)
    decreases |s|
  {
    var r := Unescape(s);
    if s != [] {
      var n := if StartsWith(s, EscapedSlash) then 6 else 1;
      var r' := Unescape(s[n..]);
      UnescapeLeavesNone(s[n..]);
      assert r[1..] == r';
      forall i | 0 < i <= |r| ensures !OccursAt(r, EscapedSlash, i) {
        OccursInTail(r, r', i);
      }
      if n == 1 {
        UnescapePrefixHolds(s[1..], "u002F");
        assert OccursAt(r, EscapedSlash, 0) ==> StartsWith(r', "u002F") by {
          if |r| >= 6 {
            assert r'[..5] == r[1..6];
          }
        }
        assert StartsWith(s[1..], "u002F") && s[0] == '\\' ==> StartsWith(s, EscapedSlash) by {
          if |s| >= 6 {
            assert s[..6] == [s[0]] + s[1..][..5];
          }
        }
      }
    }
  }

  /** An occurrence past the first character is one in the tail. */
  lemma OccursInTail(r: string, r': string, i: nat)
    requires r != [] && r[1..] == r' && 0 < i
    ensures OccursAt(r, EscapedSlash, i) <==> OccursAt(r', EscapedSlash, i - 1)
  {
    if i + 6 <= |r| {
      assert r[i..i + 6] == r'[i - 1..i + 5];
    }
  }

  lemma UnescapePrefixHolds(t: string, p: string)
    requires '/' !in p
    ensures StartsWith(Unescape(t), p) ==> StartsWith(t, p)
  {
    if StartsWith(Unescape(t), p) {
      UnescapePrefix(t, p);
    }
  }

  /** Text without an escaped slash is left as it is. */
  lemma {:induction false} UnescapeIdentity(s: string)
    requires !Contains(s, EscapedSlash)
    ensures Unescape(s) == s
    decreases |s|
  {
    if s != [] {
      assert !OccursAt(s, EscapedSlash, 0);
      assert !Contains(s[1..], EscapedSlash) by {
        forall i | 0 <= i <= |s[1..]| ensures !OccursAt(s[1..], EscapedSlash, i) {
          OccursInTail(s, s[1..], i + 1);
        }
      }
      UnescapeIdentity(s[1..]);
    }
  }

  /** Upgrading the scheme introduces no escaped slash. */
  lemma EnsureHttpsKeepsNoEscape(url: string)
    requires !Contains(url, EscapedSlash)
    ensures !Contains(EnsureHttps(url), EscapedSlash)
  {
    if StartsWith(url, "http://") {
      var r := EnsureHttps(url);
      forall i | 0 <= i <= |r| ensures !OccursAt(r, EscapedSlash, i) {
        if i < 8 {
          assert r[..8] == "https://";
          assert r[i] != '\\';
        } else if i + 6 <= |r| {
          assert r[i..i + 6] == url[i - 1..i + 5];
          assert !OccursAt(url, EscapedSlash, i - 1);
        }
      }
    }
  }

  // ---- The scanner for the two kinds of expression ----

  /** JavaScript's `\s`: the ASCII blanks, no-break spaces, the Unicode
      space separators, the line and paragraph separators and the BOM. */
  predicate IsJsSpace(c: char) {
    c == ' ' || c == '\t' || c == '\n' || c == '\r' || c == '\U{000B}' || c == '\U{000C}'
    || c == '\U{00A0}' || c == '\U{1680}' || ('\U{2000}' <= c <= '\U{200A}')
    || c == '\U{2028}' || c == '\U{2029}' || c == '\U{202F}' || c == '\U{205F}' || c == '\U{3000}' || c == '\U{FEFF}'
  }

  /** The pieces before the capture: a literal, or `\s+` / `\s*`. */
  datatype Token = Lit(s: string) | Spaces(atLeastOne: bool)

  /** `lead` then `([^stop]+)stop`. */
  datatype Pattern = Pattern(lead: seq<Token>, stop: char)

  /** `/<meta\s+name="og:video"\s+content="([^"]+)"/g` */
  const MetaVideo: Pattern :=
    Pattern([Lit("<meta"), Spaces(true), Lit("name=\"og:video\""), Spaces(true), Lit("content=\"")], '"')

  /** `/"<key>"\s*:\s*\[([^\]]+)\]/g` */
  function JsonArray(key: string): Pattern {
    Pattern([Lit("\"" + key + "\""), Spaces(false), Lit(":"), Spaces(false), Lit("[")], ']')
  }

  /** Length of the run of `\s` characters from `i`. */
  function SpaceRun(text: string, i: nat): (n: nat)
    requires i <= |text|
    ensures i + n <= |text|
    ensures forall j :: i <= j < i + n ==> IsJsSpace(text[j])
    ensures i + n == |text| || !IsJsSpace(text[i + n])
    decreases |text| - i
  {
    if i < |text| && IsJsSpace(text[i]) then 1 + SpaceRun(text, i + 1) else 0
  }

  /** Length of the run of characters other than `stop` from `i`. */
  function RunUntil(text: string, i: nat, stop: char): (n: nat)
    requires i <= |text|
    ensures i + n <= |text|
    ensures forall j :: i <= j < i + n ==> text[j] != stop
    ensures i + n == |text| || text[i + n] == stop
    decreases |text| - i
  {
    if i < |text| && text[i] != stop then 1 + RunUntil(text, i + 1, stop) else 0
  }

  /** Where the tokens matched at `pos` end, if they match there. */
  function ScanLead(text: string, pos: nat, toks: seq<Token>): (r: Option<nat>)
    requires pos <= |text|
    ensures r.Some? ==> pos <= r.value <= |text|
    decreases |toks|
  {
    if toks == [] then Some(pos)
    else match toks[0]
      case Lit(s) =>
        if pos + |s| <= |text| && text[pos..pos + |s|] == s then ScanLead(text, pos + |s|, toks[1..]) else None
      case Spaces(atLeastOne) =>
        var n := SpaceRun(text, pos);
        if atLeastOne && n == 0 then None else ScanLead(text, pos + n, toks[1..])
  }

  /** One match: the capture is `text[capStart..capEnd]`, the match ends at `end`. */
  datatype Match = Match(capStart: nat, capEnd: nat, end: nat)

  /** The match that starts at `p`, if any. */
  function MatchAt(text: string, p: nat, pat: Pattern): (r: Option<Match>)
    requires p <= |text|
    ensures r.Some? ==> p <= r.value.capStart < r.value.capEnd < r.value.end <= |text|
    ensures r.Some? ==> r.value.end == r.value.capEnd + 1 && text[r.value.capEnd] == pat.stop
    ensures r.Some? ==> forall j :: r.value.capStart <= j < r.value.capEnd ==> text[j] != pat.stop
  {
    match ScanLead(text, p, pat.lead)
    case None => None
    case Some(c) =>
      var n := RunUntil(text, c, pat.stop);
      if n == 0 || c + n == |text| then None else Some(Match(c, c + n, c + n + 1))
  }

  /** Where the leftmost match at or after `from` starts. */
  function FirstMatchFrom(text: string, from: nat, pat: Pattern): (r: Option<nat>)
    requires from <= |text|
    ensures r.Some? ==> from <= r.value <= |text| && MatchAt(text, r.value, pat).Some?
    ensures r.Some? ==> forall q :: from <= q < r.value ==> MatchAt(text, q, pat).None?
    ensures r.None? ==> forall q :: from <= q <= |text| ==> MatchAt(text, q, pat).None?
    decreases |text| - from
  {
    if MatchAt(text, from, pat).Some? then Some(from)
    else if from == |text| then None
    else FirstMatchFrom(text, from + 1, pat)
  }

  /** `regex.exec(text)` with `lastIndex == from`: the leftmost match at or after `from`. */
  function NextMatch(text: string, from: nat, pat: Pattern): (r: Option<Match>)
    requires from <= |text|
    ensures r.Some? ==> from <= r.value.capStart < r.value.capEnd < r.value.end <= |text|
  {
    match FirstMatchFrom(text, from, pat)
    case None => None
    case Some(p) => MatchAt(text, p, pat)
  }

  /** The captures of all matches, each search resuming where the last match ended. */
  function Captures(text: string, pat: Pattern, from: nat): (caps: seq<string>)
    requires from <= |text|
    ensures forall k :: 0 <= k < |caps| ==> |caps[k]| > 0 && pat.stop !in caps[k]
    decreases |text| - from
  {
    match NextMatch(text, from, pat)
    case None => []
    case Some(m) => [text[m.capStart..m.capEnd]] + Captures(text, pat, m.end)
  }

  /** The URLs one capture yields: in JSON mode one per `delimiter`-separated
      piece of the capture with its quotes removed; otherwise the prefixed
      capture with its escaped slashes replaced. */
  function UrlsOf(cap: string, prefix: string, delimiter: char, isJson: bool): (urls: seq<string>)
    ensures isJson ==> |urls| == Count(RemoveAll(cap, '"'), delimiter) + 1
    ensures isJson ==> forall k :: 0 <= k < |urls| ==>
              urls[k] == EnsureHttps(prefix + Split(RemoveAll(cap, '"'), delimiter)[k])
    ensures !isJson ==> urls == [EnsureHttps(Unescape(prefix + cap))]
  {
    if isJson then
      var ids := Split(RemoveAll(cap, '"'), delimiter);
      seq(|ids|, k requires 0 <= k < |ids| => EnsureHttps(prefix + ids[k]))
    else [EnsureHttps(Unescape(prefix + cap))]
  }

  /** Removing the quotes keeps every delimiter, so a JSON capture yields one
      URL more than it has delimiters. */
  lemma JsonUrlCount(cap: string, prefix: string, delimiter: char)
    requires delimiter != '"'
    ensures |UrlsOf(cap, prefix, delimiter, true)| == Count(cap, delimiter) + 1
  {
    RemoveAllKeepsOthers(cap, '"', delimiter);
  }

  /** All captures' URLs in capture order. */
  function UrlsFromCaptures(caps: seq<string>, prefix: string, delimiter: char, isJson: bool): seq<string> {
    if caps == [] then [] else UrlsOf(caps[0], prefix, delimiter, isJson) + UrlsFromCaptures(caps[1..], prefix, delimiter, isJson)
  }

  /** The body of one `exec` round: push the capture's URLs, piece by piece
      in JSON mode (the `forEach`). */
  method PushCaptureUrls(urls0: seq<string>, cap: string, prefix: string, delimiter: char, isJson: bool)
    returns (urls: seq<string>)
    ensures urls == urls0 + UrlsOf(cap, prefix, delimiter, isJson)
  {
    urls := urls0;
    if isJson {
      var ids := Split(RemoveAll(cap, '"'), delimiter);
      ghost var all := UrlsOf(cap, prefix, delimiter, isJson);
      var k := 0;
      while k < |ids|
        invariant k <= |ids| == |all|
        invariant urls == urls0 + all[..k]
      {
        assert all[k] == EnsureHttps(prefix + ids[k]);
        assert all[..k + 1] == all[..k] + [all[k]];
        urls := urls + [EnsureHttps(prefix + ids[k])];
        k := k + 1;
      }
      assert all[..k] == all;
    } else {
      urls := urls + [EnsureHttps(Unescape(prefix + cap))];
    }
  }

  /** One `exec` round: the URLs still to come from `from` are the next
      capture's, then those after the match. */
  lemma ExtractStep(text: string, pat: Pattern, from: nat, prefix: string, delimiter: char, isJson: bool)
    requires from <= |text| && NextMatch(text, from, pat).Some?
    ensures var m := NextMatch(text, from, pat).value;
            UrlsFromCaptures(Captures(text, pat, from), prefix, delimiter, isJson)
            == UrlsOf(text[m.capStart..m.capEnd], prefix, delimiter, isJson)
               + UrlsFromCaptures(Captures(text, pat, m.end), prefix, delimiter, isJson)
  {
    var m := NextMatch(text, from, pat).value;
    var caps := Captures(text, pat, from);
    assert caps == [text[m.capStart..m.capEnd]] + Captures(text, pat, m.end);
    assert caps[1..] == Captures(text, pat, m.end);
  }

  /** `extractUrls(text, regex, prefix, delimiter, isJson)`. */
  method ExtractUrls(text: string, pat: Pattern, prefix: string, delimiter: char, isJson: bool) returns (urls: seq<string>)
    ensures urls == UrlsFromCaptures(Captures(text, pat, 0), prefix, delimiter, isJson)
  {
    urls := [];
    var lastIndex := 0;
    ghost var pending := UrlsFromCaptures(Captures(text, pat, 0), prefix, delimiter, isJson);
    var m := NextMatch(text, lastIndex, pat);
    while m.Some?
      invariant lastIndex <= |text| && m == NextMatch(text, lastIndex, pat)
      invariant pending == UrlsFromCaptures(Captures(text, pat, lastIndex), prefix, delimiter, isJson)
      invariant urls + pending == UrlsFromCaptures(Captures(text, pat, 0), prefix, delimiter, isJson)
      decreases |text| - lastIndex
    {
      var cap := text[m.value.capStart..m.value.capEnd];
      ExtractStep(text, pat, lastIndex, prefix, delimiter, isJson);
      ghost var here := UrlsOf(cap, prefix, delimiter, isJson);
      ghost var later := UrlsFromCaptures(Captures(text, pat, m.value.end), prefix, delimiter, isJson);
      AppendAssoc(urls, here, later);
      urls := PushCaptureUrls(urls, cap, prefix, delimiter, isJson);
      pending := later;
      lastIndex := m.value.end;
      m := NextMatch(text, lastIndex, pat);
    }
    assert pending == [];
    assert urls + [] == urls;
  }

  lemma AppendAssoc(a: seq<string>, b: seq<string>, c: seq<string>)
    ensures (a + b) + c == a + (b + c)
  {}

  /** In JSON mode every URL is the prefix and a piece without quotes or
      delimiters, and there are as many as the captures have pieces. */
  lemma {:induction false} JsonUrlsShape(caps: seq<string>, prefix: string, delimiter: char)
    ensures var urls := UrlsFromCaptures(caps, prefix, delimiter, true);
            forall k :: 0 <= k < |urls| ==>
              exists piece :: '"' !in piece && delimiter !in piece && urls[k] == EnsureHttps(prefix + piece)
    decreases |caps|
  {
    if caps != [] {
      JsonUrlsShape(caps[1..], prefix, delimiter);
      var head := UrlsOf(caps[0], prefix, delimiter, true);
      var urls := UrlsFromCaptures(caps, prefix, delimiter, true);
      var ids := Split(RemoveAll(caps[0], '"'), delimiter);
      forall k | 0 <= k < |urls|
        ensures exists piece :: '"' !in piece && delimiter !in piece && urls[k] == EnsureHttps(prefix + piece)
      {
        if k < |head| {
          assert urls[k] == EnsureHttps(prefix + ids[k]);
          RemoveAllSplitPieces(caps[0], delimiter, k);
        } else {
          assert urls[k] == UrlsFromCaptures(caps[1..], prefix, delimiter, true)[k - |head|];
        }
      }
    }
  }

  lemma RemoveAllSplitPieces(cap: string, delimiter: char, k: nat)
    requires k < |Split(RemoveAll(cap, '"'), delimiter)|
    ensures '"' !in Split(RemoveAll(cap, '"'), delimiter)[k]
  {
    SplitPiecesFrom(RemoveAll(cap, '"'), delimiter, '"', k);
  }

  /** A character absent from the text is absent from every piece. */
  lemma {:induction false} SplitPiecesFrom(s: string, c: char, x: char, k: nat)
    requires x !in s && k < |Split(s, c)|
    ensures x !in Split(s, c)[k]
    decreases |s|
  {
    if s != [] {
      var rest := Split(s[1..], c);
      assert x !in s[1..];
      if s[0] == c {
        if k > 0 {
          SplitPiecesFrom(s[1..], c, x, k - 1);
        }
      } else if k == 0 {
        SplitPiecesFrom(s[1..], c, x, 0);
      } else {
        SplitPiecesFrom(s[1..], c, x, k);
      }
    }
  }

  /** In meta mode there is one URL per capture and none holds an escaped slash. */
  lemma {:induction false} MetaUrlsShape(caps: seq<string>, prefix: string, delimiter: char)
    ensures var urls := UrlsFromCaptures(caps, prefix, delimiter, false);
            |urls| == |caps|
            && forall k :: 0 <= k < |urls| ==>
                 urls[k] == EnsureHttps(Unescape(prefix + caps[k])) && !Contains(urls[k], EscapedSlash)
    decreases |caps|
  {
    if caps != [] {
      MetaUrlsShape(caps[1..], prefix, delimiter);
      UnescapeLeavesNone(prefix + caps[0]);
      EnsureHttpsKeepsNoEscape(Unescape(prefix + caps[0]));
      var urls := UrlsFromCaptures(caps, prefix, delimiter, false);
      forall k | 1 <= k < |urls|
        ensures urls[k] == EnsureHttps(Unescape(prefix + caps[k])) && !Contains(urls[k], EscapedSlash)
      {
        assert urls[k] == UrlsFromCaptures(caps[1..], prefix, delimiter, false)[k - 1];
        assert caps[1..][k - 1] == caps[k];
      }
    }
  }

  // ---- The dispatch ----

  /** The Weibo image host the picture ids are appended to. */
  const WeiboImageHost: string := "https://wx1.sinaimg.cn/large/"

  /** The URLs of a response body for a downloader, with the body passed in
      explicitly as the `text` of each branch. */
  function ParsedUrls(text: string, d: Downloader): seq<string> {
    match d
    case XiaohongshuVideo => UrlsFromCaptures(Captures(text, MetaVideo, 0), "", ' ', false)
    case MiyousheImages => UrlsFromCaptures(Captures(text, JsonArray("images"), 0), "", ',', true)
    case WeiboImages => UrlsFromCaptures(Captures(text, JsonArray("pic_ids"), 0), WeiboImageHost, ',', true)
    case _ => []
  }

  /** `parsingResponse(response, downloader)` reading the body it is given. */
  method ParseResponse(text: string, downloader: string) returns (urls: seq<string>)
    ensures urls == ParsedUrls(text, Classify(downloader))
  {
    match Classify(downloader)
    case XiaohongshuVideo =>
      urls := ExtractUrls(text, MetaVideo, "", ' ', false);
    case MiyousheImages =>
      urls := ExtractUrls(text, JsonArray("images"), "", ',', true);
    case WeiboImages =>
      urls := ExtractUrls(text, JsonArray("pic_ids"), WeiboImageHost, ',', true);
    case _ =>
      urls := [];
  }

  /** What the function as written evaluates to: the three parsing branches
      read the undeclared identifier `text`, which throws a `ReferenceError`
      before any matching happens. */
  function ParsingResponseAsWritten(response: string, downloader: string): (r: Result<seq<string>, string>) {
    match Classify(downloader)
    case XiaohongshuVideo => Failure("ReferenceError: text is not defined")
    case MiyousheImages => Failure("ReferenceError: text is not defined")
    case WeiboImages => Failure("ReferenceError: text is not defined")
    case _ => Success([])
  }

  /** As written, the function never returns a URL: it throws for exactly the
      three downloaders it is meant to parse and returns `[]` for the rest,
      whatever the response holds. */
  lemma AsWrittenFindsNothing(response: string, downloader: string)
    ensures var r := ParsingResponseAsWritten(response, downloader);
            && (r.Failure? <==> Classify(downloader) in {XiaohongshuVideo, MiyousheImages, WeiboImages})
            && (r.Success? ==> r.value == [] && ParsedUrls(response, Classify(downloader)) == [])
  {}

  /** A body holding exactly one `"<key>":[<cap>]` array has that body as
      its one capture: the leading literal, the colon and the bracket match
      with empty whitespace runs, and the capture runs to the closing bracket. */
  lemma JsonArrayOneCapture(key: string, cap: string)
    requires |cap| > 0 && ']' !in cap
    ensures Captures("\"" + key + "\"" + ":[" + cap + "]", JsonArray(key), 0) == [cap]
  {
    var lit := "\"" + key + "\"";
    var text := lit + ":[" + cap + "]";
    var pat := JsonArray(key);
    var lead := pat.lead;
    var n := |lit|;
    var e := n + 2 + |cap|;
    assert text[0..n] == lit;
    assert text[n..n + 1] == ":" && text[n + 1..n + 2] == "[";
    assert SpaceRun(text, n) == 0 && SpaceRun(text, n + 1) == 0;
    assert ScanLead(text, n + 2, lead[5..]) == Some(n + 2);
    assert ScanLead(text, n + 1, lead[4..]) == Some(n + 2);
    assert ScanLead(text, n + 1, lead[3..]) == Some(n + 2);
    assert ScanLead(text, n, lead[2..]) == Some(n + 2);
    assert ScanLead(text, n, lead[1..]) == Some(n + 2);
    assert ScanLead(text, 0, lead) == Some(n + 2);
    assert text[n + 2..e] == cap;
    assert |text| == e + 1 && text[e] == ']';
    RunUntilAt(text, n + 2, |cap|, ']');
    MatchAtOf(text, 0, pat, n + 2, |cap|);
    NoMatchAtEnd(text, pat);
    assert Captures(text, pat, |text|) == [];
  }

  /** A lead that matches, followed by a non-empty run closed by the stop character. */
  lemma MatchAtOf(text: string, p: nat, pat: Pattern, c: nat, n: nat)
    requires p <= |text| && ScanLead(text, p, pat.lead) == Some(c)
    requires c + n < |text| && n > 0 && RunUntil(text, c, pat.stop) == n
    ensures MatchAt(text, p, pat) == Some(Match(c, c + n, c + n + 1))
  {}

  /** A pattern that begins with a non-empty literal matches nowhere at the end. */
  lemma NoMatchAtEnd(text: string, pat: Pattern)
    requires pat.lead != [] && pat.lead[0].Lit? && |pat.lead[0].s| > 0
    ensures FirstMatchFrom(text, |text|, pat) == None
  {}

  lemma {:induction false} RunUntilAt(text: string, i: nat, m: nat, stop: char)
    requires i + m < |text| && stop !in text[i..i + m] && text[i + m] == stop
    ensures RunUntil(text, i, stop) == m
    decreases m
  {
    if m > 0 {
      assert text[i] == text[i..i + m][0];
      assert text[i + 1..i + m] == text[i..i + m][1..];
      RunUntilAt(text, i + 1, m - 1, stop);
    }
  }

  /** The corrected parser finds the picture of a Weibo body that has one:
      `"pic_ids":["<id>"]` yields that picture on the image host. */
  lemma WeiboBodyOfOneId(id: string)
    requires |id| > 0 && '"' !in id && ',' !in id && ']' !in id
    ensures ParsedUrls("\"" + "pic_ids" + "\"" + ":[" + ("\"" + id + "\"") + "]", WeiboImages) == [WeiboImageHost + id]
  {
    var cap := "\"" + id + "\"";
    JsonArrayOneCapture("pic_ids", cap);
    ParsedWeiboOfOneCapture("\"" + "pic_ids" + "\"" + ":[" + cap + "]", cap);
    JsonUrlsOfQuoted(id, WeiboImageHost, ',');
    assert StartsWith(WeiboImageHost + id, "https://");
  }

  /** One quoted id without delimiters gives the one URL of that id. */
  lemma JsonUrlsOfQuoted(id: string, prefix: string, delimiter: char)
    requires '"' !in id && delimiter !in id && delimiter != '"'
    ensures UrlsOf("\"" + id + "\"", prefix, delimiter, true) == [EnsureHttps(prefix + id)]
  {
    RemoveAllQuoted(id, '"');
    SplitAbsent(id, delimiter);
  }

  /** A Weibo body with a single capture yields that capture's URLs. */
  lemma ParsedWeiboOfOneCapture(text: string, cap: string)
    requires Captures(text, JsonArray("pic_ids"), 0) == [cap]
    ensures ParsedUrls(text, WeiboImages) == UrlsOf(cap, WeiboImageHost, ',', true)
  {
    assert [cap][1..] == [];
    assert UrlsFromCaptures([cap], WeiboImageHost, ',', true) == UrlsOf(cap, WeiboImageHost, ',', true) + [];
  }

  /** In JSON mode with a prefix already on `https://`, every URL starts with the prefix. */
  lemma {:induction false} JsonUrlsStartWith(caps: seq<string>, prefix: string, delimiter: char)
    requires StartsWith(prefix, "https://")
    ensures forall k :: 0 <= k < |UrlsFromCaptures(caps, prefix, delimiter, true)| ==>
              StartsWith(UrlsFromCaptures(caps, prefix, delimiter, true)[k], prefix)
    decreases |caps|
  {
    if caps != [] {
      JsonUrlsStartWith(caps[1..], prefix, delimiter);
      var head := UrlsOf(caps[0], prefix, delimiter, true);
      var tail := UrlsFromCaptures(caps[1..], prefix, delimiter, true);
      var ids := Split(RemoveAll(caps[0], '"'), delimiter);
      var urls := UrlsFromCaptures(caps, prefix, delimiter, true);
      assert forall j :: 0 <= j < |tail| ==> StartsWith(tail[j], prefix);
      assert urls == head + tail;
      forall k | 0 <= k < |urls| ensures StartsWith(urls[k], prefix) {
        if k < |head| {
          var s := prefix + ids[k];
          assert s[..|prefix|] == prefix;
          assert s[..7] == prefix[..7] != "http://" by {
            assert prefix[..8] == "https://";
          }
          assert urls[k] == head[k] == EnsureHttps(s) == s;
          assert StartsWith(s, prefix);
        } else {
          assert urls[k] == tail[k - |head|];
        }
      }
    }
  }

  /** Every Weibo URL lies on the image host. */
  lemma WeiboUrlsOnImageHost(text: string)
    ensures forall k :: 0 <= k < |ParsedUrls(text, WeiboImages)| ==>
              StartsWith(ParsedUrls(text, WeiboImages)[k], WeiboImageHost)
  {
    JsonUrlsStartWith(Captures(text, JsonArray("pic_ids"), 0), WeiboImageHost, ',');
  }

  /** The unrecognised downloaders, and the Xiaohongshu image downloader, parse nothing. */
  lemma UnparsedDownloaders(text: string, name: string)
    requires Classify(name) in {XiaohongshuImages, PixivImages} || Classify(name).Unrecognised?
    ensures ParsedUrls(text, Classify(name)) == []
  {}
}
