/** The pure parts of `PixivProxy` (src/pixivProxy.js): the whitelist filter on
    the file name, the illustration id, the fixed key layout
    `cache/pixiv/<illustId>/<fileName>` and the download headers. */
module PixivNames {
  import opened Strs
  import opened CacheKeys

  /** `[a-zA-Z0-9._-]`. */
  predicate IsSafe(c: char) {
    IsAlnum(c) || c == '.' || c == '_' || c == '-'
  }

  /** `raw.replace(/[^a-zA-Z0-9._-]/g, '')`. */
  function SafeFilter(s: string): (r: string)
    ensures forall k :: 0 <= k < |r| ==> IsSafe(r[k])
    ensures IsSubsequence(r, s)
    ensures |r| <= |s|
    ensures r == [] <==> forall k :: 0 <= k < |s| ==> !IsSafe(s[k])
  {
    if s == [] then ""
    else if IsSafe(s[0]) then [s[0]] + SafeFilter(s[1..])
    else
      var r := SafeFilter(s[1..]);
      SubsequenceDropHead(r, s);
      r
  }

  /** The filter keeps every character of an already safe string. */
  lemma {:induction false} SafeFilterKeepsSafe(s: string)
    requires forall k :: 0 <= k < |s| ==> IsSafe(s[k])
    ensures SafeFilter(s) == s
  {
    if s != [] {
      SafeFilterKeepsSafe(s[1..]);
    }
  }

  /** The filter works character by character: a safe character is kept,
      any other is deleted. */
  lemma SafeFilterChar(c: char)
    ensures SafeFilter([c]) == (if IsSafe(c) then [c] else [])
  {}

  /** Filtering distributes over concatenation, so with SafeFilterChar the
      result is the input with its unsafe characters deleted, in order. */
  lemma {:induction false} SafeFilterConcat(a: string, b: string)
    ensures SafeFilter(a + b) == SafeFilter(a) + SafeFilter(b)
    decreases |a|
  {
    if a != [] {
      assert (a + b)[0] == a[0] && (a + b)[1..] == a[1..] + b;
      SafeFilterConcat(a[1..], b);
      if IsSafe(a[0]) {
        assert SafeFilter(a + b) == [a[0]] + (SafeFilter(a[1..]) + SafeFilter(b));
      }
    } else {
      assert a + b == b;
    }
  }

  /** Filtering twice changes nothing. */
  lemma SafeFilterIdempotent(s: string)
    ensures SafeFilter(SafeFilter(s)) == SafeFilter(s)
  {
    SafeFilterKeepsSafe(SafeFilter(s));
  }

  /** `extractPixivFilename`: the last segment of the URL's pathname with every
      character outside the whitelist deleted. */
  function ExtractPixivFilename(pathname: string): (name: string)
    ensures forall k :: 0 <= k < |name| ==> IsSafe(name[k])
    ensures IsSubsequence(name, LastSegment(pathname, '/'))
    ensures name == [] <==> forall k :: 0 <= k < |LastSegment(pathname, '/')| ==> !IsSafe(LastSegment(pathname, '/')[k])
  {
    SafeFilter(LastSegment(pathname, '/'))
  }

  /** The name is the filtered piece after the last `/`, so by
      SafeFilterConcat and SafeFilterChar it is that piece with exactly its
      unsafe characters deleted. */
  lemma FilenameOfLastPiece(dir: string, piece: string)
    requires '/' !in piece
    ensures ExtractPixivFilename(dir + "/" + piece) == SafeFilter(piece)
  {
    LastSegmentAfterSlash(dir, piece);
  }

  predicate IsDigit(c: char) {
    '0' <= c <= '9'
  }

  /** Length of the run of ASCII digits starting at `i`. */
  function DigitRun(s: string, i: nat): (n: nat)
    requires i <= |s|
    ensures i + n <= |s|
    ensures forall j :: i <= j < i + n ==> IsDigit(s[j])
    ensures i + n == |s| || !IsDigit(s[i + n])
    decreases |s| - i
  {
    if i < |s| && IsDigit(s[i]) then 1 + DigitRun(s, i + 1) else 0
  }

  lemma {:induction false} DigitRunUnique(s: string, i: nat, m: nat)
    requires i + m <= |s|
    requires forall j :: i <= j < i + m ==> IsDigit(s[j])
    requires i + m == |s| || !IsDigit(s[i + m])
    ensures DigitRun(s, i) == m
    decreases m
  {
    if m > 0 {
      DigitRunUnique(s, i + 1, m - 1);
    }
  }

  /** `/^(\d+)_p\d+\./` matches `name`: a digit run, `_p`, a digit run, a dot. */
  predicate MatchesIllustPattern(name: string) {
    var d := DigitRun(name, 0);
    && d > 0 && d + 2 <= |name| && name[d..d + 2] == "_p"
    && var e := DigitRun(name, d + 2);
       e > 0 && d + 2 + e < |name| && name[d + 2 + e] == '.'
  }

  /** The first group of that match, else `unknown`. */
  function IllustId(name: string): string {
    if MatchesIllustPattern(name) then name[..DigitRun(name, 0)] else "unknown"
  }

  /** A name of the form `<digits>_p<digits>.<rest>` has the leading digits as id. */
  lemma IllustIdOfPattern(d: string, e: string, rest: string)
    requires |d| > 0 && forall k :: 0 <= k < |d| ==> IsDigit(d[k])
    requires |e| > 0 && forall k :: 0 <= k < |e| ==> IsDigit(e[k])
    ensures IllustId(d + "_p" + e + "." + rest) == d
  {
    var name := d + "_p" + e + "." + rest;
    assert forall j :: 0 <= j < |d| ==> name[j] == d[j];
    DigitRunUnique(name, 0, |d|);
    assert name[|d|..|d| + 2] == "_p";
    assert forall j :: |d| + 2 <= j < |d| + 2 + |e| ==> name[j] == e[j - |d| - 2];
    DigitRunUnique(name, |d| + 2, |e|);
  }

  /** Conversely, an id other than `unknown` is a non-empty digit run that the
      name starts with, followed by `_p`, a digit run and a dot. */
  lemma IllustIdSound(name: string)
    ensures var id := IllustId(name);
            id == "unknown" ||
            (&& |id| > 0 && (forall k :: 0 <= k < |id| ==> IsDigit(id[k]))
             && StartsWith(name, id + "_p")
             && var e := DigitRun(name, |id| + 2); e > 0 && |id| + 2 + e < |name| && name[|id| + 2 + e] == '.')
  {
    if MatchesIllustPattern(name) {
      var d := DigitRun(name, 0);
      assert IllustId(name) == name[..d];
      assert name[..d] + "_p" == name[..d + 2];
    }
  }

  /** A name that does not start with a digit has no id. */
  lemma IllustIdNeedsLeadingDigit(name: string)
    requires !(|name| > 0 && IsDigit(name[0]))
    ensures IllustId(name) == "unknown"
  {
    assert DigitRun(name, 0) == 0;
  }

  /** The file name used in the key: the extracted one, or the timestamped
      fallback when nothing survives the filter. */
  function FinalName(pathname: string, now: nat): string {
    var filename := ExtractPixivFilename(pathname);
    if filename != "" then filename else "unknown_" + Decimal(now) + ".jpg"
  }

  /** The overridden `generateKey(url)`: `cache/pixiv/<illustId>/<finalName>`;
      the prefix and the source id of the caller play no part. */
  function PixivKey(pathname: string, now: nat): string {
    var finalName := FinalName(pathname, now);
    "cache/pixiv/" + IllustId(finalName) + "/" + finalName
  }

  lemma LastSegmentAfterSlash(a: string, b: string)
    requires '/' !in b
    ensures LastSegment(a + "/" + b, '/') == b
  {
    var s := a + "/" + b;
    var L := LastSegment(s, '/');
    LastSegmentIsSuffix(s, '/');
    assert s[|a|] == '/';
    assert s[|a| + 1..] == b;
  }

  /** A safe name `<digits>_p<digits>.<rest>` is filed under its leading digits. */
  lemma KeyOfPatternName(dir: string, d: string, e: string, rest: string, now: nat)
    requires |d| > 0 && forall k :: 0 <= k < |d| ==> IsDigit(d[k])
    requires |e| > 0 && forall k :: 0 <= k < |e| ==> IsDigit(e[k])
    requires '/' !in rest && forall k :: 0 <= k < |rest| ==> IsSafe(rest[k])
    ensures var name := d + "_p" + e + "." + rest;
            PixivKey(dir + "/" + name, now) == "cache/pixiv/" + d + "/" + name
  {
    var name := d + "_p" + e + "." + rest;
    assert forall k :: 0 <= k < |name| ==> IsSafe(name[k]) by {
      forall k | 0 <= k < |name| ensures IsSafe(name[k]) {
        if k < |d| { assert name[k] == d[k]; }
        else if k < |d| + 2 { }
        else if k < |d| + 2 + |e| { assert name[k] == e[k - |d| - 2]; }
        else if k > |d| + 2 + |e| { assert name[k] == rest[k - |d| - 3 - |e|]; }
      }
    }
    FinalNameOfSafe(dir, name, now);
    IllustIdOfPattern(d, e, rest);
  }

  lemma FinalNameOfSafe(dir: string, name: string, now: nat)
    requires name != [] && '/' !in name && forall k :: 0 <= k < |name| ==> IsSafe(name[k])
    ensures FinalName(dir + "/" + name, now) == name
  {
    LastSegmentAfterSlash(dir, name);
    SafeFilterKeepsSafe(name);
  }

  /** Nothing left after filtering: the fallback name, filed under `unknown`. */
  lemma EmptyNameFallsBack(pathname: string, now: nat)
    requires ExtractPixivFilename(pathname) == ""
    ensures PixivKey(pathname, now) == "cache/pixiv/unknown/unknown_" + Decimal(now) + ".jpg"
  {
    IllustIdNeedsLeadingDigit("unknown_" + Decimal(now) + ".jpg");
  }

  const PixivReferer: string := "https://www.pixiv.net/"

  /** The overridden `getDownloadHeaders`: the Pixiv Referer and the stored
      cookie, with the caller's headers of the same name taking precedence. */
  function PixivHeaders(pixivCookie: string, headers: map<string, string>): (h: map<string, string>)
    ensures h.Keys == headers.Keys + {"Referer", "Cookie"}
    ensures h["Referer"] == (if "Referer" in headers then headers["Referer"] else PixivReferer)
    ensures h["Cookie"] == (if "Cookie" in headers then headers["Cookie"] else pixivCookie)
    ensures forall k :: k in headers ==> h[k] == headers[k]
  {
    map["Referer" := PixivReferer, "Cookie" := pixivCookie] + headers
  }
}
