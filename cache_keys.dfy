/** Cache-key naming and public URL construction of the caching proxy
    (`generateKey` and `buildPublicUrl`, present as two identical copies in
    src/resourceProxy.js and src/downloadProxy.js). A key has the layout
    `cache/<prefix>/[<sourceId>/]<name>.<ext>`. */
module CacheKeys {
  import opened Wrappers
  import opened Strs

  predicate IsAlnum(c: char) {
    'a' <= c <= 'z' || 'A' <= c <= 'Z' || '0' <= c <= '9'
  }

  /** Length of the longest run of `[a-zA-Z0-9]` starting at `i`. */
  function AlnumRun(s: string, i: nat): (n: nat)
    requires i <= |s|
    ensures i + n <= |s|
    ensures forall j :: i <= j < i + n ==> IsAlnum(s[j])
    ensures i + n == |s| || !IsAlnum(s[i + n])
    decreases |s| - i
  {
    if i < |s| && IsAlnum(s[i]) then 1 + AlnumRun(s, i + 1) else 0
  }

  /** The run found by AlnumRun is the only alphanumeric run from `i` that is
      followed by a non-alphanumeric character or the end. */
  lemma {:induction false} AlnumRunUnique(s: string, i: nat, m: nat)
    requires i + m <= |s|
    requires forall j :: i <= j < i + m ==> IsAlnum(s[j])
    requires i + m == |s| || !IsAlnum(s[i + m])
    ensures AlnumRun(s, i) == m
    decreases m
  {
    if m > 0 {
      AlnumRunUnique(s, i + 1, m - 1);
    }
  }

  /** The regular expression `\.([a-zA-Z0-9]+)(\?|$)` matches at index `p` of
      `s` with `e` as its first group. */
  ghost predicate ExtMatchAt(s: string, p: int, e: string) {
    && 0 <= p && p + 1 + |e| <= |s|
    && s[p] == '.' && |e| > 0 && s[p + 1..p + 1 + |e|] == e
    && (forall k :: 0 <= k < |e| ==> IsAlnum(e[k]))
    && (p + 1 + |e| == |s| || s[p + 1 + |e|] == '?')
  }

  /** A dot at `p` followed by a non-empty alphanumeric run ending at `?` or the end. */
  predicate DotStartsExt(s: string, p: nat)
    requires p < |s|
  {
    var n := AlnumRun(s, p + 1);
    s[p] == '.' && n > 0 && (p + 1 + n == |s| || s[p + 1 + n] == '?')
  }

  lemma ExtMatchIsDotStart(s: string, p: nat, e: string)
    requires ExtMatchAt(s, p, e)
    ensures p < |s| && DotStartsExt(s, p) && e == s[p + 1..p + 1 + AlnumRun(s, p + 1)]
  {
    assert forall j :: p + 1 <= j < p + 1 + |e| ==> s[j] == e[j - p - 1];
    AlnumRunUnique(s, p + 1, |e|);
  }

  /** Leftmost index at or after `from` where the pattern matches (how
      `String.prototype.match` searches a non-global regular expression). */
  function FindExtDot(s: string, from: nat): (r: Option<nat>)
    requires from <= |s|
    ensures r.Some? ==> from <= r.value < |s| && DotStartsExt(s, r.value)
    ensures r.Some? ==> forall q: nat :: from <= q < r.value ==> !DotStartsExt(s, q)
    ensures r.None? ==> forall q: nat :: from <= q < |s| ==> !DotStartsExt(s, q)
    decreases |s| - from
  {
    if from == |s| then None
    else if DotStartsExt(s, from) then Some(from)
    else FindExtDot(s, from + 1)
  }

  /** The file extension guess: the first group of the leftmost match of
      `\.([a-zA-Z0-9]+)(\?|$)`, else `jpg`. */
  function Extension(url: string): (ext: string)
    ensures |ext| > 0 && forall k :: 0 <= k < |ext| ==> IsAlnum(ext[k])
  {
    match FindExtDot(url, 0)
    case Some(p) => url[p + 1..p + 1 + AlnumRun(url, p + 1)]
    case None => "jpg"
  }

  /** A dot found by the search starts a match whose group is the extension. */
  lemma ExtensionFound(url: string)
    ensures FindExtDot(url, 0).Some? ==> ExtMatchAt(url, FindExtDot(url, 0).value, Extension(url))
  {}

  /** Without a match the extension is `jpg`. */
  lemma ExtensionDefault(url: string)
    requires forall p, e :: !ExtMatchAt(url, p, e)
    ensures Extension(url) == "jpg"
  {
    ExtensionFound(url);
  }

  /** With a match, the extension is the group of the leftmost one. */
  lemma ExtensionLeftmost(url: string, p: int, e: string)
    requires ExtMatchAt(url, p, e) && forall q, e' :: q < p ==> !ExtMatchAt(url, q, e')
    ensures Extension(url) == e
  {
    ExtMatchIsDotStart(url, p, e);
    ExtensionFound(url);
    var p0 := FindExtDot(url, 0).value;
    assert p0 == p;
  }

  lemma NotAlnumDot()
    ensures !IsAlnum('.')
  {}

  /** A source id is used only when it is truthy: present and non-empty. */
  predicate Truthy(sourceId: Option<string>) {
    sourceId.Some? && sourceId.value != ""
  }

  /** The last `/`-segment of the URL, cut at the first `?`, with everything
      from its last `.` removed when it contains a `.`. */
  function FileStem(url: string): (stem: string)
    ensures '/' !in stem && '?' !in stem
  {
    var segment := LastSegment(url, '/');
    var lastPart := FirstSegment(segment, '?');
    LastSegmentIsSuffix(url, '/');
    FirstSegmentIsPrefix(segment, '?');
    assert forall k :: 0 <= k < |lastPart| ==> lastPart[k] == segment[k];
    if '.' in lastPart then lastPart[..LastIndexOf(lastPart, '.')] else lastPart
  }

  lemma FileStemSpec(url: string)
    ensures var part := FirstSegment(LastSegment(url, '/'), '?');
            && StartsWith(part, FileStem(url))
            && ('.' !in part ==> FileStem(url) == part)
            && ('.' in part ==> part[|FileStem(url)|] == '.' && '.' !in part[|FileStem(url)| + 1..])
  {}

  /** The part of the key between the prefix and the extension: the owner
      directory and the stem, or the hex MD5 digest of the whole URL. */
  function KeyName(url: string, sourceId: Option<string>, md5hex: string -> string): string {
    if Truthy(sourceId) then sourceId.value + "/" + FileStem(url) else md5hex(url)
  }

  /** `generateKey(url, prefix, sourceId)`, with the MD5 hex digest as a parameter. */
  function GenerateKey(url: string, prefix: string, sourceId: Option<string>, md5hex: string -> string): string {
    "cache/" + prefix + "/" + KeyName(url, sourceId, md5hex) + "." + Extension(url)
  }

  lemma LastDotSeparatesExtension(a: string, e: string)
    requires '.' !in e
    ensures LastIndexOf(a + "." + e, '.') == |a|
  {
    var s := a + "." + e;
    assert s[|a|] == '.';
    assert s[|a| + 1..] == e;
  }

  /** Splitting at the last dot undoes `a + "." + e` when `e` holds no dot. */
  lemma DotJoinInjective(a1: string, e1: string, a2: string, e2: string)
    requires '.' !in e1 && '.' !in e2
    requires a1 + "." + e1 == a2 + "." + e2
    ensures a1 == a2 && e1 == e2
  {
    LastDotSeparatesExtension(a1, e1);
    LastDotSeparatesExtension(a2, e2);
    var s := a1 + "." + e1;
    assert a1 == s[..|a1|] && e1 == s[|a1| + 1..];
    assert a2 == s[..|a2|] && e2 == s[|a2| + 1..];
  }

  lemma PrefixCancel(h: string, a: string, b: string)
    requires h + a == h + b
    ensures a == b
  {
    assert a == (h + a)[|h|..];
    assert b == (h + b)[|h|..];
  }

  lemma ExtensionHasNoDot(url: string)
    ensures '.' !in Extension(url)
  {
    NotAlnumDot();
  }

  /** Keys agree exactly when their names and extensions agree: with the
      prefix and owner fixed, two URLs share a key only if their stems (or
      digests) and extensions are identical. */
  lemma KeyInjective(u1: string, u2: string, prefix: string, sourceId: Option<string>, md5hex: string -> string)
    ensures GenerateKey(u1, prefix, sourceId, md5hex) == GenerateKey(u2, prefix, sourceId, md5hex)
        <==> KeyName(u1, sourceId, md5hex) == KeyName(u2, sourceId, md5hex) && Extension(u1) == Extension(u2)
    ensures Truthy(sourceId) ==>
        (GenerateKey(u1, prefix, sourceId, md5hex) == GenerateKey(u2, prefix, sourceId, md5hex)
         <==> FileStem(u1) == FileStem(u2) && Extension(u1) == Extension(u2))
  {
    var head := "cache/" + prefix + "/";
    var n1, n2 := KeyName(u1, sourceId, md5hex), KeyName(u2, sourceId, md5hex);
    var e1, e2 := Extension(u1), Extension(u2);
    assert GenerateKey(u1, prefix, sourceId, md5hex) == (head + n1) + "." + e1;
    assert GenerateKey(u2, prefix, sourceId, md5hex) == (head + n2) + "." + e2;
    ExtensionHasNoDot(u1);
    ExtensionHasNoDot(u2);
    if (head + n1) + "." + e1 == (head + n2) + "." + e2 {
      DotJoinInjective(head + n1, e1, head + n2, e2);
      PrefixCancel(head, n1, n2);
    }
    if Truthy(sourceId) {
      var id := sourceId.value + "/";
      assert n1 == id + FileStem(u1) && n2 == id + FileStem(u2);
      if n1 == n2 {
        PrefixCancel(id, FileStem(u1), FileStem(u2));
      }
    }
  }

  /** Without a truthy source id the key is a function of the URL and the
      prefix only: any falsy source id gives the same key, and that key names
      the URL's digest. */
  lemma HashedKeyIgnoresSourceId(url: string, prefix: string, s1: Option<string>, s2: Option<string>, md5hex: string -> string)
    requires !Truthy(s1) && !Truthy(s2)
    ensures GenerateKey(url, prefix, s1, md5hex) == GenerateKey(url, prefix, s2, md5hex)
    ensures GenerateKey(url, prefix, s1, md5hex) == "cache/" + prefix + "/" + md5hex(url) + "." + Extension(url)
  {}

  /** `buildPublicUrl({publicBase, endpoint, bucket, key})`. `None` stands for
      the TypeError raised when `publicBase` is empty and `endpoint` is
      undefined. */
  function BuildPublicUrl(publicBase: string, endpoint: Option<string>, bucket: string, key: string): (r: Option<string>)
    ensures r.Some? ==> EndsWith(r.value, "/" + key)
    ensures publicBase != "" ==> r == Some(TrimTrailing(publicBase, '/') + "/" + key)
    ensures publicBase == "" ==> (r.Some? <==> endpoint.Some?)
    ensures publicBase == "" && endpoint.Some? ==>
              r.value == TrimTrailing(endpoint.value, '/') + "/" + bucket + "/" + key
  {
    if publicBase != "" then
      Some(TrimTrailing(publicBase, '/') + "/" + key)
    else if endpoint.Some? then
      Some(TrimTrailing(endpoint.value, '/') + "/" + bucket + "/" + key)
    else
      None
  }
}
