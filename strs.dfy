/** String surgery shared by the key generator, the URL rewriting and the
    response parser: JavaScript's `split`, `startsWith`, `lastIndexOf`,
    a trailing-character trim and a character filter. */
module Strs {

  predicate StartsWith(s: string, p: string) {
    |p| <= |s| && s[..|p|] == p
  }

  predicate EndsWith(s: string, p: string) {
    |p| <= |s| && s[|s| - |p|..] == p
  }

  /** `p` occurs in `s` starting at index `i`. */
  predicate OccursAt(s: string, p: string, i: int) {
    0 <= i && i + |p| <= |s| && s[i..i + |p|] == p
  }

  predicate Contains(s: string, p: string) {
    exists i :: 0 <= i <= |s| && OccursAt(s, p, i)
  }

  /** Number of occurrences of the character `c` in `s`. */
  function Count(s: string, c: char): (n: nat)
    ensures n == 0 <==> c !in s
  {
    if s == [] then 0 else (if s[0] == c then 1 else 0) + Count(s[1..], c)
  }

  /** JavaScript's `s.split(c)` for a one-character separator: the pieces
      between consecutive separators, always at least one piece. */
  function Split(s: string, c: char): (parts: seq<string>)
    ensures |parts| == Count(s, c) + 1
    ensures forall k :: 0 <= k < |parts| ==> c !in parts[k]
  {
    if s == [] then [""]
    else
      var rest := Split(s[1..], c);
      if s[0] == c then [""] + rest else [[s[0]] + rest[0]] + rest[1..]
  }

  /** Inverse of Split: the pieces glued back with the separator. */
  function Join(parts: seq<string>, c: char): string {
    if |parts| == 0 then ""
    else if |parts| == 1 then parts[0]
    else parts[0] + [c] + Join(parts[1..], c)
  }

  lemma {:induction false} JoinSplit(s: string, c: char)
    ensures Join(Split(s, c), c) == s
  {
    if s != [] {
      var rest := Split(s[1..], c);
      JoinSplit(s[1..], c);
      if s[0] == c {
        assert Split(s, c) == [""] + rest;
        assert ([""] + rest)[1..] == rest;
      } else {
        var parts := [[s[0]] + rest[0]] + rest[1..];
        assert Split(s, c) == parts;
        if |rest| == 1 {
          assert Join(rest, c) == rest[0];
        } else {
          assert parts[1..] == rest[1..];
          assert Join(rest, c) == rest[0] + [c] + Join(rest[1..], c);
        }
      }
    }
  }

  function Last<T>(xs: seq<T>): T
    requires |xs| > 0
  {
    xs[|xs| - 1]
  }

  /** `s.split(c).pop()`: the text after the last `c` (all of `s` if none). */
  function LastSegment(s: string, c: char): string {
    Last(Split(s, c))
  }

  /** `s.split(c)[0]`: the text before the first `c` (all of `s` if none). */
  function FirstSegment(s: string, c: char): string {
    Split(s, c)[0]
  }

  lemma {:induction false} LastSegmentIsSuffix(s: string, c: char)
    ensures c !in LastSegment(s, c)
    ensures EndsWith(s, LastSegment(s, c))
    ensures |LastSegment(s, c)| < |s| ==> s[|s| - |LastSegment(s, c)| - 1] == c
    ensures c !in s ==> LastSegment(s, c) == s
    decreases |s|, 1
  {
    if s != [] {
      if s[0] == c || |Split(s[1..], c)| > 1 {
        LastSegmentOfTail(s, c);
      } else {
        LastSegmentOfSingle(s, c);
      }
    }
  }

  /** When the only separator-free piece of the tail is all of it and `s`
      does not start with one, `s` is one piece. */
  lemma LastSegmentOfSingle(s: string, c: char)
    requires s != [] && s[0] != c && |Split(s[1..], c)| == 1
    ensures LastSegment(s, c) == s && c !in s
  {
    JoinSplit(s[1..], c);
    assert Split(s, c) == [[s[0]] + Split(s[1..], c)[0]];
    assert s == [s[0]] + s[1..];
  }

  /** When `s` has a separator past its first character, or starts with
      one, the last piece is the tail's. */
  lemma LastSegmentOfTail(s: string, c: char)
    requires s != [] && (s[0] == c || |Split(s[1..], c)| > 1)
    ensures LastSegment(s, c) == LastSegment(s[1..], c) && c in s
    ensures c !in LastSegment(s, c)
    ensures EndsWith(s, LastSegment(s, c))
    ensures |LastSegment(s, c)| < |s| ==> s[|s| - |LastSegment(s, c)| - 1] == c
    decreases |s|, 0
  {
    LastSegmentIsSuffix(s[1..], c);
    var rest := Split(s[1..], c);
    var l := LastSegment(s[1..], c);
    var parts := Split(s, c);
    if s[0] == c {
      assert parts == [""] + rest;
      assert parts[|parts| - 1] == rest[|rest| - 1];
    } else {
      assert parts == [[s[0]] + rest[0]] + rest[1..];
      assert parts[|parts| - 1] == rest[1..][|rest| - 2] == rest[|rest| - 1];
      assert c in s[1..];
    }
    assert LastSegment(s, c) == l;
    assert s[1..][|s| - 1 - |l|..] == s[|s| - |l|..];
  }

  lemma {:induction false} FirstSegmentIsPrefix(s: string, c: char)
    ensures c !in FirstSegment(s, c)
    ensures StartsWith(s, FirstSegment(s, c))
    ensures |FirstSegment(s, c)| < |s| ==> s[|FirstSegment(s, c)|] == c
    ensures c !in s ==> FirstSegment(s, c) == s
  {
    if s != [] {
      FirstSegmentIsPrefix(s[1..], c);
      var rest := Split(s[1..], c);
      if s[0] != c {
        assert Split(s, c)[0] == [s[0]] + rest[0];
        assert s == [s[0]] + s[1..];
      }
    }
  }

  /** `s.lastIndexOf(c)`: the index of the last `c`, or -1. */
  function LastIndexOf(s: string, c: char): (i: int)
    ensures -1 <= i < |s|
    ensures 0 <= i ==> s[i] == c && c !in s[i + 1..]
    ensures i == -1 <==> c !in s
  {
    if s == [] then -1
    else if s[|s| - 1] == c then |s| - 1
    else
      var j := LastIndexOf(s[..|s| - 1], c);
      assert s == s[..|s| - 1] + [s[|s| - 1]];
      assert 0 <= j ==> s[j + 1..] == s[..|s| - 1][j + 1..] + [s[|s| - 1]];
      j
  }

  /** `s.replace(/c+$/, '')`: `s` without its run of trailing `c`s. */
  function TrimTrailing(s: string, c: char): (r: string)
    ensures StartsWith(s, r)
    ensures r == [] || r[|r| - 1] != c
    ensures forall k :: |r| <= k < |s| ==> s[k] == c
  {
    if |s| > 0 && s[|s| - 1] == c then TrimTrailing(s[..|s| - 1], c) else s
  }

  /** `s.replace(/c/g, '')`: `s` with every `c` deleted. The result is
      free of `c`, is obtained from `s` by deletions, and is shorter by
      exactly the number of `c`s, so only those are deleted. */
  function RemoveAll(s: string, c: char): (r: string)
    ensures c !in r
    ensures IsSubsequence(r, s)
    ensures |r| == |s| - Count(s, c)
  {
    if s == [] then ""
    else if s[0] == c then
      var r := RemoveAll(s[1..], c);
      SubsequenceDropHead(r, s);
      r
    else
      var r := [s[0]] + RemoveAll(s[1..], c);
      assert r[1..] == RemoveAll(s[1..], c);
      r
  }

  /** Every other character keeps its number of occurrences. */
  lemma {:induction false} RemoveAllKeepsOthers(s: string, c: char, d: char)
    requires d != c
    ensures Count(RemoveAll(s, c), d) == Count(s, d)
    decreases |s|
  {
    if s != [] {
      RemoveAllKeepsOthers(s[1..], c, d);
      if s[0] != c {
        assert ([s[0]] + RemoveAll(s[1..], c))[1..] == RemoveAll(s[1..], c);
      }
    }
  }

  lemma {:induction false} RemoveAllConcat(a: string, b: string, c: char)
    ensures RemoveAll(a + b, c) == RemoveAll(a, c) + RemoveAll(b, c)
    decreases |a|
  {
    if a == [] {
      assert a + b == b;
    } else {
      assert (a + b)[0] == a[0] && (a + b)[1..] == a[1..] + b;
      RemoveAllConcat(a[1..], b, c);
    }
  }

  /** Without a `c` there is nothing to delete. */
  lemma {:induction false} RemoveAllAbsent(s: string, c: char)
    requires c !in s
    ensures RemoveAll(s, c) == s
    decreases |s|
  {
    if s != [] {
      assert c !in s[1..];
      RemoveAllAbsent(s[1..], c);
      assert s == [s[0]] + s[1..];
    }
  }

  /** Removing the character from a text it encloses gives the text. */
  lemma RemoveAllQuoted(s: string, c: char)
    requires c !in s
    ensures RemoveAll([c] + s + [c], c) == s
  {
    RemoveAllConcat([c] + s, [c], c);
    RemoveAllConcat([c], s, c);
    RemoveAllAbsent(s, c);
    assert RemoveAll([c], c) == [];
  }

  /** Without a separator, splitting gives the whole text as the one piece. */
  lemma SplitAbsent(s: string, c: char)
    requires c !in s
    ensures Split(s, c) == [s]
  {
    JoinSplit(s, c);
  }

  /** `a` can be obtained from `b` by deleting characters. */
  predicate IsSubsequence<T(==)>(a: seq<T>, b: seq<T>)
    decreases |b|
  {
    if a == [] then true
    else if b == [] then false
    else if a[0] == b[0] then IsSubsequence(a[1..], b[1..])
    else IsSubsequence(a, b[1..])
  }

  /** The number a string of decimal digits denotes, most significant first. */
  function DigitsValue(s: string): int {
    if s == [] then 0 else 10 * DigitsValue(s[..|s| - 1]) + (s[|s| - 1] as int - '0' as int)
  }

  /** The decimal digits of `n`, as `${n}` prints a non-negative integer:
      digits denoting `n`, with no leading zero unless `n` is zero. */
  function Decimal(n: nat): (r: string)
    ensures |r| > 0
    ensures forall k :: 0 <= k < |r| ==> '0' <= r[k] <= '9'
    ensures DigitsValue(r) == n
    ensures r[0] == '0' <==> n == 0
  {
    var d := ['0' + (n % 10) as char];
    if n < 10 then d
    else
      var r := Decimal(n / 10) + d;
      assert r[..|r| - 1] == Decimal(n / 10);
      r
  }

  /** Different numbers print differently. */
  lemma DecimalInjective(m: nat, n: nat)
    requires Decimal(m) == Decimal(n)
    ensures m == n
  {
    assert DigitsValue(Decimal(m)) == m;
  }

  lemma {:induction false} SubsequenceDropHead<T>(a: seq<T>, b: seq<T>)
    requires b != [] && IsSubsequence(a, b[1..])
    ensures IsSubsequence(a, b)
    decreases |b|, 0
  {
    if a != [] && a[0] == b[0] {
      SubsequenceTail(a, b[1..]);
    }
  }

  lemma {:induction false} SubsequenceTail<T>(a: seq<T>, c: seq<T>)
    requires a != [] && IsSubsequence(a, c)
    ensures IsSubsequence(a[1..], c)
    decreases |c|, 1
  {
    if a[0] == c[0] {
      if a[1..] != [] {
        SubsequenceDropHead(a[1..], c);
      }
    } else {
      SubsequenceTail(a, c[1..]);
      if a[1..] != [] {
        SubsequenceDropHead(a[1..], c);
      }
    }
  }
}
