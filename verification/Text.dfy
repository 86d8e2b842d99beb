/**
 Byte text and its lines.

 A byte string is a `string` holding one character per byte.  Only LF ends a line: a line is a
 nonempty string whose only LF, if any, is its last character.
 */
module Text {
  import opened Wrappers

  function Join(pieces: seq<string>): string {
    if pieces == [] then "" else pieces[0] + Join(pieces[1..])
  }

  lemma {:induction false} JoinConcat(a: seq<string>, b: seq<string>)
    ensures Join(a + b) == Join(a) + Join(b)
  {
    if a == [] {
      assert a + b == b;
    } else {
      assert (a + b)[1..] == a[1..] + b;
      JoinConcat(a[1..], b);
    }
  }

  /** Position of the first `c`, or the length of `s` when there is none. */
  function IndexOf(s: string, c: char): (k: nat)
    ensures k <= |s|
    ensures c !in s[..k]
    ensures k < |s| ==> s[k] == c
  {
    if s == "" then 0
    else if s[0] == c then 0
    else
      var k := 1 + IndexOf(s[1..], c);
      assert s[..k] == [s[0]] + s[1..][..k - 1];
      k
  }

  lemma {:induction false} IndexOfUnique(s: string, c: char, k: nat)
    requires k < |s| && s[k] == c && c !in s[..k]
    ensures IndexOf(s, c) == k
  {
    if k > 0 {
      assert s[0] in s[..k] && s[1..][..k - 1] == s[..k][1..];
      IndexOfUnique(s[1..], c, k - 1);
    }
  }

  predicate StartsWith(s: string, prefix: string) {
    |prefix| <= |s| && s[..|prefix|] == prefix
  }

  lemma StartsWithAt(s: string, prefix: string, k: nat)
    requires k < |prefix|
    ensures StartsWith(s, prefix) ==> k < |s| && s[k] == prefix[k]
  {
    if StartsWith(s, prefix) {
      assert s[..|prefix|][k] == prefix[k];
    }
  }

  /** What follows `prefix`, or `None` when `s` does not start with it. */
  function Drop(s: string, prefix: string): Option<string> {
    if StartsWith(s, prefix) then Some(s[|prefix|..]) else None
  }

  lemma DropOf(prefix: string, rest: string)
    ensures Drop(prefix + rest, prefix) == Some(rest)
  {
    assert (prefix + rest)[..|prefix|] == prefix;
    assert (prefix + rest)[|prefix|..] == rest;
  }

  /** `s` cut in two before its first `c`. */
  function CutAt(s: string, c: char): (string, string) {
    (s[..IndexOf(s, c)], s[IndexOf(s, c)..])
  }

  lemma CutAtOf(first: string, rest: string, c: char)
    requires c !in first && rest != "" && rest[0] == c
    ensures CutAt(first + rest, c) == (first, rest)
  {
    var s := first + rest;
    assert s[..|first|] == first && s[|first|..] == rest;
    IndexOfUnique(s, c, |first|);
  }

  predicate EndsWithLf(s: string) {
    |s| > 0 && s[|s| - 1] == '\n'
  }

  predicate IsLine(l: string) {
    |l| > 0 && '\n' !in l[..|l| - 1]
  }

  /** A file's lines: every line but the last must end in LF. */
  predicate IsLines(lines: seq<string>) {
    forall k :: 0 <= k < |lines| ==> IsLine(lines[k]) && (k < |lines| - 1 ==> EndsWithLf(lines[k]))
  }

  /** Cut a byte string after every LF; a missing final LF leaves a last line without one. */
  function SplitLf(s: string): (lines: seq<string>)
    ensures Join(lines) == s
    ensures IsLines(lines)
  {
    if s == "" then []
    else
      var k := IndexOf(s, '\n');
      if k == |s| then
        assert s[..|s|] == s;
        [s]
      else
        var first := s[..k + 1];
        assert first[..|first| - 1] == s[..k];
        var rest := SplitLf(s[k + 1..]);
        assert s == first + s[k + 1..];
        [first] + rest
  }

  lemma {:induction false} SplitOfJoin(lines: seq<string>)
    requires IsLines(lines)
    ensures SplitLf(Join(lines)) == lines
  {
    if lines != [] {
      var l, rest := lines[0], lines[1..];
      var s := Join(lines);
      assert IsLines(rest);
      SplitOfJoin(rest);
      if rest == [] {
        assert s == l;
        if EndsWithLf(l) {
          IndexOfUnique(s, '\n', |l| - 1);
          assert s[|l|..] == "" && s[..|l|] == l;
        } else {
          NoLf(l);
        }
      } else {
        assert EndsWithLf(l);
        assert s[..|l| - 1] == l[..|l| - 1];
        IndexOfUnique(s, '\n', |l| - 1);
        assert s[|l|..] == Join(rest) && s[..|l|] == l;
      }
    }
  }

  lemma NoLf(l: string)
    requires IsLine(l) && !EndsWithLf(l)
    ensures IndexOf(l, '\n') == |l|
  {
    assert l == l[..|l| - 1] + [l[|l| - 1]];
    assert '\n' !in l;
  }

  /** Splitting loses nothing: two byte strings with the same lines are equal. */
  lemma SplitInjective(s: string, t: string)
    requires SplitLf(s) == SplitLf(t)
    ensures s == t
  {
    assert Join(SplitLf(s)) == Join(SplitLf(t));
  }

  lemma Associate<T>(a: seq<T>, b: seq<T>, c: seq<T>, d: seq<T>)
    ensures a + b + c + d == a + (b + (c + d))
  {
  }

  /** Taking off the first of three pieces. */
  lemma DropFirst<T>(a: seq<T>, b: seq<T>, c: seq<T>, d: seq<T>)
    ensures (a + (b + c) + d)[|a|..] == b + (c + d)
    ensures (a + b + d)[|a|..] == b + d && (a + b + d)[..|a|] == a
  {
  }

  lemma SliceOfSlice<T>(s: seq<T>, i: nat, j: nat, d: nat, e: nat)
    requires i <= j <= |s| && d <= e <= j - i
    ensures s[i..j][d..e] == s[i + d..i + e]
  {
    forall k | 0 <= k < e - d
      ensures s[i..j][d..e][k] == s[i + d..i + e][k]
    {
    }
  }

  // ----- decimal numbers -----

  predicate IsDigit(c: char) {
    '0' <= c <= '9'
  }

  predicate IsDigits(s: string) {
    |s| > 0 && forall k :: 0 <= k < |s| ==> IsDigit(s[k])
  }

  function DigitValue(c: char): nat
    requires IsDigit(c)
  {
    c as int - '0' as int
  }

  function DigitChar(d: nat): (c: char)
    requires d < 10
    ensures IsDigit(c) && DigitValue(c) == d
  {
    ('0' as int + d) as char
  }

  function DecimalValue(s: string): nat
    requires IsDigits(s)
  {
    var last := DigitValue(s[|s| - 1]);
    if |s| == 1 then last else 10 * DecimalValue(s[..|s| - 1]) + last
  }

  function Decimal(n: nat): (s: string)
    ensures IsDigits(s) && DecimalValue(s) == n
  {
    if n < 10 then [DigitChar(n)]
    else
      var front, last := Decimal(n / 10), DigitChar(n % 10);
      var s := front + [last];
      assert s[..|s| - 1] == front;
      s
  }

  function ParseDecimal(s: string): Option<nat> {
    if IsDigits(s) then Some(DecimalValue(s)) else None
  }
}
