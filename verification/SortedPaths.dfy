/** Sorting a set of paths in Python's string order. */
module SortedPaths {
  import opened Snapshots

  predicate StrictlySorted(s: seq<string>) {
    forall i, j :: 0 <= i < j < |s| ==> Less(s[i], s[j])
  }

  ghost predicate IsLeast(m: string, s: set<string>) {
    m in s && forall x :: x in s ==> x == m || Less(m, x)
  }

  method Least(s: set<string>) returns (m: string)
    requires s != {}
    ensures IsLeast(m, s)
  {
    m :| m in s;
    var rest := s - {m};
    while rest != {}
      invariant m in s && rest <= s
      invariant forall x :: x in s - rest ==> x == m || Less(m, x)
    {
      var x :| x in rest;
      if Less(x, m) {
        forall y | y in s - rest
          ensures Less(x, y)
        {
          if y != m {
            LessTransitive(x, m, y);
          }
        }
        m := x;
      } else {
        LessTotal(x, m);
      }
      rest := rest - {x};
    }
  }

  /** The elements of `s` in increasing order. */
  method Sort(s: set<string>) returns (sorted: seq<string>)
    ensures StrictlySorted(sorted)
    ensures forall x :: x in sorted <==> x in s
  {
    sorted := [];
    var rest := s;
    while rest != {}
      invariant rest <= s
      invariant StrictlySorted(sorted)
      invariant forall x :: x in sorted <==> x in s - rest
      invariant forall x, y :: x in sorted && y in rest ==> Less(x, y)
    {
      var m := Least(rest);
      sorted := sorted + [m];
      rest := rest - {m};
    }
  }

  /** Sorting has one outcome. */
  lemma {:induction false} SortedUnique(s: seq<string>, t: seq<string>)
    requires StrictlySorted(s) && StrictlySorted(t)
    requires forall x :: x in s <==> x in t
    ensures s == t
  {
    if s + t != [] {
      var x := (s + t)[0];
      assert x in s + t;
      assert s[0] in t && t[0] in s;
      LessTotal(s[0], t[0]);
      assert s[0] == t[0];
      forall x
        ensures x in s[1..] <==> x in t[1..]
      {
        if x in s[1..] {
          Later(s, x);
        }
        if x in t[1..] {
          Later(t, x);
        }
      }
      SortedUnique(s[1..], t[1..]);
      assert s == [s[0]] + s[1..] && t == [t[0]] + t[1..];
    }
  }

  lemma Later(s: seq<string>, x: string)
    requires StrictlySorted(s) && s != [] && x in s[1..]
    ensures x in s && x != s[0]
  {
    var k :| 0 <= k < |s[1..]| && s[1..][k] == x;
    assert Less(s[0], s[k + 1]);
    LessTotal(s[0], s[0]);
  }
}
