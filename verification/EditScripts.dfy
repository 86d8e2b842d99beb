/**
 Change scripts over a text: what applying, merging and rebasing them means.

 A script is the reference notion of a set of edits: sorted, disjoint replacements of stretches of
 one original.  The three-way merge of two scripts over the same original applies the changes of
 both.
 */
module EditScripts {

  /** `original[lo..hi]` becomes `text`. */
  datatype Change = Change(lo: nat, hi: nat, text: string)

  type Script = seq<Change>

  /** The changes are in order and lie between `from` and `to`. */
  predicate ValidIn(s: Script, from: nat, to: nat) {
    if s == [] then from <= to
    else from <= s[0].lo <= s[0].hi && ValidIn(s[1..], s[0].hi, to)
  }

  lemma {:induction false} ValidBounds(s: Script, from: nat, to: nat)
    requires ValidIn(s, from, to)
    ensures from <= to
    ensures s != [] ==> s[0].hi <= to
  {
    if s != [] {
      ValidBounds(s[1..], s[0].hi, to);
    }
  }

  /** `o[from..to]` with the changes of `s` made. */
  function PatchTo(o: string, from: nat, to: nat, s: Script): string
    requires ValidIn(s, from, to) && to <= |o|
    decreases s
  {
    ValidBounds(s, from, to);
    if s == [] then o[from..to]
    else
      ValidBounds(s[1..], s[0].hi, to);
      o[from..s[0].lo] + s[0].text + PatchTo(o, s[0].hi, to, s[1..])
  }

  function Patch(o: string, s: Script): string
    requires ValidIn(s, 0, |o|)
  {
    PatchTo(o, 0, |o|, s)
  }

  lemma {:induction false} PatchConcat(o: string, from: nat, mid: nat, to: nat, s: Script, t: Script)
    requires ValidIn(s, from, mid) && ValidIn(t, mid, to) && to <= |o|
    ensures ValidIn(s + t, from, to)
    ensures mid <= to && PatchTo(o, from, to, s + t) == PatchTo(o, from, mid, s) + PatchTo(o, mid, to, t)
    decreases s
  {
    ValidBounds(s, from, mid);
    ValidBounds(t, mid, to);
    if s == [] {
      assert s + t == t;
      SkipTo(o, from, mid, to, t);
    } else {
      var c, rest := s[0], s[1..];
      assert (s + t)[1..] == rest + t && (s + t)[0] == c;
      PatchConcat(o, c.hi, mid, to, rest, t);
      assert ValidIn(s + t, from, to);
      hide PatchTo, ValidIn;
      PatchStep(o, from, mid, s);
      PatchStep(o, from, to, s + t);
      Associate3(c.text, PatchTo(o, c.hi, mid, rest), PatchTo(o, mid, to, t));
      Associate3(o[from..c.lo], c.text + PatchTo(o, c.hi, mid, rest), PatchTo(o, mid, to, t));
    }
  }

  /** Unchanged text in front of the first change is copied. */
  lemma SkipTo(o: string, from: nat, mid: nat, to: nat, t: Script)
    requires from <= mid && ValidIn(t, mid, to) && to <= |o|
    ensures ValidIn(t, from, to) && mid <= to
    ensures PatchTo(o, from, to, t) == o[from..mid] + PatchTo(o, mid, to, t)
  {
    ValidBounds(t, mid, to);
    if t == [] {
      SplitSlice(o, from, mid, to);
    } else {
      ValidBounds(t[1..], t[0].hi, to);
      SplitSlice(o, from, mid, t[0].lo);
      hide PatchTo, ValidIn;
      PatchStep(o, from, to, t);
      PatchStep(o, mid, to, t);
      Associate3(o[from..mid], o[mid..t[0].lo], t[0].text + PatchTo(o, t[0].hi, to, t[1..]));
    }
  }

  lemma SplitSlice(o: string, from: nat, mid: nat, to: nat)
    requires from <= mid <= to <= |o|
    ensures o[from..to] == o[from..mid] + o[mid..to]
  {
  }

  lemma Associate3(a: string, b: string, c: string)
    ensures a + b + c == a + (b + c)
  {
  }

  lemma PatchStep(o: string, from: nat, to: nat, s: Script)
    requires ValidIn(s, from, to) && to <= |o| && s != []
    ensures from <= s[0].lo <= s[0].hi <= to && ValidIn(s[1..], s[0].hi, to)
    ensures PatchTo(o, from, to, s) == o[from..s[0].lo] + (s[0].text + PatchTo(o, s[0].hi, to, s[1..]))
  {
    ValidBounds(s, from, to);
    Associate3(o[from..s[0].lo], s[0].text, PatchTo(o, s[0].hi, to, s[1..]));
  }

  /** `s` is a script over `o[lo..hi]` that turns it into `text`. */
  ghost predicate Turns(o: string, lo: nat, hi: nat, s: Script, text: string) {
    hi <= |o| && ValidIn(s, lo, hi) && PatchTo(o, lo, hi, s) == text
  }

  lemma TurnsConcat(o: string, lo: nat, mid: nat, hi: nat, s: Script, t: Script, x: string, y: string)
    requires Turns(o, lo, mid, s, x) && Turns(o, mid, hi, t, y)
    ensures Turns(o, lo, hi, s + t, x + y)
  {
    PatchConcat(o, lo, mid, hi, s, t);
  }

  lemma TurnsNothing(o: string, lo: nat, hi: nat)
    requires lo <= hi <= |o|
    ensures Turns(o, lo, hi, [], o[lo..hi])
  {
  }

  lemma TurnsWhole(o: string, lo: nat, hi: nat, text: string)
    requires lo <= hi <= |o|
    ensures Turns(o, lo, hi, [Change(lo, hi, text)], text)
  {
    var s := [Change(lo, hi, text)];
    assert s[1..] == [];
    PatchStep(o, lo, hi, s);
    assert o[lo..lo] == "" && o[hi..hi] == "";
  }

  // ----- overlap -----

  /** The overlap test: an insertion meets whatever its point touches, boundaries included. */
  predicate SpansOverlap(first: (nat, nat), second: (nat, nat)) {
    if first.0 == first.1 then second.0 <= first.0 <= second.1
    else if second.0 == second.1 then first.0 <= second.0 <= first.1
    else first.0 < second.1 && second.0 < first.1
  }

  /**
   Two spans overlap when they share a character, or when one is a mere point, an insertion, that lies in
   or at an end of the other.
   */
  lemma OverlapExactly(first: (nat, nat), second: (nat, nat))
    requires first.0 <= first.1 && second.0 <= second.1
    ensures SpansOverlap(first, second) <==>
      || (exists p :: Inside(p, first) && Inside(p, second))
      || ((first.0 == first.1 || second.0 == second.1) && first.0 <= second.1 && second.0 <= first.1)
  {
    if first.0 < second.1 && second.0 < first.1 && first.0 < first.1 && second.0 < second.1 {
      var p := if first.0 <= second.0 then second.0 else first.0;
      assert Inside(p, first) && Inside(p, second);
    }
  }

  predicate Inside(p: nat, span: (nat, nat)) {
    span.0 <= p < span.1
  }

  function Span(c: Change): (nat, nat) {
    (c.lo, c.hi)
  }

  /** No change of one script overlaps a change of the other. */
  predicate Disjoint(s: Script, t: Script) {
    forall c, d :: c in s && d in t ==> !SpansOverlap(Span(c), Span(d))
  }

  /** The first change ends before the second begins; they may touch. */
  predicate Precedes(c: Change, d: Change) {
    c.hi <= d.lo
  }

  /** One lies before the other, and they are not two insertions at one point. */
  predicate Ordered(c: Change, d: Change) {
    (Precedes(c, d) || Precedes(d, c)) && !(Precedes(c, d) && Precedes(d, c))
  }

  /** The changes of two scripts can be told apart: each lies before or after each of the other's. */
  predicate Separate(s: Script, t: Script) {
    forall c, d :: c in s && d in t ==> Ordered(c, d)
  }

  /** What does not overlap can be told apart; the overlap test also refuses insertions that only touch. */
  lemma DisjointSeparate(s: Script, t: Script)
    requires Proper(s) && Proper(t) && Disjoint(s, t)
    ensures Separate(s, t)
  {
  }

  // ----- merging -----

  /** The changes of two scripts over the same original, in order. */
  function Merge(s: Script, t: Script): Script {
    if s == [] then t
    else if t == [] then s
    else if Precedes(s[0], t[0]) then [s[0]] + Merge(s[1..], t)
    else [t[0]] + Merge(s, t[1..])
  }

  predicate Proper(s: Script) {
    forall c :: c in s ==> c.lo <= c.hi
  }

  lemma {:induction false} ValidProper(s: Script, from: nat, to: nat)
    requires ValidIn(s, from, to)
    ensures Proper(s)
    ensures forall c :: c in s ==> from <= c.lo && c.hi <= to
  {
    ValidBounds(s, from, to);
    if s != [] {
      ValidProper(s[1..], s[0].hi, to);
      assert forall c :: c in s ==> c == s[0] || c in s[1..];
    }
  }

  lemma {:induction false} MergeElements(s: Script, t: Script)
    ensures forall c :: c in Merge(s, t) <==> c in s || c in t
  {
    if s != [] && t != [] {
      assert forall c :: c in s <==> c == s[0] || c in s[1..];
      assert forall c :: c in t <==> c == t[0] || c in t[1..];
      if Precedes(s[0], t[0]) {
        MergeElements(s[1..], t);
      } else {
        MergeElements(s, t[1..]);
      }
    }
  }

  lemma {:induction false} MergeValid(s: Script, t: Script, from: nat, to: nat)
    requires ValidIn(s, from, to) && ValidIn(t, from, to) && Separate(s, t)
    ensures ValidIn(Merge(s, t), from, to)
  {
    if s != [] && t != [] {
      ValidBounds(s, from, to);
      ValidBounds(t, from, to);
      assert s[0] in s && t[0] in t;
      if Precedes(s[0], t[0]) {
        assert Separate(s[1..], t);
        MergeValid(s[1..], t, s[0].hi, to);
      } else {
        assert Separate(s, t[1..]);
        MergeValid(s, t[1..], t[0].hi, to);
      }
    }
  }

  /** The three-way merge of an original and two scripts over it. */
  function ThreeWay(o: string, s: Script, t: Script): string
    requires ValidIn(s, 0, |o|) && ValidIn(t, 0, |o|) && Separate(s, t)
  {
    MergeValid(s, t, 0, |o|);
    Patch(o, Merge(s, t))
  }

  lemma {:induction false} MergeSymmetric(s: Script, t: Script)
    requires Separate(s, t)
    ensures Merge(s, t) == Merge(t, s)
  {
    if s != [] && t != [] {
      assert s[0] in s && t[0] in t;
      if Precedes(s[0], t[0]) {
        MergeSymmetric(s[1..], t);
      } else {
        MergeSymmetric(s, t[1..]);
      }
    }
  }

  lemma MergeHead(s: Script, t: Script)
    requires s != [] && (t == [] || Precedes(s[0], t[0]))
    ensures Merge(s, t) == [s[0]] + Merge(s[1..], t)
  {
    assert s == [s[0]] + s[1..];
  }

  lemma MergeHeadSecond(s: Script, t: Script)
    requires t != [] && (s == [] || !Precedes(s[0], t[0]))
    ensures Merge(s, t) == [t[0]] + Merge(s, t[1..])
  {
    assert t == [t[0]] + t[1..];
  }

  lemma {:induction false} MergeAssociative(s: Script, t: Script, u: Script)
    requires Proper(s) && Proper(t) && Proper(u) && Separate(s, t) && Separate(t, u) && Separate(s, u)
    ensures Merge(Merge(s, t), u) == Merge(s, Merge(t, u))
    decreases |s| + |t| + |u|
  {
    hide Separate, Proper, Merge;
    MergeNone(s, t);
    MergeNone(t, u);
    MergeNone(Merge(s, t), u);
    MergeNone(s, Merge(t, u));
    if s != [] && t != [] && u != [] {
      hide Precedes;
      if Precedes(s[0], t[0]) && Precedes(s[0], u[0]) {
        Tails(s, t);
        Tails(s, u);
        MergeAssociative(s[1..], t, u);
        FirstOfThree(s, t, u);
      } else if !Precedes(s[0], t[0]) && Precedes(t[0], u[0]) {
        Tails(s, t);
        Tails(t, u);
        MergeAssociative(s, t[1..], u);
        SecondOfThree(s, t, u);
      } else {
        Tails(s, u);
        Tails(t, u);
        MergeAssociative(s, t, u[1..]);
        ThirdOfThree(s, t, u);
      }
    }
  }

  lemma MergeNone(s: Script, t: Script)
    ensures Merge([], t) == t && Merge(s, []) == s
  {
  }

  lemma Tails(s: Script, t: Script)
    requires Proper(s) && Proper(t) && Separate(s, t) && s != [] && t != []
    ensures Proper(s[1..]) && Separate(s[1..], t) && Proper(t[1..]) && Separate(s, t[1..])
  {
  }

  lemma FirstOfThree(s: Script, t: Script, u: Script)
    requires s != [] && t != [] && u != [] && Precedes(s[0], t[0]) && Precedes(s[0], u[0])
    requires Merge(Merge(s[1..], t), u) == Merge(s[1..], Merge(t, u))
    ensures Merge(Merge(s, t), u) == Merge(s, Merge(t, u))
  {
    hide Merge, Precedes;
    MergeHead(s, t);
    MergeHeads(t, u);
    MergeHead(Merge(s, t), u);
    MergeHead(s, Merge(t, u));
    assert Merge(s, t)[1..] == Merge(s[1..], t);
  }

  lemma SecondOfThree(s: Script, t: Script, u: Script)
    requires s != [] && t != [] && u != [] && !Precedes(s[0], t[0]) && Precedes(t[0], u[0])
    requires Merge(Merge(s, t[1..]), u) == Merge(s, Merge(t[1..], u))
    ensures Merge(Merge(s, t), u) == Merge(s, Merge(t, u))
  {
    hide Merge, Precedes;
    MergeHeadSecond(s, t);
    MergeHead(t, u);
    MergeHead(Merge(s, t), u);
    MergeHeadSecond(s, Merge(t, u));
    assert Merge(s, t)[1..] == Merge(s, t[1..]);
    assert Merge(t, u)[1..] == Merge(t[1..], u);
  }

  lemma ThirdOfThree(s: Script, t: Script, u: Script)
    requires Proper(s) && Proper(t) && Proper(u) && Separate(s, t) && Separate(t, u) && Separate(s, u)
    requires s != [] && t != [] && u != []
    requires !(Precedes(s[0], t[0]) && Precedes(s[0], u[0])) && (Precedes(s[0], t[0]) || !Precedes(t[0], u[0]))
    requires Merge(Merge(s, t), u[1..]) == Merge(s, Merge(t, u[1..]))
    ensures Merge(Merge(s, t), u) == Merge(s, Merge(t, u))
  {
    ThirdIsFirst(s, t, u);
    hide Merge, Precedes, Separate, Proper;
    MergeHeads(s, t);
    MergeHeadSecond(t, u);
    MergeHeadSecond(Merge(s, t), u);
    MergeHeadSecond(s, Merge(t, u));
    assert Merge(t, u)[1..] == Merge(t, u[1..]);
  }

  lemma ThirdIsFirst(s: Script, t: Script, u: Script)
    requires Proper(s) && Proper(t) && Proper(u) && Separate(s, t) && Separate(t, u) && Separate(s, u)
    requires s != [] && t != [] && u != []
    requires !(Precedes(s[0], t[0]) && Precedes(s[0], u[0])) && (Precedes(s[0], t[0]) || !Precedes(t[0], u[0]))
    ensures !Precedes(s[0], u[0]) && !Precedes(t[0], u[0])
  {
    assert s[0] in s && t[0] in t && u[0] in u;
  }

  /** A merge starts with the earlier of the two first changes. */
  lemma MergeHeads(s: Script, t: Script)
    requires s != [] && t != []
    ensures Merge(s, t) != [] && Merge(s, t)[0] == if Precedes(s[0], t[0]) then s[0] else t[0]
  {
  }

  // ----- rebasing -----

  /**
   `t` moved to where its stretches are once `s` has been applied: position `from` of the original
   is position `at` of the changed text.
   */
  function Rebase(s: Script, t: Script, from: nat, at: nat, to: nat): Script
    requires ValidIn(s, from, to) && ValidIn(t, from, to) && Separate(s, t)
    decreases |s| + |t|
  {
    ValidBounds(t, from, to);
    if t == [] then []
    else if s == [] then
      [Change(at + (t[0].lo - from), at + (t[0].hi - from), t[0].text)]
      + (ValidBounds(t[1..], t[0].hi, to); Rebase(s, t[1..], t[0].hi, at + (t[0].hi - from), to))
    else
      Heads(s, t);
      if !Precedes(s[0], t[0]) then
        [Change(at + (t[0].lo - from), at + (t[0].hi - from), t[0].text)]
        + Rebase(s, t[1..], t[0].hi, at + (t[0].hi - from), to)
      else
        Rebase(s[1..], t, s[0].hi, at + (s[0].lo - from) + |s[0].text|, to)
  }

  lemma Heads(s: Script, t: Script)
    requires s != [] && t != [] && Separate(s, t)
    ensures Precedes(s[0], t[0]) <==> !Precedes(t[0], s[0])
    ensures Separate(s[1..], t) && Separate(s, t[1..])
  {
    assert s[0] in s && t[0] in t;
  }

  /** Applying one script and then the other, rebased, is the three-way merge. */
  lemma {:induction false} RebaseApplies(o: string, s: Script, t: Script, from: nat, to: nat, w: string, at: nat)
    requires ValidIn(s, from, to) && ValidIn(t, from, to) && Separate(s, t) && to <= |o|
    requires at <= |w| && w[at..] == PatchTo(o, from, to, s)
    ensures ValidIn(Rebase(s, t, from, at, to), at, |w|) && ValidIn(Merge(s, t), from, to)
    ensures PatchTo(w, at, |w|, Rebase(s, t, from, at, to)) == PatchTo(o, from, to, Merge(s, t))
    decreases |s| + |t|
  {
    hide *;
    ValidBounds(s, from, to);
    ValidBounds(t, from, to);
    if t == [] {
      NothingToRebase(o, s, from, to, w, at);
    } else {
      HeadFacts(s, t, from, to);
      if s == [] || !Precedes(s[0], t[0]) {
        TakeSecond(o, s, t, from, to, w, at);
        RebaseApplies(o, s, t[1..], t[0].hi, to, w, at + (t[0].hi - from));
        SecondFirst(o, s, t, from, to, w, at);
      } else {
        TakeFirst(o, s, t, from, to, w, at);
        RebaseApplies(o, s[1..], t, s[0].hi, to, w, at + (s[0].lo - from) + |s[0].text|);
        FirstFirst(o, s, t, from, to, w, at);
      }
    }
  }

  lemma NothingToRebase(o: string, s: Script, from: nat, to: nat, w: string, at: nat)
    requires ValidIn(s, from, to) && from <= to <= |o| && Separate(s, [])
    requires at <= |w| && w[at..] == PatchTo(o, from, to, s)
    ensures Rebase(s, [], from, at, to) == [] && Merge(s, []) == s
    ensures ValidIn([], at, |w|) && PatchTo(w, at, |w|, []) == PatchTo(o, from, to, s)
  {
    assert w[at..|w|] == w[at..];
  }

  lemma HeadFacts(s: Script, t: Script, from: nat, to: nat)
    requires ValidIn(s, from, to) && ValidIn(t, from, to) && Separate(s, t) && t != []
    ensures from <= t[0].lo <= t[0].hi <= to && ValidIn(t[1..], t[0].hi, to) && Separate(s, t[1..])
    ensures s == [] || !Precedes(s[0], t[0]) ==> ValidIn(s, t[0].hi, to)
    ensures s != [] ==> from <= s[0].lo <= s[0].hi <= to && Separate(s[1..], t)
    ensures s != [] && Precedes(s[0], t[0]) ==> ValidIn(t, s[0].hi, to)
  {
    ValidBounds(s, from, to);
    ValidBounds(t, from, to);
    if s != [] {
      Heads(s, t);
    }
  }

  lemma TakeSecond(o: string, s: Script, t: Script, from: nat, to: nat, w: string, at: nat)
    requires ValidIn(s, from, to) && ValidIn(t, from, to) && to <= |o| && t != []
    requires from <= t[0].lo <= t[0].hi <= to && ValidIn(s, t[0].hi, to)
    requires at <= |w| && w[at..] == PatchTo(o, from, to, s)
    ensures var next := at + (t[0].hi - from);
      && next <= |w| && w[next..] == PatchTo(o, t[0].hi, to, s)
      && w[at..at + (t[0].lo - from)] == o[from..t[0].lo]
  {
    ValidBounds(t, from, to);
    SkipTo(o, from, t[0].hi, to, s);
    var head, rest := o[from..t[0].hi], PatchTo(o, t[0].hi, to, s);
    var next := at + (t[0].hi - from);
    hide PatchTo;
    assert w[at..][|head|..] == rest;
    assert w[next..] == w[at..][|head|..];
    assert w[at..at + (t[0].lo - from)] == w[at..][..t[0].lo - from] == head[..t[0].lo - from];
  }

  lemma TakeFirst(o: string, s: Script, t: Script, from: nat, to: nat, w: string, at: nat)
    requires ValidIn(s, from, to) && to <= |o| && s != []
    requires at <= |w| && w[at..] == PatchTo(o, from, to, s)
    ensures ValidIn(s[1..], s[0].hi, to)
    ensures var next := at + (s[0].lo - from) + |s[0].text|;
      && next <= |w| && w[next..] == PatchTo(o, s[0].hi, to, s[1..])
      && s[0].lo <= to && w[at..next] == o[from..s[0].lo] + s[0].text
  {
    ValidBounds(s, from, to);
    var head, rest := o[from..s[0].lo] + s[0].text, PatchTo(o, s[0].hi, to, s[1..]);
    assert w[at..] == head + rest;
    hide PatchTo;
    var next := at + |head|;
    assert w[next..] == w[at..][|head|..] == rest;
    assert w[at..next] == w[at..][..|head|] == head;
  }

  lemma SecondFirst(o: string, s: Script, t: Script, from: nat, to: nat, w: string, at: nat)
    requires ValidIn(s, from, to) && ValidIn(t, from, to) && Separate(s, t) && to <= |o| && at <= |w| && t != []
    requires s == [] || !Precedes(s[0], t[0])
    requires from <= t[0].lo <= t[0].hi <= to && ValidIn(s, t[0].hi, to) && ValidIn(t[1..], t[0].hi, to) && Separate(s, t[1..])
    requires ValidIn(Merge(s, t[1..]), t[0].hi, to)
    requires var next := at + (t[0].hi - from);
      && next <= |w| && w[at..at + (t[0].lo - from)] == o[from..t[0].lo]
      && ValidIn(Rebase(s, t[1..], t[0].hi, next, to), next, |w|)
      && PatchTo(w, next, |w|, Rebase(s, t[1..], t[0].hi, next, to)) == PatchTo(o, t[0].hi, to, Merge(s, t[1..]))
    ensures ValidIn(Rebase(s, t, from, at, to), at, |w|) && ValidIn(Merge(s, t), from, to)
    ensures PatchTo(w, at, |w|, Rebase(s, t, from, at, to)) == PatchTo(o, from, to, Merge(s, t))
  {
    var next := at + (t[0].hi - from);
    var rest := Rebase(s, t[1..], t[0].hi, next, to);
    var c := Change(at + (t[0].lo - from), next, t[0].text);
    assert Rebase(s, t, from, at, to) == [c] + rest;
    assert ([c] + rest)[1..] == rest;
    MergeHeadSecond(s, t);
    var merged := Merge(s, t[1..]);
    assert ([t[0]] + merged)[1..] == merged;
    hide Merge, Rebase, Separate;
  }

  lemma FirstFirst(o: string, s: Script, t: Script, from: nat, to: nat, w: string, at: nat)
    requires ValidIn(s, from, to) && ValidIn(t, from, to) && Separate(s, t) && to <= |o| && at <= |w|
    requires s != [] && t != [] && Precedes(s[0], t[0]) && ValidIn(s[1..], s[0].hi, to) && ValidIn(t, s[0].hi, to)
    requires Separate(s[1..], t) && ValidIn(Merge(s[1..], t), s[0].hi, to)
    requires var next := at + (s[0].lo - from) + |s[0].text|;
      && next <= |w| && s[0].lo <= to && w[at..next] == o[from..s[0].lo] + s[0].text
      && ValidIn(Rebase(s[1..], t, s[0].hi, next, to), next, |w|)
      && PatchTo(w, next, |w|, Rebase(s[1..], t, s[0].hi, next, to)) == PatchTo(o, s[0].hi, to, Merge(s[1..], t))
    ensures ValidIn(Rebase(s, t, from, at, to), at, |w|) && ValidIn(Merge(s, t), from, to)
    ensures PatchTo(w, at, |w|, Rebase(s, t, from, at, to)) == PatchTo(o, from, to, Merge(s, t))
  {
    var next := at + (s[0].lo - from) + |s[0].text|;
    var rest := Rebase(s[1..], t, s[0].hi, next, to);
    assert Rebase(s, t, from, at, to) == rest;
    MergeHead(s, t);
    var merged := Merge(s[1..], t);
    assert ([s[0]] + merged)[1..] == merged;
    hide Merge, Rebase, Separate;
    SkipTo(w, at, next, |w|, rest);
  }

  /** Two scripts that can be told apart can be applied in either order, with the same result. */
  lemma EitherOrder(o: string, s: Script, t: Script)
    requires ValidIn(s, 0, |o|) && ValidIn(t, 0, |o|) && Separate(s, t)
    ensures Separate(t, s)
    ensures ValidIn(Rebase(s, t, 0, 0, |o|), 0, |Patch(o, s)|) && ValidIn(Rebase(t, s, 0, 0, |o|), 0, |Patch(o, t)|)
    ensures Patch(Patch(o, s), Rebase(s, t, 0, 0, |o|)) == ThreeWay(o, s, t)
    ensures Patch(Patch(o, t), Rebase(t, s, 0, 0, |o|)) == ThreeWay(o, s, t)
  {
    assert Separate(t, s);
    hide PatchTo, Merge, Rebase, Separate, ValidIn;
    MergeSymmetric(s, t);
    MergeValid(s, t, 0, |o|);
    var x, y := Patch(o, s), Patch(o, t);
    assert x[0..] == x && y[0..] == y;
    RebaseApplies(o, s, t, 0, |o|, x, 0);
    RebaseApplies(o, t, s, 0, |o|, y, 0);
  }

  // ----- where an untouched stretch ends up -----

  /** What `s` makes of the text in front of position `p`, insertions at `p` included. */
  function Ahead(o: string, from: nat, s: Script, p: nat): string
    requires from <= p <= |o| && AheadFits(s, from, p)
    decreases s
  {
    if s == [] || s[0].hi > p then o[from..p]
    else o[from..s[0].lo] + s[0].text + Ahead(o, s[0].hi, s[1..], p)
  }

  /** The changes that end by `p` lie in order from `from` on. */
  predicate AheadFits(s: Script, from: nat, p: nat) {
    s != [] && s[0].hi <= p ==> from <= s[0].lo <= s[0].hi && AheadFits(s[1..], s[0].hi, p)
  }

  lemma {:induction false} ValidFits(s: Script, p: nat, from: nat, to: nat)
    requires ValidIn(s, from, to)
    ensures AheadFits(s, from, p)
  {
    if s != [] {
      ValidFits(s[1..], p, s[0].hi, to);
    }
  }

  /**
   A stretch that no change of `s` reaches into survives in the changed text, and adding a change of
   that stretch to the script replaces it there.
   */
  lemma {:induction false} Locate(o: string, from: nat, to: nat, s: Script, c: Change) returns (rest: string)
    requires ValidIn(s, from, to) && to <= |o| && from <= c.lo <= c.hi <= to && Separate(s, [c])
    ensures AheadFits(s, from, c.lo) && ValidIn(Merge(s, [c]), from, to)
    ensures PatchTo(o, from, to, s) == Ahead(o, from, s, c.lo) + o[c.lo..c.hi] + rest
    ensures PatchTo(o, from, to, Merge(s, [c])) == Ahead(o, from, s, c.lo) + c.text + rest
    decreases s
  {
    ValidFits(s, c.lo, from, to);
    MergeValid(s, [c], from, to);
    HeadFacts(s, [c], from, to);
    if s == [] || !Precedes(s[0], c) {
      hide Separate, AheadFits;
      rest := PatchTo(o, c.hi, to, s);
      MergeHeadSecond(s, [c]);
      hide Merge, ValidIn;
      assert [c][1..] == [] && Merge(s, []) == s by { MergeNothing(s); }
      SkipTo(o, from, c.hi, to, s);
      SplitSlice(o, from, c.lo, c.hi);
      assert ([c] + s)[1..] == s;
      PatchStep(o, from, to, [c] + s);
      hide PatchTo;
      Associate3(o[from..c.lo], c.text, rest);
    } else {
      rest := Locate(o, s[0].hi, to, s[1..], c);
      MergeHead(s, [c]);
      var more := Merge(s[1..], [c]);
      assert ([s[0]] + more)[1..] == more;
      hide Merge, ValidIn, Separate, AheadFits;
      PatchStep(o, from, to, s);
      PatchStep(o, from, to, [s[0]] + more);
      hide PatchTo;
      var head, ahead := o[from..s[0].lo] + s[0].text, Ahead(o, s[0].hi, s[1..], c.lo);
      assert Ahead(o, from, s, c.lo) == head + ahead;
      hide Ahead;
      Regroup(o[from..s[0].lo], s[0].text, ahead, o[c.lo..c.hi], rest);
      Regroup(o[from..s[0].lo], s[0].text, ahead, c.text, rest);
    }
  }

  lemma MergeNothing(s: Script)
    ensures Merge(s, []) == s
  {
  }

  lemma Regroup(a: string, b: string, c: string, d: string, e: string)
    ensures a + (b + (c + d + e)) == (a + b + c) + d + e
  {
  }
}
