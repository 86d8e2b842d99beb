/**
 The shape of printed hunks: every hunk holds a change, begins and ends with at most three kept lines,
 and has no more than six of them in a row inside.
 */
module HunkShape {
  import opened Text
  import opened Opcodes
  import opened UnifiedDiff

  // ----- what the shape is -----

  predicate Kept(l: BodyLine) {
    l.kind == ' '
  }

  /** The lines `lo..hi` of a hunk are all context. */
  predicate AllKept(body: seq<BodyLine>, lo: nat, hi: nat)
    requires lo <= hi <= |body|
  {
    forall k :: lo <= k < hi ==> Kept(body[k])
  }

  ghost predicate Tight(body: seq<BodyLine>) {
    && (exists k :: 0 <= k < |body| && !Kept(body[k]))
    && (forall lo, hi :: 0 <= lo <= hi <= |body| && AllKept(body, lo, hi) ==>
          hi - lo <= if lo == 0 || hi == |body| then 3 else 6)
  }

  // ----- a scanner for it -----

  /** Scan with `left` kept lines allowed before the next change; a hunk may end once half are unused. */
  predicate Calm(body: seq<BodyLine>, left: nat) {
    if body == [] then left >= 3
    else if Kept(body[0]) then left > 0 && Calm(body[1..], left - 1)
    else Calm(body[1..], 6)
  }

  /** A run of kept lines ends within what is left, and three lines earlier at the end of the hunk. */
  lemma {:induction false} CalmRuns(body: seq<BodyLine>, left: nat, lo: nat, hi: nat)
    requires Calm(body, left) && left <= 6 && lo <= hi <= |body| && AllKept(body, lo, hi)
    ensures hi - lo <= 6
    ensures lo == 0 ==> hi <= left
    ensures lo == 0 && hi == |body| ==> hi + 3 <= left
    ensures hi == |body| && hi > lo ==> hi - lo <= 3
    decreases |body|
  {
    if body != [] && hi > 0 {
      var rest := body[1..];
      var next := if Kept(body[0]) then left - 1 else 6;
      if lo == 0 && hi > lo {
        assert Kept(body[0]);
      }
      assert AllKept(rest, if lo == 0 then 0 else lo - 1, hi - 1);
      CalmRuns(rest, next, if lo == 0 then 0 else lo - 1, hi - 1);
    }
  }

  lemma {:induction false} CalmChanges(body: seq<BodyLine>, left: nat)
    requires Calm(body, left) && left <= 3 && body != []
    ensures exists k :: 0 <= k < |body| && !Kept(body[k])
    decreases |body|
  {
    if Kept(body[0]) {
      CalmChanges(body[1..], left - 1);
      var k :| 0 <= k < |body[1..]| && !Kept(body[1..][k]);
      assert !Kept(body[k + 1]);
    }
  }

  lemma CalmIsTight(body: seq<BodyLine>)
    requires body != [] && Calm(body, 3)
    ensures Tight(body)
  {
    CalmChanges(body, 3);
    forall lo, hi | 0 <= lo <= hi <= |body| && AllKept(body, lo, hi)
      ensures hi - lo <= if lo == 0 || hi == |body| then 3 else 6
    {
      CalmRuns(body, 3, lo, hi);
    }
  }

  // ----- opcodes -----

  /** Lines an opcode keeps. */
  function Length(op: Opcode): int {
    op.i2 - op.i1
  }

  /** Unchanged stretches are whole: no two of them follow each other, and no change is empty. */
  predicate Alternating(codes: seq<Opcode>) {
    && (forall k :: 0 <= k < |codes| && !codes[k].tag.Equal? ==> Changes(codes[k]))
    && (forall k :: 0 <= k < |codes| - 1 ==> !(codes[k].tag.Equal? && codes[k + 1].tag.Equal?))
  }

  predicate Changes(op: Opcode) {
    || ((op.tag.Replace? || op.tag.Delete?) && op.i1 < op.i2)
    || ((op.tag.Replace? || op.tag.Insert?) && op.j1 < op.j2)
  }

  predicate CalmOps(g: seq<Opcode>, left: int) {
    if g == [] then left >= 3
    else if g[0].tag.Equal? then 0 <= Length(g[0]) <= left && CalmOps(g[1..], left - Length(g[0]))
    else Changes(g[0]) && CalmOps(g[1..], 6)
  }

  lemma {:induction false} CalmTagged(kind: char, lines: seq<string>, rest: seq<BodyLine>, left: nat)
    requires kind == ' ' ==> |lines| <= left
    ensures Calm(Tagged(kind, lines) + rest, left)
      <==> Calm(rest, if kind == ' ' then left - |lines| else if lines == [] then left else 6)
    decreases lines
  {
    var body := Tagged(kind, lines) + rest;
    if lines == [] {
      assert body == rest;
    } else {
      assert body[0] == BodyLine(kind, lines[0]) && body[1..] == Tagged(kind, lines[1..]) + rest;
      CalmTagged(kind, lines[1..], rest, if kind == ' ' then left - 1 else 6);
    }
  }

  lemma CalmOp(op: Opcode, a: seq<string>, b: seq<string>, rest: seq<BodyLine>, left: nat)
    requires ValidOp(op, a, b)
    requires if op.tag.Equal? then Length(op) <= left else Changes(op)
    ensures Calm(OpBody(op, a, b) + rest, left) <==> Calm(rest, if op.tag.Equal? then left - Length(op) else 6)
  {
    hide Calm;
    if op.tag.Equal? {
      CalmTagged(' ', a[op.i1..op.i2], rest, left);
    } else {
      var minus, plus := BodyParts(op, a, b, rest);
      hide Tagged, OpBody;
      CalmTagged('-', minus, Tagged('+', plus) + rest, left);
      CalmTagged('+', plus, rest, if minus == [] then left else 6);
    }
  }

  lemma BodyParts(op: Opcode, a: seq<string>, b: seq<string>, rest: seq<BodyLine>)
    returns (minus: seq<string>, plus: seq<string>)
    requires ValidOp(op, a, b) && !op.tag.Equal? && Changes(op)
    ensures OpBody(op, a, b) + rest == Tagged('-', minus) + (Tagged('+', plus) + rest) && (minus != [] || plus != [])
  {
    minus := if op.tag.Replace? || op.tag.Delete? then a[op.i1..op.i2] else [];
    plus := if op.tag.Replace? || op.tag.Insert? then b[op.j1..op.j2] else [];
  }

  lemma {:induction false} CalmGroup(g: seq<Opcode>, a: seq<string>, b: seq<string>, left: nat)
    requires ValidGroup(g, a, b) && CalmOps(g, left)
    ensures Calm(GroupBody(g, a, b), left)
    decreases g
  {
    if g != [] {
      var next := if g[0].tag.Equal? then left - Length(g[0]) else 6;
      CalmGroup(g[1..], a, b, next);
      CalmOp(g[0], a, b, GroupBody(g[1..], a, b), left);
    }
  }

  // ----- grouping -----

  /** What is left after a group that has begun with three kept lines allowed. */
  function LeftAfter(g: seq<Opcode>): int {
    if g == [] then 3
    else
      var last := g[|g| - 1];
      if !last.tag.Equal? then 6 else (if |g| == 1 then 3 else 6) - Length(last)
  }

  /** A group so far. */
  predicate Open(g: seq<Opcode>) {
    && Alternating(g)
    && forall k :: 0 <= k < |g| && g[k].tag.Equal? ==> 0 <= Length(g[k]) <= if k == 0 then 3 else 6
  }

  lemma {:induction false} OpenCalm(g: seq<Opcode>, left: int)
    requires Alternating(g) && g != []
    requires g[0].tag.Equal? ==> 0 <= Length(g[0]) <= left
    requires forall k :: 0 < k < |g| && g[k].tag.Equal? ==> 0 <= Length(g[k]) <= 6
    requires var last := g[|g| - 1]; last.tag.Equal? ==> Length(last) <= 3 && |g| > 1
    ensures CalmOps(g, left)
    decreases g
  {
    var rest := g[1..];
    if rest != [] {
      assert forall k :: 0 <= k < |rest| ==> rest[k] == g[k + 1];
      if g[0].tag.Equal? {
        assert !rest[0].tag.Equal?;
        OpenCalm(rest, left - Length(g[0]));
      } else if |rest| == 1 && rest[0].tag.Equal? {
        assert rest[1..] == [];
      } else {
        OpenCalm(rest, 6);
      }
    }
  }

  predicate Changing(g: seq<Opcode>) {
    exists k :: 0 <= k < |g| && !g[k].tag.Equal? && Changes(g[k])
  }

  predicate AllCalm(groups: seq<seq<Opcode>>) {
    forall k :: 0 <= k < |groups| ==> Changing(groups[k]) && CalmOps(groups[k], 3)
  }

  /** Each unchanged stretch ahead is of some length, the first at most three if the group is empty, and so the last. */
  predicate Ahead(codes: seq<Opcode>, group: seq<Opcode>) {
    && (forall k :: 0 <= k < |codes| && codes[k].tag.Equal? ==> 0 <= Length(codes[k]))
    && (group == [] && codes != [] && codes[0].tag.Equal? ==> Length(codes[0]) <= 3)
    && (codes != [] && codes[|codes| - 1].tag.Equal? ==> Length(codes[|codes| - 1]) <= 3)
    && (codes == [] && group != [] && group[|group| - 1].tag.Equal? ==> Length(group[|group| - 1]) <= 3)
    && (codes != [] && codes[0].tag.Equal? && group != [] ==> !group[|group| - 1].tag.Equal?)
  }

  lemma {:induction false} CutCalm(codes: seq<Opcode>, group: seq<Opcode>)
    requires Open(group) && Alternating(codes) && Ahead(codes, group)
    ensures AllCalm(Cut(codes, group))
    decreases codes
  {
    if codes == [] {
      if group != [] && !(|group| == 1 && group[0].tag.Equal?) {
        OpenCalm(group, 3);
        assert Changing(group) by { assert !group[|group| - 1].tag.Equal? || !group[|group| - 2].tag.Equal?; }
      }
    } else {
      var op, rest := codes[0], codes[1..];
      assert Alternating(rest) by { assert forall k :: 0 <= k < |rest| ==> rest[k] == codes[k + 1]; }
      if op.tag.Equal? && Length(op) > 2 * CONTEXT {
        assert group != [];
        var closed := group + [HeadOf(op)];
        OpenCalm(closed, 3);
        assert Changing(closed) by { assert !closed[|group| - 1].tag.Equal?; }
        CutCalm(rest, [TailOf(op)]);
      } else {
        CutCalm(rest, group + [op]);
      }
    }
  }

  /** Trimming shortens the ends and nothing else. */
  predicate Shortened(codes: seq<Opcode>, trimmed: seq<Opcode>) {
    && |trimmed| == |codes|
    && forall k :: 0 <= k < |codes| ==>
      && trimmed[k].tag == codes[k].tag && (!codes[k].tag.Equal? ==> trimmed[k] == codes[k])
      && (codes[k].tag.Equal? && Length(codes[k]) >= 0 ==> 0 <= Length(trimmed[k]) <= Length(codes[k]))
  }

  lemma TrimFirstShortens(codes: seq<Opcode>)
    ensures Shortened(codes, TrimFirst(codes)) && |TrimFirst(codes)| == |codes|
    ensures codes != [] && codes[0].tag.Equal? ==> Length(TrimFirst(codes)[0]) <= 3
  {
  }

  lemma TrimLastShortens(codes: seq<Opcode>)
    ensures Shortened(codes, TrimLast(codes)) && |TrimLast(codes)| == |codes|
    ensures codes != [] && codes[|codes| - 1].tag.Equal? ==> Length(TrimLast(codes)[|codes| - 1]) <= 3
  {
  }

  lemma TrimmedReady(codes: seq<Opcode>, one: seq<Opcode>, two: seq<Opcode>)
    requires codes != [] && Alternating(codes)
    requires forall k :: 0 <= k < |codes| && codes[k].tag.Equal? ==> 0 <= Length(codes[k])
    requires Shortened(codes, one) && (codes[0].tag.Equal? ==> |one| > 0 && Length(one[0]) <= 3)
    requires Shortened(one, two) && (one != [] && one[|one| - 1].tag.Equal? ==> |two| == |one| && Length(two[|one| - 1]) <= 3)
    ensures Alternating(two) && Ahead(two, [])
  {
    hide Length, Changes;
  }

  lemma GroupedCalm(codes: seq<Opcode>)
    requires Alternating(codes) && forall k :: 0 <= k < |codes| ==> codes[k].i1 <= codes[k].i2
    ensures AllCalm(Grouped(codes))
  {
    hide *;
    var all := NeverEmpty(codes);
    TrimFirstShortens(all);
    TrimLastShortens(TrimFirst(all));
    TrimmedReady(all, TrimFirst(all), TrimLast(TrimFirst(all)));
    Nothing();
    CutCalm(TrimLast(TrimFirst(all)), []);
  }

  lemma NeverEmpty(codes: seq<Opcode>) returns (all: seq<Opcode>)
    requires Alternating(codes) && forall k :: 0 <= k < |codes| ==> codes[k].i1 <= codes[k].i2
    ensures all != [] && Alternating(all) && Grouped(codes) == Cut(TrimLast(TrimFirst(all)), [])
    ensures forall k :: 0 <= k < |all| && all[k].tag.Equal? ==> 0 <= Length(all[k])
  {
    hide TrimLast, TrimFirst, Cut;
    all := if codes == [] then [Opcode(Equal, 0, 1, 0, 1)] else codes;
  }

  lemma Nothing()
    ensures Open([])
  {
  }

  lemma {:induction false} Printed(g: seq<Opcode>, a: seq<string>, b: seq<string>)
    requires ValidGroup(g, a, b) && Changing(g)
    ensures GroupBody(g, a, b) != []
    decreases g
  {
    if OpBody(g[0], a, b) == [] {
      assert g[0].tag.Equal? || !Changes(g[0]);
      var k :| 0 <= k < |g| && !g[k].tag.Equal? && Changes(g[k]);
      assert g[1..][k - 1] == g[k];
      Printed(g[1..], a, b);
    }
  }

  /** Every hunk printed for an alignment whose unchanged stretches are whole is of that shape. */
  lemma HunksTight(codes: seq<Opcode>, a: seq<string>, b: seq<string>)
    requires Valid(codes, a, b) && Alternating(codes)
    ensures AreGroups(Grouped(codes), a, b)
    ensures forall k :: 0 <= k < |Hunks(Grouped(codes), a, b)| ==> Tight(Hunks(Grouped(codes), a, b)[k].body)
  {
    GroupedCovers(codes, a, b);
    CoversGroups(Grouped(codes), a, b, 0, 0);
    ChainAllValid(codes, a, b, 0, 0, |a|, |b|);
    GroupedCalm(codes);
    AllTight(Grouped(codes), a, b);
  }

  lemma {:induction false} AllTight(groups: seq<seq<Opcode>>, a: seq<string>, b: seq<string>)
    requires AreGroups(groups, a, b) && AllCalm(groups)
    ensures forall k :: 0 <= k < |Hunks(groups, a, b)| ==> Tight(Hunks(groups, a, b)[k].body)
  {
    if groups != [] {
      AllTight(groups[1..], a, b);
      CalmGroup(groups[0], a, b, 3);
      Printed(groups[0], a, b);
      CalmIsTight(GroupBody(groups[0], a, b));
    }
  }
}
