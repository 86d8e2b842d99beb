/**
 The text of one file's hunks, as Python's `difflib.unified_diff` prints it for a given opcode
 list (three lines of context), and the facts about its grouping that make hunks applicable.
 */
module UnifiedDiff {
  import opened Text
  import opened Opcodes

  const CONTEXT: nat := 3

  /** A line of a hunk: ' ' kept, '-' removed, '+' added; `text` is the file's own line. */
  datatype BodyLine = BodyLine(kind: char, text: string)

  datatype Hunk = Hunk(oldStart: nat, oldCount: nat, newStart: nat, newCount: nat, body: seq<BodyLine>)

  function Max(x: int, y: int): int { if x < y then y else x }

  function Min(x: int, y: int): int { if x < y then x else y }

  // ----- grouping -----

  /** The last `CONTEXT` lines of an opcode. */
  function TailOf(op: Opcode): Opcode {
    op.(i1 := Max(op.i1, op.i2 - CONTEXT), j1 := Max(op.j1, op.j2 - CONTEXT))
  }

  /** The first `CONTEXT` lines of an opcode. */
  function HeadOf(op: Opcode): Opcode {
    op.(i2 := Min(op.i2, op.i1 + CONTEXT), j2 := Min(op.j2, op.j1 + CONTEXT))
  }

  function TrimFirst(codes: seq<Opcode>): seq<Opcode> {
    if codes != [] && codes[0].tag.Equal? then [TailOf(codes[0])] + codes[1..] else codes
  }

  function TrimLast(codes: seq<Opcode>): seq<Opcode> {
    var n := |codes|;
    if n > 0 && codes[n - 1].tag.Equal? then codes[..n - 1] + [HeadOf(codes[n - 1])] else codes
  }

  /** Cut the opcodes into groups at every unchanged stretch longer than two contexts. */
  function Cut(codes: seq<Opcode>, group: seq<Opcode>): seq<seq<Opcode>> {
    if codes == [] then
      if group == [] || (|group| == 1 && group[0].tag.Equal?) then [] else [group]
    else
      var op := codes[0];
      if op.tag.Equal? && op.i2 - op.i1 > 2 * CONTEXT then
        [group + [HeadOf(op)]] + Cut(codes[1..], [TailOf(op)])
      else
        Cut(codes[1..], group + [op])
  }

  function Grouped(codes: seq<Opcode>): seq<seq<Opcode>> {
    var all := if codes == [] then [Opcode(Equal, 0, 1, 0, 1)] else codes;
    Cut(TrimLast(TrimFirst(all)), [])
  }

  // ----- printing -----

  /** The range of lines `start..stop`: its first line counted from one, or the line before an empty one. */
  function FormatRange(start: nat, stop: nat): string
    requires start <= stop
  {
    if stop - start == 1 then Decimal(start + 1)
    else if stop == start then Decimal(start) + "," + Decimal(0)
    else Decimal(start + 1) + "," + Decimal(stop - start)
  }

  function Tagged(kind: char, lines: seq<string>): seq<BodyLine> {
    if lines == [] then [] else [BodyLine(kind, lines[0])] + Tagged(kind, lines[1..])
  }

  function OpBody(op: Opcode, a: seq<string>, b: seq<string>): seq<BodyLine>
    requires ValidOp(op, a, b)
  {
    if op.tag.Equal? then Tagged(' ', a[op.i1..op.i2])
    else
      (if op.tag.Replace? || op.tag.Delete? then Tagged('-', a[op.i1..op.i2]) else [])
      + (if op.tag.Replace? || op.tag.Insert? then Tagged('+', b[op.j1..op.j2]) else [])
  }

  predicate ValidGroup(group: seq<Opcode>, a: seq<string>, b: seq<string>) {
    forall k :: 0 <= k < |group| ==> ValidOp(group[k], a, b)
  }

  function GroupBody(group: seq<Opcode>, a: seq<string>, b: seq<string>): seq<BodyLine>
    requires ValidGroup(group, a, b)
  {
    if group == [] then [] else OpBody(group[0], a, b) + GroupBody(group[1..], a, b)
  }

  predicate IsGroup(group: seq<Opcode>, a: seq<string>, b: seq<string>) {
    && group != []
    && ValidGroup(group, a, b)
    && group[0].i1 <= group[|group| - 1].i2
    && group[0].j1 <= group[|group| - 1].j2
  }

  function HunkOf(group: seq<Opcode>, a: seq<string>, b: seq<string>): Hunk
    requires IsGroup(group, a, b)
  {
    var first, last := group[0], group[|group| - 1];
    Hunk(first.i1, last.i2 - first.i1, first.j1, last.j2 - first.j1, GroupBody(group, a, b))
  }

  function HeaderText(oldRange: string, newRange: string): string {
    "@@ -" + (oldRange + (" +" + (newRange + " @@\n")))
  }

  function HunkHeader(h: Hunk): string {
    HeaderText(FormatRange(h.oldStart, h.oldStart + h.oldCount), FormatRange(h.newStart, h.newStart + h.newCount))
  }

  function DiffLine(l: BodyLine): string {
    [l.kind] + l.text
  }

  function DiffLines(body: seq<BodyLine>): seq<string> {
    if body == [] then [] else [DiffLine(body[0])] + DiffLines(body[1..])
  }

  function HunkLines(h: Hunk): seq<string> {
    [HunkHeader(h)] + DiffLines(h.body)
  }

  function HunksLines(hunks: seq<Hunk>): seq<string> {
    if hunks == [] then [] else HunkLines(hunks[0]) + HunksLines(hunks[1..])
  }

  predicate AreGroups(groups: seq<seq<Opcode>>, a: seq<string>, b: seq<string>) {
    forall k :: 0 <= k < |groups| ==> IsGroup(groups[k], a, b)
  }

  function Hunks(groups: seq<seq<Opcode>>, a: seq<string>, b: seq<string>): seq<Hunk>
    requires AreGroups(groups, a, b)
  {
    if groups == [] then [] else [HunkOf(groups[0], a, b)] + Hunks(groups[1..], a, b)
  }

  // ----- what grouping keeps -----

  /** `a[i..iEnd]` and `b[j..jEnd]` are the same lines. */
  ghost predicate Unchanged(a: seq<string>, b: seq<string>, i: nat, j: nat, iEnd: nat, jEnd: nat) {
    && i <= iEnd <= |a| && j <= jEnd <= |b|
    && a[i..iEnd] == b[j..jEnd]
  }

  /**
   The groups are windows onto the edit script: what lies before, between and after them is
   common to both files, and inside each the opcodes are contiguous.
   */
  ghost predicate Covers(groups: seq<seq<Opcode>>, a: seq<string>, b: seq<string>, i: nat, j: nat) {
    if groups == [] then Unchanged(a, b, i, j, |a|, |b|)
    else
      var g := groups[0];
      && IsGroup(g, a, b)
      && var si, sj, ei, ej := g[0].i1, g[0].j1, g[|g| - 1].i2, g[|g| - 1].j2;
      && Unchanged(a, b, i, j, si, sj)
      && Chain(g, a, b, si, sj, ei, ej)
      && Covers(groups[1..], a, b, ei, ej)
  }

  lemma {:induction false} CoversGroups(groups: seq<seq<Opcode>>, a: seq<string>, b: seq<string>, i: nat, j: nat)
    requires Covers(groups, a, b, i, j)
    ensures AreGroups(groups, a, b)
  {
    if groups != [] {
      var g := groups[0];
      CoversGroups(groups[1..], a, b, g[|g| - 1].i2, g[|g| - 1].j2);
    }
  }

  lemma {:induction false} ChainEnds(g: seq<Opcode>, a: seq<string>, b: seq<string>, i: nat, j: nat, iEnd: nat, jEnd: nat)
    requires g != [] && Chain(g, a, b, i, j, iEnd, jEnd)
    ensures g[0].i1 == i && g[0].j1 == j && g[|g| - 1].i2 == iEnd && g[|g| - 1].j2 == jEnd
    ensures IsGroup(g, a, b)
  {
    if |g| > 1 {
      ChainEnds(g[1..], a, b, g[0].i2, g[0].j2, iEnd, jEnd);
    }
  }

  /** A slice of an unchanged opcode is unchanged. */
  lemma EqualSlice(a: seq<string>, b: seq<string>, op: Opcode, d: nat, e: nat)
    requires ValidOp(op, a, b) && op.tag.Equal?
    requires d <= e <= op.i2 - op.i1
    ensures op.i2 - op.i1 == op.j2 - op.j1
    ensures Unchanged(a, b, op.i1 + d, op.j1 + d, op.i1 + e, op.j1 + e)
  {
    assert |a[op.i1..op.i2]| == |b[op.j1..op.j2]|;
    SliceOfSlice(a, op.i1, op.i2, d, e);
    SliceOfSlice(b, op.j1, op.j2, d, e);
  }

  lemma UnchangedJoin(a: seq<string>, b: seq<string>, i: nat, j: nat, im: nat, jm: nat, ie: nat, je: nat)
    requires Unchanged(a, b, i, j, im, jm) && Unchanged(a, b, im, jm, ie, je)
    ensures Unchanged(a, b, i, j, ie, je)
  {
    assert a[i..ie] == a[i..im] + a[im..ie];
    assert b[j..je] == b[j..jm] + b[jm..je];
  }

  /** Trimming an unchanged opcode to its ends leaves unchanged opcodes and unchanged lines between. */
  lemma TrimmedEqual(a: seq<string>, b: seq<string>, op: Opcode)
    requires ValidOp(op, a, b) && op.tag.Equal?
    ensures var head, tail := HeadOf(op), TailOf(op);
      && Chain([head], a, b, op.i1, op.j1, head.i2, head.j2)
      && Chain([tail], a, b, tail.i1, tail.j1, op.i2, op.j2)
      && Unchanged(a, b, op.i1, op.j1, tail.i1, tail.j1)
      && Unchanged(a, b, head.i2, head.j2, op.i2, op.j2)
      && (op.i2 - op.i1 > 2 * CONTEXT ==> Unchanged(a, b, head.i2, head.j2, tail.i1, tail.j1))
  {
    var n, h, t := op.i2 - op.i1, HeadOf(op).i2 - op.i1, TailOf(op).i1 - op.i1;
    EqualSlice(a, b, op, 0, h);
    EqualSlice(a, b, op, h, n);
    EqualSlice(a, b, op, 0, t);
    EqualSlice(a, b, op, t, n);
    if h <= t {
      EqualSlice(a, b, op, h, t);
    }
  }

  lemma ChainSnoc(group: seq<Opcode>, op: Opcode, a: seq<string>, b: seq<string>, si: nat, sj: nat)
    requires Chain(group, a, b, si, sj, op.i1, op.j1)
    requires ValidOp(op, a, b)
    ensures Chain(group + [op], a, b, si, sj, op.i2, op.j2)
  {
    assert Chain([op], a, b, op.i1, op.j1, op.i2, op.j2);
    ChainConcat(group, [op], a, b, si, sj, op.i1, op.j1, op.i2, op.j2);
  }

  lemma CoversCons(
    g: seq<Opcode>, rest: seq<seq<Opcode>>, a: seq<string>, b: seq<string>,
    pi: nat, pj: nat, si: nat, sj: nat, ei: nat, ej: nat)
    requires g != [] && Chain(g, a, b, si, sj, ei, ej)
    requires Unchanged(a, b, pi, pj, si, sj) && Covers(rest, a, b, ei, ej)
    ensures Covers([g] + rest, a, b, pi, pj)
  {
    ChainEnds(g, a, b, si, sj, ei, ej);
    assert ([g] + rest)[1..] == rest;
  }

  /**
   `group` holds the opcodes gathered from `(si, sj)` to `(i, j)`; `(pi, pj)` is where the last
   finished group ended.
   */
  lemma {:induction false} CutCovers(
    codes: seq<Opcode>, group: seq<Opcode>, a: seq<string>, b: seq<string>,
    pi: nat, pj: nat, si: nat, sj: nat, i: nat, j: nat, iEnd: nat, jEnd: nat)
    requires Unchanged(a, b, pi, pj, si, sj)
    requires Chain(group, a, b, si, sj, i, j) && Chain(codes, a, b, i, j, iEnd, jEnd)
    requires Unchanged(a, b, iEnd, jEnd, |a|, |b|)
    ensures Covers(Cut(codes, group), a, b, pi, pj)
    decreases codes
  {
    if codes == [] {
      CutCoversEnd(group, a, b, pi, pj, si, sj, i, j);
    } else {
      var op, rest := codes[0], codes[1..];
      if op.tag.Equal? && op.i2 - op.i1 > 2 * CONTEXT {
        TrimmedEqual(a, b, op);
        var head, tail := HeadOf(op), TailOf(op);
        ChainSnoc(group, head, a, b, si, sj);
        CutCovers(rest, [tail], a, b, head.i2, head.j2, tail.i1, tail.j1, op.i2, op.j2, iEnd, jEnd);
        CoversCons(group + [head], Cut(rest, [tail]), a, b, pi, pj, si, sj, head.i2, head.j2);
      } else {
        ChainSnoc(group, op, a, b, si, sj);
        CutCovers(rest, group + [op], a, b, pi, pj, si, sj, op.i2, op.j2, iEnd, jEnd);
      }
    }
  }

  lemma CutCoversEnd(
    group: seq<Opcode>, a: seq<string>, b: seq<string>, pi: nat, pj: nat, si: nat, sj: nat, i: nat, j: nat)
    requires Unchanged(a, b, pi, pj, si, sj) && Chain(group, a, b, si, sj, i, j)
    requires Unchanged(a, b, i, j, |a|, |b|)
    ensures Covers(Cut([], group), a, b, pi, pj)
  {
    if group == [] {
      UnchangedJoin(a, b, pi, pj, si, sj, |a|, |b|);
    } else if |group| == 1 && group[0].tag.Equal? {
      assert Chain(group[1..], a, b, group[0].i2, group[0].j2, i, j);
      EqualSlice(a, b, group[0], 0, i - si);
      UnchangedJoin(a, b, pi, pj, si, sj, i, j);
      UnchangedJoin(a, b, pi, pj, i, j, |a|, |b|);
    } else {
      assert Covers([], a, b, i, j);
      CoversCons(group, [], a, b, pi, pj, si, sj, i, j);
      assert [group] + [] == [group];
    }
  }

  lemma {:induction false} ChainSplitLast(c: seq<Opcode>, a: seq<string>, b: seq<string>, i: nat, j: nat, iEnd: nat, jEnd: nat)
    requires c != [] && Chain(c, a, b, i, j, iEnd, jEnd)
    ensures var last := c[|c| - 1];
      && Chain(c[..|c| - 1], a, b, i, j, last.i1, last.j1)
      && ValidOp(last, a, b) && last.i2 == iEnd && last.j2 == jEnd
  {
    if |c| > 1 {
      ChainSplitLast(c[1..], a, b, c[0].i2, c[0].j2, iEnd, jEnd);
      assert c[1..][..|c| - 2] == c[..|c| - 1][1..];
    }
  }

  lemma TrimFirstChain(codes: seq<Opcode>, a: seq<string>, b: seq<string>, iEnd: nat, jEnd: nat)
    returns (si: nat, sj: nat)
    requires Chain(codes, a, b, 0, 0, iEnd, jEnd)
    ensures Unchanged(a, b, 0, 0, si, sj) && Chain(TrimFirst(codes), a, b, si, sj, iEnd, jEnd)
  {
    si, sj := 0, 0;
    if codes != [] && codes[0].tag.Equal? {
      var op, tail := codes[0], TailOf(codes[0]);
      TrimmedEqual(a, b, op);
      si, sj := tail.i1, tail.j1;
      ChainConcat([tail], codes[1..], a, b, si, sj, op.i2, op.j2, iEnd, jEnd);
    }
  }

  lemma TrimLastChain(codes: seq<Opcode>, a: seq<string>, b: seq<string>, si: nat, sj: nat)
    returns (iEnd: nat, jEnd: nat)
    requires si <= |a| && sj <= |b| && Chain(codes, a, b, si, sj, |a|, |b|)
    ensures Unchanged(a, b, iEnd, jEnd, |a|, |b|) && Chain(TrimLast(codes), a, b, si, sj, iEnd, jEnd)
  {
    iEnd, jEnd := |a|, |b|;
    var n := |codes|;
    if n > 0 && codes[n - 1].tag.Equal? {
      var op, head := codes[n - 1], HeadOf(codes[n - 1]);
      ChainSplitLast(codes, a, b, si, sj, |a|, |b|);
      TrimmedEqual(a, b, op);
      iEnd, jEnd := head.i2, head.j2;
      ChainSnoc(codes[..n - 1], head, a, b, si, sj);
    }
  }

  /** Whatever valid edit script the matcher picks, its groups are windows covering every change. */
  lemma GroupedCovers(codes: seq<Opcode>, a: seq<string>, b: seq<string>)
    requires Valid(codes, a, b)
    ensures Covers(Grouped(codes), a, b, 0, 0)
  {
    if codes == [] {
      var one := Opcode(Equal, 0, 1, 0, 1);
      assert TrimLast(TrimFirst([one])) == [one];
      assert Cut([one], []) == Cut([], [one]);
    } else {
      var si, sj := TrimFirstChain(codes, a, b, |a|, |b|);
      var iEnd, jEnd := TrimLastChain(TrimFirst(codes), a, b, si, sj);
      CutCovers(TrimLast(TrimFirst(codes)), [], a, b, 0, 0, si, sj, si, sj, iEnd, jEnd);
    }
  }
}
