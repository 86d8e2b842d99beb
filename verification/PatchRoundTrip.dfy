/**
 Reading undoes printing, and applying the hunks of a valid edit script turns the src lines into
 the new ones.
 */
module PatchRoundTrip {
  import opened Wrappers
  import opened Text
  import opened Opcodes
  import opened UnifiedDiff
  import opened PatchReader

  // ----- ranges and hunk headers -----

  lemma FormatRangeShape(start: nat, stop: nat)
    requires start <= stop
    ensures ReadRange(FormatRange(start, stop)) == Some((start, stop - start))
    ensures ' ' !in FormatRange(start, stop) && '\n' !in FormatRange(start, stop)
  {
    hide Decimal, DecimalValue, IsDigits, ReadRange;
    if stop - start == 1 {
      OneNumber(Decimal(start + 1));
    } else {
      TwoNumbers(Decimal(if stop == start then start else start + 1), Decimal(stop - start));
    }
  }

  lemma OneNumber(s: string)
    requires IsDigits(s) && DecimalValue(s) > 0
    ensures ReadRange(s) == Some((DecimalValue(s) - 1, 1)) && ' ' !in s && '\n' !in s
  {
    assert IndexOf(s, ',') == |s|;
    hide IndexOf, DecimalValue;
  }

  lemma TwoNumbers(s: string, t: string)
    requires IsDigits(s) && IsDigits(t) && (DecimalValue(s) > 0 || DecimalValue(t) == 0)
    ensures var n, count := DecimalValue(s), DecimalValue(t);
      ReadRange(s + "," + t) == Some((if count == 0 then n else n - 1, count))
    ensures ' ' !in s + "," + t && '\n' !in s + "," + t
  {
    hide IndexOf, DecimalValue;
    var r := s + "," + t;
    assert r[..|s|] == s && r[|s| + 1..] == t;
    IndexOfUnique(r, ',', |s|);
  }

  lemma ReadHeaderText(r1: string, r2: string, h: Hunk)
    requires ReadRange(r1) == Some((h.oldStart, h.oldCount)) && ' ' !in r1
    requires ReadRange(r2) == Some((h.newStart, h.newCount)) && ' ' !in r2
    ensures ReadHunkHeader(HeaderText(r1, r2)) == Some(h.(body := []))
  {
    var end := " @@\n";
    var t := r2 + end;
    var s' := " +" + t;
    DropOf("@@ -", r1 + s');
    CutAtOf(r1, s', ' ');
    DropOf(" +", t);
    CutAtOf(r2, end, ' ');
  }

  lemma LineConcat(s: string, t: string)
    requires '\n' !in s && IsLine(t)
    ensures IsLine(s + t) && (EndsWithLf(t) ==> EndsWithLf(s + t))
  {
    assert (s + t)[..|s + t| - 1] == s + t[..|t| - 1];
  }

  lemma HeaderTextIsLine(r1: string, r2: string)
    requires '\n' !in r1 && '\n' !in r2
    ensures IsLine(HeaderText(r1, r2)) && EndsWithLf(HeaderText(r1, r2))
  {
    LineConcat(r2, " @@\n");
    LineConcat(" +", r2 + " @@\n");
    LineConcat(r1, " +" + (r2 + " @@\n"));
    LineConcat("@@ -", r1 + (" +" + (r2 + " @@\n")));
  }

  lemma ReadHunkHeaderOfPrinted(h: Hunk)
    ensures ReadHunkHeader(HunkHeader(h)) == Some(h.(body := []))
    ensures IsLine(HunkHeader(h)) && EndsWithLf(HunkHeader(h))
  {
    hide FormatRange, ReadRange, ReadHunkHeader;
    var r1 := FormatRange(h.oldStart, h.oldStart + h.oldCount);
    var r2 := FormatRange(h.newStart, h.newStart + h.newCount);
    FormatRangeShape(h.oldStart, h.oldStart + h.oldCount);
    FormatRangeShape(h.newStart, h.newStart + h.newCount);
    ReadHeaderText(r1, r2, h);
    HeaderTextIsLine(r1, r2);
  }

  // ----- hunk bodies -----

  /** The lines written for one line of diff output: a missing LF is supplied and marked. */
  function Wire(diffLine: string): seq<string> {
    if EndsWithLf(diffLine) then [diffLine] else [diffLine + "\n", NO_NEWLINE]
  }

  function WireAll(diffLines: seq<string>): seq<string> {
    if diffLines == [] then [] else Wire(diffLines[0]) + WireAll(diffLines[1..])
  }

  lemma {:induction false} WireAllConcat(a: seq<string>, b: seq<string>)
    ensures WireAll(a + b) == WireAll(a) + WireAll(b)
  {
    if a == [] {
      assert a + b == b;
    } else {
      assert (a + b)[1..] == a[1..] + b;
      WireAllConcat(a[1..], b);
    }
  }

  predicate GoodBody(body: seq<BodyLine>) {
    forall k :: 0 <= k < |body| ==> IsKind(body[k].kind) && IsLine(body[k].text)
  }

  function OldCount(body: seq<BodyLine>): nat {
    if body == [] then 0 else Keeps(body[0].kind) + OldCount(body[1..])
  }

  function NewCount(body: seq<BodyLine>): nat {
    if body == [] then 0 else Makes(body[0].kind) + NewCount(body[1..])
  }

  /** What may follow a hunk line without being taken for its missing-LF marker. */
  predicate NoMarker(rest: seq<string>) {
    rest == [] || rest[0] != NO_NEWLINE
  }

  lemma ReadOneLine(l: BodyLine, more: seq<BodyLine>, o: nat, n: nat, tail: seq<string>, rest: seq<string>)
    requires IsKind(l.kind) && IsLine(l.text) && NoMarker(tail)
    requires ReadBody(tail, o, n) == Some((more, rest))
    ensures ReadBody(Wire(DiffLine(l)) + tail, Keeps(l.kind) + o, Makes(l.kind) + n) == Some(([l] + more, rest))
    ensures NoMarker(Wire(DiffLine(l)) + tail)
  {
    var d := DiffLine(l);
    var lines := Wire(d) + tail;
    assert lines[0][0] == l.kind;
    if EndsWithLf(d) {
      assert lines[1..] == tail;
      assert lines[0][1..] == l.text;
    } else {
      assert lines[1] == NO_NEWLINE && lines[2..] == tail;
      assert lines[0][1..|lines[0]| - 1] == l.text;
    }
  }

  lemma BodyStep(body: seq<BodyLine>, rest: seq<string>)
    requires body != [] && GoodBody(body)
    ensures GoodBody(body[1..]) && IsKind(body[0].kind) && IsLine(body[0].text)
    ensures OldCount(body) == Keeps(body[0].kind) + OldCount(body[1..])
    ensures NewCount(body) == Makes(body[0].kind) + NewCount(body[1..])
    ensures WireAll(DiffLines(body)) + rest == Wire(DiffLine(body[0])) + (WireAll(DiffLines(body[1..])) + rest)
  {
    assert DiffLines(body)[1..] == DiffLines(body[1..]);
  }

  lemma ReadNoLines(rest: seq<string>)
    ensures WireAll(DiffLines([])) + rest == rest && ReadBody(rest, 0, 0) == Some(([], rest))
    ensures OldCount([]) == 0 && NewCount([]) == 0
  {
  }

  lemma {:induction false} ReadBodyOfPrinted(body: seq<BodyLine>, rest: seq<string>)
    requires GoodBody(body) && NoMarker(rest)
    ensures ReadBody(WireAll(DiffLines(body)) + rest, OldCount(body), NewCount(body)) == Some((body, rest))
    ensures NoMarker(WireAll(DiffLines(body)) + rest)
  {
    hide *;
    if body == [] {
      ReadNoLines(rest);
    } else {
      var tail := WireAll(DiffLines(body[1..])) + rest;
      BodyStep(body, rest);
      ReadBodyOfPrinted(body[1..], rest);
      ReadOneLine(body[0], body[1..], OldCount(body[1..]), NewCount(body[1..]), tail, rest);
      assert body == [body[0]] + body[1..];
    }
  }

  // ----- hunks -----

  predicate GoodHunk(h: Hunk) {
    GoodBody(h.body) && OldCount(h.body) == h.oldCount && NewCount(h.body) == h.newCount
  }

  predicate GoodHunks(hunks: seq<Hunk>) {
    forall k :: 0 <= k < |hunks| ==> GoodHunk(hunks[k])
  }

  /** What may follow a file's hunks. */
  predicate AfterFile(rest: seq<string>) {
    rest == [] || StartsWith(rest[0], DIFF)
  }

  lemma AfterFileMeans(rest: seq<string>)
    requires AfterFile(rest)
    ensures NoMarker(rest)
    ensures rest != [] ==> rest[0][0] == 'd' && rest[0][1] == 'i'
  {
    if rest != [] {
      assert rest[0][0] == rest[0][..|DIFF|][0] == 'd';
      assert rest[0][1] == rest[0][..|DIFF|][1] == 'i';
    }
  }

  lemma {:induction false} ReadHunksOfPrinted(hunks: seq<Hunk>, rest: seq<string>)
    requires GoodHunks(hunks) && AfterFile(rest)
    ensures ReadHunks(WireAll(HunksLines(hunks)) + rest) == Some((hunks, rest))
    ensures NoMarker(WireAll(HunksLines(hunks)) + rest)
  {
    hide *;
    if hunks == [] {
      ReadNoHunks(rest);
    } else {
      var tail := WireAll(HunksLines(hunks[1..])) + rest;
      HunksStep(hunks);
      ReadHunksOfPrinted(hunks[1..], rest);
      HunksWire(hunks, rest);
      ReadOneHunk(hunks[0], hunks[1..], tail, rest);
      assert hunks == [hunks[0]] + hunks[1..];
    }
  }

  lemma ReadNoHunks(rest: seq<string>)
    requires AfterFile(rest)
    ensures WireAll(HunksLines([])) + rest == rest
    ensures ReadHunks(rest) == Some(([], rest)) && NoMarker(rest)
  {
    AfterFileMeans(rest);
    hide ReadHunkHeader, ReadBody, NO_NEWLINE;
    assert rest != [] ==> rest[0][..4][0] == 'd';
  }

  lemma HunksStep(hunks: seq<Hunk>)
    requires GoodHunks(hunks) && hunks != []
    ensures GoodHunk(hunks[0]) && GoodHunks(hunks[1..])
  {
    hide GoodHunk;
  }

  lemma WireOfLine(line: string)
    requires EndsWithLf(line)
    ensures Wire(line) == [line]
  {
  }

  lemma HunksWire(hunks: seq<Hunk>, rest: seq<string>)
    requires hunks != []
    ensures var h, tail := hunks[0], WireAll(HunksLines(hunks[1..])) + rest;
      WireAll(HunksLines(hunks)) + rest == [HunkHeader(h)] + (WireAll(DiffLines(h.body)) + tail)
  {
    hide HunkHeader, ReadHunkHeader, Wire, EndsWithLf, DiffLines, IsLine;
    var h := hunks[0];
    var head, body, more := HunkHeader(h), DiffLines(h.body), HunksLines(hunks[1..]);
    ReadHunkHeaderOfPrinted(h);
    WireOfLine(head);
    assert HunkLines(h)[1..] == body;
    assert WireAll(HunkLines(h)) == [head] + WireAll(body);
    WireAllConcat(HunkLines(h), more);
    assert WireAll(HunksLines(hunks)) == [head] + WireAll(body) + WireAll(more);
    hide *;
    Associate([head], WireAll(body), WireAll(more), rest);
  }

  lemma ReadOneHunk(h: Hunk, more: seq<Hunk>, tail: seq<string>, rest: seq<string>)
    requires GoodHunk(h) && NoMarker(tail)
    requires ReadHunks(tail) == Some((more, rest))
    ensures var lines := [HunkHeader(h)] + (WireAll(DiffLines(h.body)) + tail);
      ReadHunks(lines) == Some(([h] + more, rest)) && NoMarker(lines)
  {
    var body := WireAll(DiffLines(h.body)) + tail;
    var lines := [HunkHeader(h)] + body;
    assert lines[1..] == body;
    ReadHunkHeaderOfPrinted(h);
    ReadBodyOfPrinted(h.body, tail);
    assert HunkHeader(h)[..4] == "@@ -" && HunkHeader(h)[0] == '@';
    assert h.(body := []).(body := h.body) == h;
    hide HunkHeader, ReadHunkHeader, ReadBody, WireAll, DiffLines;
  }

  // ----- applying the hunks of an edit script -----

  lemma {:induction false} TaggedGood(kind: char, lines: seq<string>)
    requires IsKind(kind) && AllLines(lines)
    ensures GoodBody(Tagged(kind, lines))
    ensures OldCount(Tagged(kind, lines)) == |lines| * Keeps(kind)
    ensures NewCount(Tagged(kind, lines)) == |lines| * Makes(kind)
  {
    if lines != [] {
      TaggedGood(kind, lines[1..]);
      assert Tagged(kind, lines)[1..] == Tagged(kind, lines[1..]);
    }
  }

  lemma {:induction false} CountConcat(a: seq<BodyLine>, b: seq<BodyLine>)
    ensures OldCount(a + b) == OldCount(a) + OldCount(b)
    ensures NewCount(a + b) == NewCount(a) + NewCount(b)
  {
    if a == [] {
      assert a + b == b;
    } else {
      assert (a + b)[1..] == a[1..] + b;
      CountConcat(a[1..], b);
    }
  }

  predicate AllLines(lines: seq<string>) {
    forall k :: 0 <= k < |lines| ==> IsLine(lines[k])
  }

  lemma OpBodyGood(op: Opcode, a: seq<string>, b: seq<string>)
    requires ValidOp(op, a, b) && AllLines(a) && AllLines(b)
    ensures GoodBody(OpBody(op, a, b))
    ensures OldCount(OpBody(op, a, b)) == op.i2 - op.i1
    ensures NewCount(OpBody(op, a, b)) == op.j2 - op.j1
  {
    var xs, ys := a[op.i1..op.i2], b[op.j1..op.j2];
    OpSlices(op, a, b);
    if op.tag.Equal? {
      TaggedGood(' ', xs);
      hide GoodBody, Tagged, OldCount, NewCount, AllLines;
    } else {
      TaggedGood('-', xs);
      TaggedGood('+', ys);
      BodyConcat(Tagged('-', xs), Tagged('+', ys));
      OpBodyParts(op, a, b);
      hide GoodBody, Tagged, OldCount, NewCount, AllLines, OpBody;
    }
  }

  lemma OpSlices(op: Opcode, a: seq<string>, b: seq<string>)
    requires ValidOp(op, a, b) && AllLines(a) && AllLines(b)
    ensures var xs, ys := a[op.i1..op.i2], b[op.j1..op.j2];
      && AllLines(xs) && AllLines(ys) && |xs| == op.i2 - op.i1 && |ys| == op.j2 - op.j1
      && (op.tag.Equal? ==> |xs| == |ys|)
  {
    hide IsLine;
  }

  lemma OpBodyParts(op: Opcode, a: seq<string>, b: seq<string>)
    requires ValidOp(op, a, b) && !op.tag.Equal?
    ensures OpBody(op, a, b) == Tagged('-', a[op.i1..op.i2]) + Tagged('+', b[op.j1..op.j2])
  {
    assert a[op.i1..op.i2] == [] ==> Tagged('-', a[op.i1..op.i2]) == [];
    assert b[op.j1..op.j2] == [] ==> Tagged('+', b[op.j1..op.j2]) == [];
  }

  lemma BodyConcat(a: seq<BodyLine>, b: seq<BodyLine>)
    requires GoodBody(a) && GoodBody(b)
    ensures GoodBody(a + b)
    ensures OldCount(a + b) == OldCount(a) + OldCount(b) && NewCount(a + b) == NewCount(a) + NewCount(b)
  {
    hide IsLine, OldCount, NewCount;
    CountConcat(a, b);
  }

  lemma {:induction false} GroupBodyGood(g: seq<Opcode>, a: seq<string>, b: seq<string>, i: nat, j: nat, ei: nat, ej: nat)
    requires Chain(g, a, b, i, j, ei, ej) && ValidGroup(g, a, b) && AllLines(a) && AllLines(b)
    ensures GoodBody(GroupBody(g, a, b))
    ensures OldCount(GroupBody(g, a, b)) == ei - i
    ensures NewCount(GroupBody(g, a, b)) == ej - j
  {
    if g != [] {
      OpBodyGood(g[0], a, b);
      GroupBodyGood(g[1..], a, b, g[0].i2, g[0].j2, ei, ej);
      CountConcat(OpBody(g[0], a, b), GroupBody(g[1..], a, b));
    }
  }

  /** The hunk of a group that leads from `(i, j)` to `(ei, ej)` can be read back. */
  lemma HunkGood(g: seq<Opcode>, a: seq<string>, b: seq<string>, i: nat, j: nat, ei: nat, ej: nat)
    requires IsGroup(g, a, b) && Chain(g, a, b, i, j, ei, ej) && AllLines(a) && AllLines(b)
    ensures GoodHunk(HunkOf(g, a, b))
  {
    ChainEnds(g, a, b, i, j, ei, ej);
    GroupBodyGood(g, a, b, i, j, ei, ej);
  }

  function Prepend(out: seq<string>, r: Option<(nat, seq<string>)>): Option<(nat, seq<string>)> {
    match r
    case Some((end, rest)) => Some((end, out + rest))
    case None => None
  }

  lemma {:induction false} ApplyTagged(src: seq<string>, pos: nat, kind: char, lines: seq<string>, rest: seq<BodyLine>)
    requires IsKind(kind)
    requires kind != '+' ==> pos + |lines| <= |src| && src[pos..pos + |lines|] == lines
    ensures ApplyBody(src, pos, Tagged(kind, lines) + rest)
         == Prepend(if kind == '-' then [] else lines,
                    ApplyBody(src, if kind == '+' then pos else pos + |lines|, rest))
    decreases lines
  {
    var body := Tagged(kind, lines) + rest;
    if lines == [] {
      assert body == rest;
      if ApplyBody(src, pos, rest).Some? {
        assert [] + ApplyBody(src, pos, rest).value.1 == ApplyBody(src, pos, rest).value.1;
      }
    } else {
      assert body[1..] == Tagged(kind, lines[1..]) + rest;
      var next := if kind == '+' then pos else pos + 1;
      if kind != '+' {
        assert src[pos] == src[pos..pos + |lines|][0];
        assert src[next..next + |lines[1..]|] == src[pos..pos + |lines|][1..];
      }
      ApplyTagged(src, next, kind, lines[1..], rest);
      var end := if kind == '+' then pos else pos + |lines|;
      if ApplyBody(src, end, rest).Some? {
        var out := ApplyBody(src, end, rest).value.1;
        assert [lines[0]] + (lines[1..] + out) == lines + out;
      }
    }
  }

  lemma ApplyOpBody(op: Opcode, a: seq<string>, b: seq<string>, rest: seq<BodyLine>)
    requires ValidOp(op, a, b)
    ensures ApplyBody(a, op.i1, OpBody(op, a, b) + rest) == Prepend(b[op.j1..op.j2], ApplyBody(a, op.i2, rest))
  {
    var xs, ys := a[op.i1..op.i2], b[op.j1..op.j2];
    var minus, plus := Tagged('-', xs), Tagged('+', ys);
    if op.tag.Equal? {
      ApplyTagged(a, op.i1, ' ', xs, rest);
    } else {
      ApplyTagged(a, op.i1, '-', xs, plus + rest);
      ApplyTagged(a, op.i2, '+', ys, rest);
      assert minus + (plus + rest) == OpBody(op, a, b) + rest;
      if ApplyBody(a, op.i2, rest).Some? {
        var out := ys + ApplyBody(a, op.i2, rest).value.1;
        assert [] + out == out;
      }
    }
  }

  lemma {:induction false} ApplyGroupBody(g: seq<Opcode>, a: seq<string>, b: seq<string>, i: nat, j: nat, ei: nat, ej: nat)
    requires j <= |b| && Chain(g, a, b, i, j, ei, ej) && ValidGroup(g, a, b)
    ensures j <= ej <= |b|
    ensures ApplyBody(a, i, GroupBody(g, a, b)) == Some((ei, b[j..ej]))
  {
    if g == [] {
      assert b[j..j] == [];
    } else {
      hide ApplyBody, OpBody;
      var op := g[0];
      ApplyGroupBody(g[1..], a, b, op.i2, op.j2, ei, ej);
      ApplyOpBody(op, a, b, GroupBody(g[1..], a, b));
      Joined(b, j, op.j2, ej);
    }
  }

  lemma Joined(b: seq<string>, j: nat, m: nat, n: nat)
    requires j <= m <= n <= |b|
    ensures b[j..m] + b[m..n] == b[j..n]
  {
  }

  lemma FirstGroup(groups: seq<seq<Opcode>>, a: seq<string>, b: seq<string>, i: nat, j: nat) returns (h: Hunk)
    requires i <= |a| && j <= |b| && groups != [] && Covers(groups, a, b, i, j)
    requires AreGroups(groups, a, b)
    ensures h == HunkOf(groups[0], a, b)
    ensures Unchanged(a, b, i, j, h.oldStart, h.newStart)
    ensures h.oldStart + h.oldCount <= |a| && h.newStart + h.newCount <= |b|
    ensures ApplyBody(a, h.oldStart, h.body)
         == Some((h.oldStart + h.oldCount, b[h.newStart..h.newStart + h.newCount]))
    ensures Covers(groups[1..], a, b, h.oldStart + h.oldCount, h.newStart + h.newCount)
  {
    hide ApplyBody, GroupBody;
    var g := groups[0];
    h := HunkOf(g, a, b);
    var ei, ej := h.oldStart + h.oldCount, h.newStart + h.newCount;
    ChainBounds(g, a, b, h.oldStart, h.newStart, ei, ej);
    ApplyGroupBody(g, a, b, h.oldStart, h.newStart, ei, ej);
  }

  /** Applying the hunks of covering groups turns the old lines into the new ones. */
  lemma {:induction false} ApplyHunksOfGroups(groups: seq<seq<Opcode>>, a: seq<string>, b: seq<string>, i: nat, j: nat)
    requires i <= |a| && j <= |b| && Covers(groups, a, b, i, j)
    requires AreGroups(groups, a, b)
    ensures ApplyHunks(a, i, j, Hunks(groups, a, b)) == Some(b[j..])
  {
    hide *;
    if groups == [] {
      NoGroups(a, b, i, j);
    } else {
      MoreGroups(groups, a, b);
      var h := FirstGroup(groups, a, b, i, j);
      ApplyHunksOfGroups(groups[1..], a, b, h.oldStart + h.oldCount, h.newStart + h.newCount);
      ApplyOneHunk(a, b, i, j, h, Hunks(groups[1..], a, b));
    }
  }

  lemma NoGroups(a: seq<string>, b: seq<string>, i: nat, j: nat)
    requires Covers([], a, b, i, j) && i <= |a| && j <= |b|
    ensures AreGroups([], a, b) && ApplyHunks(a, i, j, Hunks([], a, b)) == Some(b[j..])
  {
    assert a[i..|a|] == a[i..] && b[j..|b|] == b[j..];
  }

  lemma MoreGroups(groups: seq<seq<Opcode>>, a: seq<string>, b: seq<string>)
    requires groups != [] && AreGroups(groups, a, b)
    ensures AreGroups(groups[1..], a, b) && IsGroup(groups[0], a, b)
    ensures Hunks(groups, a, b) == [HunkOf(groups[0], a, b)] + Hunks(groups[1..], a, b)
  {
    hide HunkOf;
  }

  lemma ApplyOneHunk(a: seq<string>, b: seq<string>, i: nat, j: nat, h: Hunk, more: seq<Hunk>)
    requires Unchanged(a, b, i, j, h.oldStart, h.newStart)
    requires h.oldStart + h.oldCount <= |a| && h.newStart + h.newCount <= |b|
    requires ApplyBody(a, h.oldStart, h.body)
          == Some((h.oldStart + h.oldCount, b[h.newStart..h.newStart + h.newCount]))
    requires ApplyHunks(a, h.oldStart + h.oldCount, h.newStart + h.newCount, more) == Some(b[h.newStart + h.newCount..])
    ensures ApplyHunks(a, i, j, [h] + more) == Some(b[j..])
  {
    hide ApplyBody, ApplyHunks;
    assert |a[i..h.oldStart]| == |b[j..h.newStart]|;
    Pasted(b, j, h.newStart, h.newStart + h.newCount);
    ApplyStep(a, i, j, h, more, b[h.newStart..h.newStart + h.newCount], b[h.newStart + h.newCount..]);
  }

  lemma Pasted(b: seq<string>, j: nat, m: nat, n: nat)
    requires j <= m <= n <= |b|
    ensures b[j..] == b[j..m] + b[m..n] + b[n..]
  {
  }

  lemma ApplyStep(a: seq<string>, i: nat, j: nat, h: Hunk, more: seq<Hunk>, out: seq<string>, rest: seq<string>)
    requires i <= h.oldStart && h.oldStart + h.oldCount <= |a| && h.newStart == j + (h.oldStart - i) && |out| == h.newCount
    requires ApplyBody(a, h.oldStart, h.body) == Some((h.oldStart + h.oldCount, out))
    requires ApplyHunks(a, h.oldStart + h.oldCount, h.newStart + h.newCount, more) == Some(rest)
    ensures ApplyHunks(a, i, j, [h] + more) == Some(a[i..h.oldStart] + out + rest)
  {
    hide ApplyBody;
    assert ([h] + more)[1..] == more;
  }

  lemma {:induction false} HunksGood(groups: seq<seq<Opcode>>, a: seq<string>, b: seq<string>, i: nat, j: nat)
    requires Covers(groups, a, b, i, j) && AllLines(a) && AllLines(b)
    requires AreGroups(groups, a, b)
    ensures GoodHunks(Hunks(groups, a, b))
  {
    if groups != [] {
      var g := groups[0];
      HunkGood(g, a, b, g[0].i1, g[0].j1, g[|g| - 1].i2, g[|g| - 1].j2);
      HunksGood(groups[1..], a, b, g[|g| - 1].i2, g[|g| - 1].j2);
      assert Hunks(groups, a, b)[1..] == Hunks(groups[1..], a, b);
    }
  }

  function FileHunks(codes: seq<Opcode>, a: seq<string>, b: seq<string>): seq<Hunk>
    requires Valid(codes, a, b)
  {
    GroupedCovers(codes, a, b);
    CoversGroups(Grouped(codes), a, b, 0, 0);
    Hunks(Grouped(codes), a, b)
  }

  /** Print, read and apply one file's change: the new content comes back, byte for byte. */
  lemma FileHunksRoundTrip(codes: seq<Opcode>, before: string, after: string, rest: seq<string>)
    requires Valid(codes, SplitLf(before), SplitLf(after)) && AfterFile(rest)
    ensures var hunks := FileHunks(codes, SplitLf(before), SplitLf(after));
      && ReadHunks(WireAll(HunksLines(hunks)) + rest) == Some((hunks, rest))
      && Patched(before, hunks) == Some(after)
      && (before != after ==> hunks != [])
  {
    var a, b := SplitLf(before), SplitLf(after);
    GroupedCovers(codes, a, b);
    CoversGroups(Grouped(codes), a, b, 0, 0);
    ApplyHunksOfGroups(Grouped(codes), a, b, 0, 0);
    HunksGood(Grouped(codes), a, b, 0, 0);
    ReadHunksOfPrinted(FileHunks(codes, a, b), rest);
    assert b[0..] == b && a[0..] == a;
  }
}
