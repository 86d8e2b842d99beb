/**
 Two concrete files on which an accepted rebase is not the three-way merge, and a third that shows
 how little it takes: the overlap test alone does not keep an edit on its own block.
 */
module RebaseLimits {
  import opened Wrappers
  import opened Text
  import opened Opcodes
  import opened EditScripts
  import opened ChangeMap
  import opened Editing
  import opened ThreeWayMerge
  import opened SurvivingBlocks

  function WholeLines(a: seq<string>, b: seq<string>): seq<Opcode> {
    [Opcode(Replace, 0, |a|, 0, |b|)]
  }

  lemma WholeLinesSound()
    ensures SoundLines(WholeLines)
  {
    forall a: seq<string>, b: seq<string>
      ensures Valid(WholeLines(a, b), a, b)
    {
      assert WholeLines(a, b)[1..] == [];
    }
  }

  predicate NoBoundary(s: string) {
    forall k :: 0 <= k < |s| ==> !IsBoundary(s[k])
  }

  /** A file of one line, changed to another line: the script is the character diff. */
  lemma OneLineScript(o: string, m: string, chars: Matcher<char>)
    requires SoundChars(chars) && SoundLines(WholeLines) && o != "" && m != "" && |o| * |m| <= 1000
    requires NoBoundary(o) && NoBoundary(m)
    ensures AllValid(chars(o, m), o, m)
    ensures ChangedScript(o, m, WholeLines, chars) == CharChanges(chars(o, m), o, m, 0)
  {
    OneLine(o);
    OneLine(m);
    var op := Opcode(Replace, 0, 1, 0, 1);
    assert WholeLines([o], [m]) == [op];
    ChainAllValid(chars(o, m), o, m, 0, 0, |o|, |m|);
    hide SplitLines, SoundChars, SoundLines, CharChanges, Chain;
    OneBlock(o);
    OneBlock(m);
    assert [op][1..] == [];
    assert LineScript([], [o], [m], chars) == [];
    var script := OpScript(op, [o], [m], chars);
    assert LineScript([op], [o], [m], chars) == script + LineScript([], [o], [m], chars);
    assert script + [] == script;
  }

  lemma OneBlock(o: string)
    ensures Offset([o], 0) == 0 && Offset([o], 1) == |o| && Block([o], 0, 1) == o
  {
    assert [o][..0] == [] && [o][..1] == [o] && [o][1..] == [];
    assert Join([o]) == o;
    assert o[0..|o|] == o;
  }

  lemma {:induction false} NoBoundaryEnd(s: string)
    requires s != "" && NoBoundary(s)
    ensures LineEnd(s) == |s|
  {
    if |s| > 1 {
      NoBoundaryEnd(s[1..]);
    }
  }

  lemma OneLine(s: string)
    requires s != "" && NoBoundary(s)
    ensures SplitLines(s) == [s]
  {
    NoBoundaryEnd(s);
    assert s[..|s|] == s && s[|s|..] == "";
  }

  // ----- a find-block that overlaps itself -----

  /** The alignments `difflib` reports for the first example; anything else is one replacement. */
  function SelfOverlapChars(a: string, b: string): seq<Opcode> {
    if a == "xaabbb" && b == "aaabbb" then [Opcode(Replace, 0, 1, 0, 1), Opcode(Equal, 1, 6, 1, 6)]
    else if a == "xaabbb" && b == "xccbbb" then
      [Opcode(Equal, 0, 1, 0, 1), Opcode(Replace, 1, 3, 1, 3), Opcode(Equal, 3, 6, 3, 6)]
    else [Opcode(Replace, 0, |a|, 0, |b|)]
  }

  lemma ThreeOps(a: string, b: string, x: Opcode, y: Opcode, z: Opcode)
    requires ValidOp(x, a, b) && ValidOp(y, a, b) && ValidOp(z, a, b)
    requires x.i1 == 0 && x.j1 == 0 && x.i2 == y.i1 && x.j2 == y.j1 && y.i2 == z.i1 && y.j2 == z.j1
    requires z.i2 == |a| && z.j2 == |b|
    ensures Valid([x, y, z], a, b)
  {
    assert [x, y, z][1..] == [y, z] && [y, z][1..] == [z] && [z][1..] == [];
    assert Chain([z], a, b, z.i1, z.j1, |a|, |b|);
    assert Chain([y, z], a, b, y.i1, y.j1, |a|, |b|);
  }

  lemma TwoOps(a: string, b: string, x: Opcode, y: Opcode)
    requires ValidOp(x, a, b) && ValidOp(y, a, b)
    requires x.i1 == 0 && x.j1 == 0 && x.i2 == y.i1 && x.j2 == y.j1 && y.i2 == |a| && y.j2 == |b|
    ensures Valid([x, y], a, b)
  {
    assert [x, y][1..] == [y] && [y][1..] == [];
    assert Chain([y], a, b, y.i1, y.j1, |a|, |b|);
  }

  lemma WholeValid(a: string, b: string)
    ensures Valid([Opcode(Replace, 0, |a|, 0, |b|)], a, b)
  {
    assert [Opcode(Replace, 0, |a|, 0, |b|)][1..] == [];
  }

  lemma SelfOverlapSound()
    ensures SoundChars(SelfOverlapChars)
  {
    forall a, b
      ensures Valid(SelfOverlapChars(a, b), a, b)
    {
      if a == "xaabbb" && b == "aaabbb" {
        assert a[1..6] == "aabbb" == b[1..6];
        TwoOps(a, b, Opcode(Replace, 0, 1, 0, 1), Opcode(Equal, 1, 6, 1, 6));
      } else if a == "xaabbb" && b == "xccbbb" {
        assert a[0..1] == "x" == b[0..1] && a[3..6] == "bbb" == b[3..6];
        ThreeOps(a, b, Opcode(Equal, 0, 1, 0, 1), Opcode(Replace, 1, 3, 1, 3), Opcode(Equal, 3, 6, 3, 6));
      } else {
        WholeValid(a, b);
      }
    }
  }

  lemma CountSelfOverlap()
    ensures Count("aaabbb", "aa") == 1 && Find("aaabbb", "aa") == Some(0)
  {
    assert "aaabbb"[..2] == "aa" && "aaabbb"[2..] == "abbb";
    assert "abbb"[..2] == "ab" && "abbb"[1..] == "bbb";
    assert "bbb"[..2] == "bb" && "bbb"[1..] == "bb" && "bb"[..2] == "bb" && "bb"[1..] == "b";
    assert Count("bb", "aa") == Count("b", "aa") == 0;
    assert Count("bbb", "aa") == Count("bb", "aa");
    assert Count("abbb", "aa") == Count("bbb", "aa");
  }

  /**
   `xaabbb` with `aa` replaced by `cc`, while the file became `aaabbb`.  The find-block meets none of
   the file's changes and is counted once, yet a second, overlapping occurrence to its left is the
   one replaced: `ccabbb` is written instead of the merge `accbbb`.
   */
  lemma SelfOverlapGoesWrong()
    ensures SoundLines(WholeLines) && SoundChars(SelfOverlapChars)
    ensures var e := PendingEdit(1, "f", "xaabbb", "xccbbb", [FileEdit("aa", "cc")], Pending);
      && Clear(e, "aaabbb", [1], WholeLines, SelfOverlapChars)
      && Outcome(e, "aaabbb", WholeLines, SelfOverlapChars) == Ok("ccabbb")
    ensures ChangedScript("xaabbb", "aaabbb", WholeLines, SelfOverlapChars) == [Change(0, 1, "a")]
    ensures var merged := Merge([Change(0, 1, "a")], [Change(1, 3, "cc")]);
      ValidIn(merged, 0, 6) && Patch("xaabbb", merged) == "accbbb"
    ensures ValidIn([Change(0, 1, "a")], 0, 6) && Survives([Change(0, 1, "a")], 1, 3)
    ensures !RewritesBlock("xaabbb", [Change(0, 1, "a")], "aa", 1)
  {
    hide *;
    SelfOverlapMisses();
    WholeLinesSound();
    SelfOverlapSound();
    SelfOverlapScripts();
    Lines();
    OneLineScript("xaabbb", "aaabbb", SelfOverlapChars);
    OneLineScript("xaabbb", "xccbbb", SelfOverlapChars);
    SelfOverlapReplay();
    SelfOverlapApart();
    var e := PendingEdit(1, "f", "xaabbb", "xccbbb", [FileEdit("aa", "cc")], Pending);
    ClearOf(e, "aaabbb", [1], WholeLines, SelfOverlapChars);
    OutcomeOf(e, "aaabbb", WholeLines, SelfOverlapChars);
    MergedSelfOverlap();
  }

  lemma SelfOverlapMisses()
    ensures ValidIn([Change(0, 1, "a")], 0, 6) && Survives([Change(0, 1, "a")], 1, 3)
    ensures !RewritesBlock("xaabbb", [Change(0, 1, "a")], "aa", 1)
  {
    var o, s := "xaabbb", [Change(0, 1, "a")];
    assert s[1..] == [] && o[1..3] == "aa";
    CountSelfOverlap();
    OneChangePatch(o, s[0]);
    assert o[0..0] + "a" + o[1..6] == "aaabbb";
    MovedPast(o, s[0], 1);
    hide Count, Find, RewritesBlock, MovedTo, Survives, PatchTo;
    RewritesExactly(o, s, "aa", 1);
  }

  lemma OneChangePatch(o: string, c: Change)
    requires c.lo <= c.hi <= |o|
    ensures ValidIn([c], 0, |o|) && Patch(o, [c]) == o[0..c.lo] + c.text + o[c.hi..|o|]
  {
    assert [c][1..] == [];
    assert PatchTo(o, c.hi, |o|, []) == o[c.hi..|o|];
  }

  /** A block behind a single change has moved by what the change added. */
  lemma MovedPast(o: string, c: Change, place: nat)
    requires c.lo <= c.hi <= place <= |o| && !Idle(c)
    ensures ValidIn([c], 0, |o|) && MovedTo(o, [c], place) == c.lo + |c.text| + (place - c.hi)
  {
    assert [c][1..] == [] && Busy([c]) == [c];
    assert Ahead(o, c.hi, [], place) == o[c.hi..place];
  }

  lemma Lines()
    ensures NoBoundary("xaabbb") && NoBoundary("aaabbb") && NoBoundary("xccbbb")
    ensures NoBoundary("AB--") && NoBoundary("ZB--AB") && NoBoundary("AC--") && NoBoundary("xAB--")
  {
  }

  lemma ClearOf(e: PendingEdit, current: string, places: seq<nat>, lines: Matcher<string>, chars: Matcher<char>)
    requires SoundLines(lines) && SoundChars(chars)
    requires Placed(e.original, e.edits, places) && PairwiseSeparate(EditChanges(e.edits, places))
    ensures Clear(e, current, places, lines, chars)
       <==> Separate(ChangedScript(e.original, current, lines, chars), EditChanges(e.edits, places))
  {
    hide ChangedScript, Separate, SoundLines, SoundChars;
  }

  lemma OutcomeOf(e: PendingEdit, current: string, lines: Matcher<string>, chars: Matcher<char>)
    requires SoundLines(lines) && SoundChars(chars) && current != e.original && e.edits != []
    requires Disjoint(ChangedScript(e.original, current, lines, chars), ChangedScript(e.original, e.newContent, lines, chars))
    requires ApplyEdits(current, e.edits).Ok?
    ensures Outcome(e, current, lines, chars) == ApplyEdits(current, e.edits)
  {
    hide ChangedScript, Disjoint, SoundLines, SoundChars, ApplyEdits;
  }

  lemma ApplySingle(content: string, edit: FileEdit)
    ensures ApplyEdits(content, [edit]) == ApplyExact(content, edit)
  {
    hide ApplyExact;
    assert [edit][1..] == [];
  }

  lemma SelfOverlapReplay()
    ensures ApplyEdits("aaabbb", [FileEdit("aa", "cc")]) == Ok("ccabbb")
  {
    CountSelfOverlap();
    ApplySingle("aaabbb", FileEdit("aa", "cc"));
    hide Count, Find, ApplyEdits;
    assert "aaabbb"[..0] + "cc" + "aaabbb"[2..] == "ccabbb";
  }

  lemma SelfOverlapApart()
    ensures EditChanges([FileEdit("aa", "cc")], [1]) == [Change(1, 3, "cc")]
    ensures Placed("xaabbb", [FileEdit("aa", "cc")], [1]) && PairwiseSeparate([Change(1, 3, "cc")])
    ensures Disjoint([Change(0, 1, "a")], [Change(1, 3, "cc")])
    ensures Separate([Change(0, 1, "a")], [Change(1, 3, "cc")])
  {
    assert "xaabbb"[1..3] == "aa";
    assert [Change(1, 3, "cc")][1..] == [];
  }

  lemma SelfOverlapScripts()
    ensures AllValid(SelfOverlapChars("xaabbb", "aaabbb"), "xaabbb", "aaabbb")
    ensures AllValid(SelfOverlapChars("xaabbb", "xccbbb"), "xaabbb", "xccbbb")
    ensures CharChanges(SelfOverlapChars("xaabbb", "aaabbb"), "xaabbb", "aaabbb", 0) == [Change(0, 1, "a")]
    ensures CharChanges(SelfOverlapChars("xaabbb", "xccbbb"), "xaabbb", "xccbbb", 0) == [Change(1, 3, "cc")]
  {
    SelfOverlapSound();
    var o, c, p := "xaabbb", "aaabbb", "xccbbb";
    ChainAllValid(SelfOverlapChars(o, c), o, c, 0, 0, 6, 6);
    ChainAllValid(SelfOverlapChars(o, p), o, p, 0, 0, 6, 6);
    assert c[0..1] == "a" && p[1..3] == "cc";
    TwoChanges(Opcode(Replace, 0, 1, 0, 1), Opcode(Equal, 1, 6, 1, 6), o, c);
    ThreeChanges(Opcode(Equal, 0, 1, 0, 1), Opcode(Replace, 1, 3, 1, 3), Opcode(Equal, 3, 6, 3, 6), o, p);
  }

  lemma TwoChanges(x: Opcode, y: Opcode, a: string, b: string)
    requires AllValid([x, y], a, b)
    ensures ValidOp(x, a, b) && ValidOp(y, a, b)
    ensures CharChanges([x, y], a, b, 0) == CharChange(x, a, b, 0) + CharChange(y, a, b, 0)
  {
    assert [x, y][0] == x && [x, y][1] == y;
    assert [x, y][1..] == [y] && [y][1..] == [];
    assert CharChanges([y], a, b, 0) == CharChange(y, a, b, 0) + CharChanges([], a, b, 0);
  }

  lemma ThreeChanges(x: Opcode, y: Opcode, z: Opcode, a: string, b: string)
    requires AllValid([x, y, z], a, b)
    ensures ValidOp(x, a, b) && ValidOp(y, a, b) && ValidOp(z, a, b)
    ensures CharChanges([x, y, z], a, b, 0) == CharChange(x, a, b, 0) + CharChange(y, a, b, 0) + CharChange(z, a, b, 0)
  {
    assert [x, y, z][0] == x && [x, y, z][1] == y && [x, y, z][2] == z;
    assert [x, y, z][1..] == [y, z];
    TwoChanges(y, z, a, b);
    assert CharChanges([x, y, z], a, b, 0) == CharChange(x, a, b, 0) + CharChanges([y, z], a, b, 0);
  }

  lemma TwoChangePatch(o: string, c: Change, d: Change)
    requires c.lo <= c.hi <= d.lo <= d.hi <= |o|
    ensures ValidIn([c, d], 0, |o|)
    ensures Patch(o, [c, d]) == o[0..c.lo] + c.text + (o[c.hi..d.lo] + d.text + o[d.hi..|o|])
  {
    assert [c, d][1..] == [d] && [d][1..] == [];
    assert PatchTo(o, c.hi, |o|, [d]) == o[c.hi..d.lo] + d.text + PatchTo(o, d.hi, |o|, []);
  }

  lemma MergedSelfOverlap()
    ensures var merged := Merge([Change(0, 1, "a")], [Change(1, 3, "cc")]);
      ValidIn(merged, 0, 6) && Patch("xaabbb", merged) == "accbbb"
  {
    var s := [Change(0, 1, "a")];
    assert s[1..] == [];
    assert Merge(s, [Change(1, 3, "cc")]) == [Change(0, 1, "a"), Change(1, 3, "cc")];
    TwoChangePatch("xaabbb", Change(0, 1, "a"), Change(1, 3, "cc"));
    assert "xaabbb"[0..0] == "" && "xaabbb"[1..1] == "" && "xaabbb"[3..6] == "bbb";
    assert "" + "a" + ("" + "cc" + "bbb") == "accbbb";
  }

  // ----- a find-block that has moved, and one that something was put in front of -----

  function MovedChars(a: string, b: string): seq<Opcode> {
    if a == "AB--" && b == "ZB--AB" then
      [Opcode(Replace, 0, 1, 0, 1), Opcode(Equal, 1, 4, 1, 4), Opcode(Insert, 4, 4, 4, 6)]
    else if a == "AB--" && b == "AC--" then
      [Opcode(Equal, 0, 1, 0, 1), Opcode(Replace, 1, 2, 1, 2), Opcode(Equal, 2, 4, 2, 4)]
    else if a == "AB--" && b == "xAB--" then
      [Opcode(Insert, 0, 0, 0, 1), Opcode(Equal, 0, 4, 1, 5)]
    else [Opcode(Replace, 0, |a|, 0, |b|)]
  }

  lemma ProposedValid()
    ensures Valid([Opcode(Equal, 0, 1, 0, 1), Opcode(Replace, 1, 2, 1, 2), Opcode(Equal, 2, 4, 2, 4)], "AB--", "AC--")
  {
    var a, b := "AB--", "AC--";
    assert a[0..1] == "A" == b[0..1] && a[2..4] == "--" == b[2..4];
    ThreeOps(a, b, Opcode(Equal, 0, 1, 0, 1), Opcode(Replace, 1, 2, 1, 2), Opcode(Equal, 2, 4, 2, 4));
  }

  lemma MovedValid()
    ensures Valid([Opcode(Replace, 0, 1, 0, 1), Opcode(Equal, 1, 4, 1, 4), Opcode(Insert, 4, 4, 4, 6)], "AB--", "ZB--AB")
  {
    var a, b := "AB--", "ZB--AB";
    assert a[1..4] == "B--" == b[1..4];
    ThreeOps(a, b, Opcode(Replace, 0, 1, 0, 1), Opcode(Equal, 1, 4, 1, 4), Opcode(Insert, 4, 4, 4, 6));
  }

  lemma TouchedValid()
    ensures Valid([Opcode(Insert, 0, 0, 0, 1), Opcode(Equal, 0, 4, 1, 5)], "AB--", "xAB--")
  {
    var a, b := "AB--", "xAB--";
    assert a[0..4] == a && b[1..5] == a;
    TwoOps(a, b, Opcode(Insert, 0, 0, 0, 1), Opcode(Equal, 0, 4, 1, 5));
  }

  lemma MovedSound()
    ensures SoundChars(MovedChars)
  {
    forall a, b
      ensures Valid(MovedChars(a, b), a, b)
    {
      if a == "AB--" && b == "ZB--AB" {
        MovedValid();
      } else if a == "AB--" && b == "AC--" {
        ProposedValid();
      } else if a == "AB--" && b == "xAB--" {
        TouchedValid();
      } else {
        WholeValid(a, b);
      }
    }
  }

  const MOVED: Script := [Change(0, 1, "Z"), Change(4, 4, "AB")]
  const TOUCHED: Script := [Change(0, 0, "x")]
  const PROPOSED: Script := [Change(1, 2, "C")]

  lemma MovedScripts()
    ensures AllValid(MovedChars("AB--", "ZB--AB"), "AB--", "ZB--AB") && AllValid(MovedChars("AB--", "AC--"), "AB--", "AC--")
    ensures CharChanges(MovedChars("AB--", "ZB--AB"), "AB--", "ZB--AB", 0) == MOVED
    ensures CharChanges(MovedChars("AB--", "AC--"), "AB--", "AC--", 0) == PROPOSED
  {
    MovedSound();
    var o, c, p := "AB--", "ZB--AB", "AC--";
    ChainAllValid(MovedChars(o, c), o, c, 0, 0, 4, 6);
    ChainAllValid(MovedChars(o, p), o, p, 0, 0, 4, 4);
    assert c[0..1] == "Z" && c[4..6] == "AB" && p[1..2] == "C";
    ThreeChanges(Opcode(Replace, 0, 1, 0, 1), Opcode(Equal, 1, 4, 1, 4), Opcode(Insert, 4, 4, 4, 6), o, c);
    ThreeChanges(Opcode(Equal, 0, 1, 0, 1), Opcode(Replace, 1, 2, 1, 2), Opcode(Equal, 2, 4, 2, 4), o, p);
  }

  lemma TouchedScript()
    ensures AllValid(MovedChars("AB--", "xAB--"), "AB--", "xAB--")
    ensures CharChanges(MovedChars("AB--", "xAB--"), "AB--", "xAB--", 0) == TOUCHED
  {
    MovedSound();
    var o, c := "AB--", "xAB--";
    ChainAllValid(MovedChars(o, c), o, c, 0, 0, 4, 5);
    assert c[0..1] == "x";
    TwoChanges(Opcode(Insert, 0, 0, 0, 1), Opcode(Equal, 0, 4, 1, 5), o, c);
  }

  lemma CountMoved()
    ensures Count("ZB--AB", "AB") == 1 && Find("ZB--AB", "AB") == Some(4)
    ensures Count("xAB--", "AB") == 1 && Find("xAB--", "AB") == Some(1)
  {
    assert "ZB--AB"[..2] == "ZB" && "ZB--AB"[1..] == "B--AB";
    assert "B--AB"[..2] == "B-" && "B--AB"[1..] == "--AB";
    assert "--AB"[..2] == "--" && "--AB"[1..] == "-AB";
    assert "-AB"[..2] == "-A" && "-AB"[1..] == "AB" && "AB"[..2] == "AB" && "AB"[2..] == "";
    assert Count("AB", "AB") == 1 && Find("AB", "AB") == Some(0);
    assert Count("-AB", "AB") == 1 && Find("-AB", "AB") == Some(1);
    assert Count("--AB", "AB") == 1 && Find("--AB", "AB") == Some(2);
    assert Count("B--AB", "AB") == 1 && Find("B--AB", "AB") == Some(3);
    CountTouched();
  }

  lemma CountTouched()
    ensures Count("xAB--", "AB") == 1 && Find("xAB--", "AB") == Some(1)
  {
    assert "xAB--"[..2] == "xA" && "xAB--"[1..] == "AB--" && "AB--"[..2] == "AB" && "AB--"[2..] == "--";
    assert "--"[..2] == "--" && "--"[1..] == "-";
    assert Count("-", "AB") == 0 && Count("--", "AB") == 0;
    assert Count("AB--", "AB") == 1 && Find("AB--", "AB") == Some(0);
  }

  /**
   `AB--` with `AB` replaced by `AC`, while the file became `ZB--AB`.  The diff of the proposal,
   `B` to `C`, meets no change of the file, and the merge of the two diffs is `ZC--AB`.  But the
   find-block has not survived, and the edit rewrites an `AB` that was not in the original at all.
   */
  lemma MovedBlockGoesWrong()
    ensures SoundLines(WholeLines) && SoundChars(MovedChars)
    ensures var e := PendingEdit(1, "f", "AB--", "AC--", [FileEdit("AB", "AC")], Pending);
      && ChangedScript("AB--", "ZB--AB", WholeLines, MovedChars) == MOVED
      && ChangedScript("AB--", "AC--", WholeLines, MovedChars) == PROPOSED
      && Outcome(e, "ZB--AB", WholeLines, MovedChars) == Ok("ZB--AC")
    ensures ValidIn(MOVED, 0, 4) && ValidIn(PROPOSED, 0, 4) && Separate(MOVED, PROPOSED)
    ensures ThreeWay("AB--", MOVED, PROPOSED) == "ZC--AB"
    ensures forall place: nat :: OccursAt("AB--", "AB", place) ==>
      !Survives(MOVED, place, place + 2) && !RewritesBlock("AB--", MOVED, "AB", place)
  {
    hide *;
    WholeLinesSound();
    MovedSound();
    MovedScripts();
    Lines();
    OneLineScript("AB--", "ZB--AB", MovedChars);
    OneLineScript("AB--", "AC--", MovedChars);
    MovedReplay();
    MovedApart();
    MovedMerge();
    var e := PendingEdit(1, "f", "AB--", "AC--", [FileEdit("AB", "AC")], Pending);
    OutcomeOf(e, "ZB--AB", WholeLines, MovedChars);
    MovedBlockLost();
  }

  lemma MovedBlockLost()
    ensures ValidIn(MOVED, 0, 4)
    ensures forall place: nat :: OccursAt("AB--", "AB", place) ==>
      !Survives(MOVED, place, place + 2) && !RewritesBlock("AB--", MOVED, "AB", place)
  {
    MovedApart();
    hide MOVED, Survives, RewritesBlock, ValidIn, OccursAt;
    forall place: nat | OccursAt("AB--", "AB", place)
      ensures !Survives(MOVED, place, place + 2) && !RewritesBlock("AB--", MOVED, "AB", place)
    {
      OnlyPlace(place);
      RewritesExactly("AB--", MOVED, "AB", place);
    }
  }

  /**
   The same edit while the file became `xAB--`: an insertion that only touches the find-block leaves it
   whole, and the edit does what it was meant to.
   */
  lemma TouchedBlockGoesRight()
    ensures SoundLines(WholeLines) && SoundChars(MovedChars)
    ensures var e := PendingEdit(1, "f", "AB--", "AC--", [FileEdit("AB", "AC")], Pending);
      && ChangedScript("AB--", "xAB--", WholeLines, MovedChars) == TOUCHED
      && Outcome(e, "xAB--", WholeLines, MovedChars) == Ok("xAC--")
    ensures ValidIn(TOUCHED, 0, 4) && SpansOverlap((0, 0), (0, 2)) && Survives(TOUCHED, 0, 2)
    ensures RewritesBlock("AB--", TOUCHED, "AB", 0)
  {
    hide *;
    WholeLinesSound();
    MovedSound();
    MovedScripts();
    TouchedScript();
    Lines();
    OneLineScript("AB--", "xAB--", MovedChars);
    OneLineScript("AB--", "AC--", MovedChars);
    TouchedReplay();
    TouchedApart();
    var e := PendingEdit(1, "f", "AB--", "AC--", [FileEdit("AB", "AC")], Pending);
    OutcomeOf(e, "xAB--", WholeLines, MovedChars);
    TouchedMoves();
    RewritesExactly("AB--", TOUCHED, "AB", 0);
  }

  lemma MovedReplay()
    ensures ApplyEdits("ZB--AB", [FileEdit("AB", "AC")]) == Ok("ZB--AC")
  {
    CountMoved();
    ApplySingle("ZB--AB", FileEdit("AB", "AC"));
    hide Count, Find, ApplyEdits;
    assert "ZB--AB"[..4] + "AC" + "ZB--AB"[6..] == "ZB--AC";
  }

  lemma TouchedReplay()
    ensures ApplyEdits("xAB--", [FileEdit("AB", "AC")]) == Ok("xAC--")
  {
    CountMoved();
    ApplySingle("xAB--", FileEdit("AB", "AC"));
    hide Count, Find, ApplyEdits;
    assert "xAB--"[..1] + "AC" + "xAB--"[3..] == "xAC--";
  }

  lemma MovedApart()
    ensures Disjoint(MOVED, PROPOSED) && ValidIn(MOVED, 0, 4) && ValidIn(PROPOSED, 0, 4) && !Survives(MOVED, 0, 2)
  {
    assert MOVED[0] in MOVED && MOVED[1..] == [Change(4, 4, "AB")] && MOVED[1..][1..] == [];
    assert PROPOSED[1..] == [];
  }

  lemma MovedMerge()
    ensures ValidIn(MOVED, 0, 4) && ValidIn(PROPOSED, 0, 4) && Separate(MOVED, PROPOSED)
    ensures ThreeWay("AB--", MOVED, PROPOSED) == "ZC--AB"
  {
    MovedApart();
    DisjointSeparate(MOVED, PROPOSED);
    var z, c, ab := Change(0, 1, "Z"), Change(1, 2, "C"), Change(4, 4, "AB");
    assert MOVED[1..] == [ab] && PROPOSED[1..] == [] && [c] == PROPOSED;
    assert Merge([ab], PROPOSED) == [c] + [ab];
    var merged := Merge(MOVED, PROPOSED);
    assert merged == [z, c, ab];
    assert [z, c, ab][1..] == [c, ab] && [c, ab][1..] == [ab] && [ab][1..] == [];
    var o := "AB--";
    assert PatchTo(o, 4, 4, []) == "" && PatchTo(o, 2, 4, [ab]) == o[2..4] + "AB" + "";
    assert PatchTo(o, 1, 4, [c, ab]) == o[1..1] + "C" + (o[2..4] + "AB" + "");
    assert o[0..0] == "" && o[1..1] == "" && o[2..4] == "--";
    assert Patch(o, merged) == "" + "Z" + ("" + "C" + ("--" + "AB" + "")) == "ZC--AB";
  }

  lemma TouchedApart()
    ensures Disjoint(TOUCHED, PROPOSED)
  {
  }

  lemma TouchedMoves()
    ensures OccursAt("AB--", "AB", 0) && ValidIn(TOUCHED, 0, 4) && Survives(TOUCHED, 0, 2) && SpansOverlap((0, 0), (0, 2))
    ensures Count(Patch("AB--", TOUCHED), "AB") == 1
    ensures Find(Patch("AB--", TOUCHED), "AB") == Some(MovedTo("AB--", TOUCHED, 0))
  {
    var o, c := "AB--", Change(0, 0, "x");
    assert o[0..2] == "AB" && TOUCHED == [c];
    TouchedSurvives(c);
    TouchedPatch();
    hide Count, Find, MovedTo, PatchTo, Survives;
    CountTouched();
    MovedPast(o, c, 0);
  }

  lemma TouchedPatch()
    ensures ValidIn(TOUCHED, 0, 4) && Patch("AB--", TOUCHED) == "xAB--"
  {
    var o, c := "AB--", Change(0, 0, "x");
    OneChangePatch(o, c);
    assert o[0..0] + "x" + o[0..4] == "xAB--";
  }

  lemma TouchedSurvives(c: Change)
    requires c.hi == 0
    ensures Survives([c], 0, 2)
  {
  }

  lemma OnlyPlace(place: nat)
    requires OccursAt("AB--", "AB", place)
    ensures place == 0
  {
    var o := "AB--";
    assert o[place..place + 2][0] == o[place] == 'A';
  }
}
