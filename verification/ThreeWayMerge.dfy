/**
 What approval writes on a changed file is the three-way merge of the original, the current content
 and the proposed replacements: when that holds, and inputs on which it does not.
 */
module ThreeWayMerge {
  import opened Wrappers
  import opened Text
  import opened Opcodes
  import opened EditScripts
  import opened ChangeMap
  import opened Editing

  // ----- the replacements as a script -----

  /** `places[k]` is where the find-block of edit `k` stands in the original. */
  predicate Placed(o: string, edits: seq<FileEdit>, places: seq<nat>) {
    |places| == |edits| && forall k :: 0 <= k < |edits| ==> OccursAt(o, edits[k].find, places[k])
  }

  function EditChange(edit: FileEdit, place: nat): Change {
    Change(place, place + |edit.find|, edit.replace)
  }

  /** One change per edit, in the order of the edits. */
  function EditChanges(edits: seq<FileEdit>, places: seq<nat>): Script
    requires |places| == |edits|
  {
    if edits == [] then [] else [EditChange(edits[0], places[0])] + EditChanges(edits[1..], places[1..])
  }

  predicate PairwiseSeparate(cs: Script) {
    cs == [] || (Separate([cs[0]], cs[1..]) && PairwiseSeparate(cs[1..]))
  }

  /** Add changes to a script one by one. */
  function Fold(s: Script, cs: Script): Script
    decreases cs
  {
    if cs == [] then s else Fold(Merge(s, [cs[0]]), cs[1..])
  }

  /** The edits' changes in the order of the file. */
  function EditScript(cs: Script): Script {
    Fold([], cs)
  }

  lemma SeparateTail(s: Script, cs: Script)
    requires cs != [] && Separate(s, cs) && PairwiseSeparate(cs)
    ensures Separate(s, [cs[0]]) && Separate(s, cs[1..])
    ensures Separate(Merge(s, [cs[0]]), cs[1..]) && PairwiseSeparate(cs[1..])
  {
    hide Ordered, Merge;
    assert cs[0] in cs && forall c :: c in cs[1..] ==> c in cs;
    MergeElements(s, [cs[0]]);
  }

  lemma {:induction false} FoldIsMerge(s: Script, cs: Script)
    requires Proper(s) && Proper(cs) && Separate(s, cs) && PairwiseSeparate(cs)
    ensures Fold(s, cs) == Merge(s, EditScript(cs))
    ensures Proper(EditScript(cs)) && forall c :: c in EditScript(cs) <==> c in cs
    decreases |cs|
  {
    if cs != [] {
      var c, rest := [cs[0]], cs[1..];
      ProperTail(cs);
      SeparateTail(s, cs);
      ProperMerge(s, c);
      FoldIsMerge(Merge(s, c), rest);
      FoldIsMerge(c, rest);
      SeparateEdits(s, rest, EditScript(rest));
      SeparateEdits(c, rest, EditScript(rest));
      MergeAssociative(s, c, EditScript(rest));
      MergeElements(c, EditScript(rest));
      FirstFold(cs);
      hide *;
      InHeadOrTail(cs);
      ProperOf(cs, EditScript(cs));
    } else {
      MergeNothing(s);
    }
  }

  lemma InHeadOrTail(cs: Script)
    requires cs != []
    ensures forall c :: c in cs <==> c in [cs[0]] || c in cs[1..]
  {
  }

  lemma ProperOf(s: Script, t: Script)
    requires Proper(s) && forall c :: c in t <==> c in s
    ensures Proper(t)
  {
  }

  lemma FirstFold(cs: Script)
    requires cs != []
    ensures EditScript(cs) == Fold([cs[0]], cs[1..])
    ensures forall s: Script :: Fold(s, cs) == Fold(Merge(s, [cs[0]]), cs[1..])
  {
    assert Merge([], [cs[0]]) == [cs[0]];
  }

  lemma ProperTail(cs: Script)
    requires cs != [] && Proper(cs)
    ensures Proper([cs[0]]) && Proper(cs[1..])
  {
  }

  lemma ProperMerge(s: Script, t: Script)
    requires Proper(s) && Proper(t)
    ensures Proper(Merge(s, t))
  {
    MergeElements(s, t);
    hide Merge;
  }

  lemma SeparateEdits(s: Script, t: Script, u: Script)
    requires Separate(s, t) && forall c :: c in u <==> c in t
    ensures Separate(s, u)
  {
    hide Ordered;
  }

  // ----- one application -----

  /**
   A find-and-replace does what it was meant to do, whatever the replacement, exactly when its
   find-block is counted once and the intended place is the leftmost one.
   */
  lemma AppliesAtIntendedPlace(ahead: string, find: string, rest: string)
    ensures (forall replace :: ApplyExact(ahead + find + rest, FileEdit(find, replace)) == Ok(ahead + replace + rest))
      <==> Count(ahead + find + rest, find) == 1 && Find(ahead + find + rest, find) == Some(|ahead|)
  {
    hide Count, Find;
    var x := ahead + find + rest;
    if Count(x, find) == 1 && Find(x, find) == Some(|ahead|) {
      forall replace
        ensures ApplyExact(x, FileEdit(find, replace)) == Ok(ahead + replace + rest)
      {
        ApplyThere(ahead, find, rest, replace);
      }
    }
    if forall replace :: ApplyExact(x, FileEdit(find, replace)) == Ok(ahead + replace + rest) {
      assert ApplyExact(x, FileEdit(find, "")) == Ok(ahead + "" + rest);
      CountedIsFound(x, find);
      assert x[|ahead|..|ahead| + |find|] == find;
      FindLeftmost(x, find, |ahead|);
      var k := Find(x, find).value;
      if k < |ahead| {
        var other := if x[k] == 'a' then "b" else "a";
        TellsApart(ahead, find, rest, k, other);
      }
    }
  }

  /** Replacing an earlier match shows in the text as soon as the replacement starts differently. */
  lemma TellsApart(ahead: string, find: string, rest: string, k: nat, other: string)
    requires k < |ahead| && other != "" && other[0] != ahead[k]
    ensures var x := ahead + find + rest; x[..k] + other + x[k + |find|..] != ahead + other + rest
  {
    var x := ahead + find + rest;
    assert (x[..k] + other + x[k + |find|..])[k] == other[0];
    assert (ahead + other + rest)[k] == ahead[k];
  }

  lemma ApplyThere(ahead: string, find: string, rest: string, replace: string)
    requires Count(ahead + find + rest, find) == 1 && Find(ahead + find + rest, find) == Some(|ahead|)
    ensures ApplyExact(ahead + find + rest, FileEdit(find, replace)) == Ok(ahead + replace + rest)
  {
    var x := ahead + find + rest;
    hide Count, Find;
    assert x[..|ahead|] == ahead && x[|ahead| + |find|..] == rest;
  }

  /** The find-block occurs exactly once when overlapping occurrences are counted too. */
  ghost predicate OccursOnce(s: string, f: string) {
    (exists k :: OccursAt(s, f, k)) && forall j, k :: OccursAt(s, f, j) && OccursAt(s, f, k) ==> j == k
  }

  lemma {:induction false} NoOccurrenceNoCount(s: string, f: string)
    requires f != "" && forall k :: !OccursAt(s, f, k)
    ensures Count(s, f) == 0
    decreases |s|
  {
    if |s| >= |f| {
      assert !OccursAt(s, f, 0);
      assert s[0..|f|] == s[..|f|];
      forall k: nat
        ensures !OccursAt(s[1..], f, k)
      {
        assert !OccursAt(s, f, k + 1);
        if k + |f| <= |s[1..]| {
          assert s[1..][k..k + |f|] == s[k + 1..k + 1 + |f|];
        }
      }
      NoOccurrenceNoCount(s[1..], f);
    }
  }

  lemma {:induction false} OnceIsCountedOnce(s: string, f: string, k: nat)
    requires f != "" && OccursAt(s, f, k) && OccursOnce(s, f)
    ensures Count(s, f) == 1 && Find(s, f) == Some(k)
    decreases |s|
  {
    if k == 0 {
      assert s[..|f|] == f;
      forall j: nat
        ensures !OccursAt(s[|f|..], f, j)
      {
        assert !OccursAt(s, f, |f| + j);
        if j + |f| <= |s[|f|..]| {
          assert s[|f|..][j..j + |f|] == s[|f| + j..|f| + j + |f|];
        }
      }
      NoOccurrenceNoCount(s[|f|..], f);
    } else {
      assert !OccursAt(s, f, 0);
      assert s[0..|f|] == s[..|f|];
      OnceInTail(s, f, k);
      OnceIsCountedOnce(s[1..], f, k - 1);
    }
  }

  lemma OnceInTail(s: string, f: string, k: nat)
    requires k > 0 && OccursAt(s, f, k) && OccursOnce(s, f)
    ensures OccursAt(s[1..], f, k - 1) && OccursOnce(s[1..], f)
  {
    SliceOfSlice(s, 1, |s|, k - 1, k - 1 + |f|);
    assert OccursAt(s[1..], f, k - 1);
    forall i: nat, j: nat | OccursAt(s[1..], f, i) && OccursAt(s[1..], f, j)
      ensures i == j
    {
      SliceOfSlice(s, 1, |s|, i, i + |f|);
      SliceOfSlice(s, 1, |s|, j, j + |f|);
      assert OccursAt(s, f, i + 1) && OccursAt(s, f, j + 1);
    }
  }

  // ----- replaying a list of edits -----

  /**
   Each find-block, when its turn comes, is counted once and its intended place is the leftmost:
   `s` holds the changes already made to the original.
   */
  ghost predicate Intended(o: string, s: Script, edits: seq<FileEdit>, places: seq<nat>)
    requires |places| == |edits|
    decreases edits
  {
    edits == [] ||
    (&& ValidIn(s, 0, |o|)
     && AheadFits(s, 0, places[0]) && places[0] <= |o|
     && Count(Patch(o, s), edits[0].find) == 1
     && Find(Patch(o, s), edits[0].find) == Some(|Ahead(o, 0, s, places[0])|)
     && Intended(o, Merge(s, [EditChange(edits[0], places[0])]), edits[1..], places[1..]))
  }

  /** Each find-block, when its turn comes, occurs once, overlapping occurrences counted. */
  ghost predicate OnceEach(o: string, s: Script, edits: seq<FileEdit>, places: seq<nat>)
    requires |places| == |edits|
    decreases edits
  {
    edits == [] ||
    (&& ValidIn(s, 0, |o|)
     && OccursOnce(Patch(o, s), edits[0].find) && edits[0].find != ""
     && OnceEach(o, Merge(s, [EditChange(edits[0], places[0])]), edits[1..], places[1..]))
  }

  lemma PlacedTail(o: string, edits: seq<FileEdit>, places: seq<nat>)
    requires Placed(o, edits, places) && edits != []
    ensures Placed(o, edits[1..], places[1..])
    ensures places[0] + |edits[0].find| <= |o| && o[places[0]..places[0] + |edits[0].find|] == edits[0].find
    ensures EditChanges(edits, places)[0] == EditChange(edits[0], places[0])
    ensures EditChanges(edits, places)[1..] == EditChanges(edits[1..], places[1..])
  {
    assert OccursAt(o, edits[0].find, places[0]);
  }

  lemma {:induction false} ReplayIsFold(o: string, s: Script, edits: seq<FileEdit>, places: seq<nat>)
    requires Placed(o, edits, places) && ValidIn(s, 0, |o|)
    requires Separate(s, EditChanges(edits, places)) && PairwiseSeparate(EditChanges(edits, places))
    requires Intended(o, s, edits, places)
    ensures ValidIn(Fold(s, EditChanges(edits, places)), 0, |o|)
    ensures ApplyEdits(Patch(o, s), edits) == Ok(Patch(o, Fold(s, EditChanges(edits, places))))
    decreases edits
  {
    if edits != [] {
      var cs, c := EditChanges(edits, places), EditChange(edits[0], places[0]);
      PlacedTail(o, edits, places);
      SeparateTail(s, cs);
      ReplayOne(o, s, edits[0], places[0]);
      ReplayIsFold(o, Merge(s, [c]), edits[1..], places[1..]);
      hide *;
      FoldStep(s, cs);
      ApplyEditsHead(Patch(o, s), edits);
    }
  }

  lemma FoldStep(s: Script, cs: Script)
    requires cs != []
    ensures Fold(s, cs) == Fold(Merge(s, [cs[0]]), cs[1..])
  {
  }

  lemma ApplyEditsHead(content: string, edits: seq<FileEdit>)
    requires edits != [] && ApplyExact(content, edits[0]).Ok?
    ensures ApplyEdits(content, edits) == ApplyEdits(ApplyExact(content, edits[0]).value, edits[1..])
  {
  }

  lemma ReplayOne(o: string, s: Script, edit: FileEdit, place: nat)
    requires ValidIn(s, 0, |o|) && Separate(s, [EditChange(edit, place)])
    requires OccursAt(o, edit.find, place) && AheadFits(s, 0, place)
    requires Count(Patch(o, s), edit.find) == 1 && Find(Patch(o, s), edit.find) == Some(|Ahead(o, 0, s, place)|)
    ensures ValidIn(Merge(s, [EditChange(edit, place)]), 0, |o|)
    ensures ApplyExact(Patch(o, s), edit) == Ok(Patch(o, Merge(s, [EditChange(edit, place)])))
  {
    var rest := Locate(o, 0, |o|, s, EditChange(edit, place));
    ApplyThere(Ahead(o, 0, s, place), edit.find, rest, edit.replace);
  }

  lemma {:induction false} OnceIsIntended(o: string, s: Script, edits: seq<FileEdit>, places: seq<nat>)
    requires Placed(o, edits, places) && ValidIn(s, 0, |o|)
    requires Separate(s, EditChanges(edits, places)) && PairwiseSeparate(EditChanges(edits, places))
    requires OnceEach(o, s, edits, places)
    ensures Intended(o, s, edits, places)
    decreases edits
  {
    if edits != [] {
      var c := EditChange(edits[0], places[0]);
      PlacedTail(o, edits, places);
      SeparateTail(s, EditChanges(edits, places));
      OnceAtPlace(o, s, edits[0], places[0]);
      MergeValid(s, [c], 0, |o|);
      OnceIsIntended(o, Merge(s, [c]), edits[1..], places[1..]);
      hide Count, Find, Separate, Merge, ValidIn, OccursOnce, EditChanges, Placed, PairwiseSeparate, AheadFits, Ahead, Patch;
    }
  }

  lemma OnceAtPlace(o: string, s: Script, edit: FileEdit, place: nat)
    requires ValidIn(s, 0, |o|) && Separate(s, [EditChange(edit, place)]) && OccursAt(o, edit.find, place)
    requires OccursOnce(Patch(o, s), edit.find) && edit.find != ""
    ensures AheadFits(s, 0, place)
    ensures Count(Patch(o, s), edit.find) == 1 && Find(Patch(o, s), edit.find) == Some(|Ahead(o, 0, s, place)|)
    ensures ValidIn([EditChange(edit, place)], 0, |o|)
  {
    var rest := Locate(o, 0, |o|, s, EditChange(edit, place));
    hide Count, Find, OccursOnce, Merge, Separate, AheadFits;
    var ahead := Ahead(o, 0, s, place);
    hide Ahead, PatchTo;
    var x := Patch(o, s);
    assert x == ahead + edit.find + rest;
    assert x[|ahead|..|ahead| + |edit.find|] == edit.find;
    OnceIsCountedOnce(x, edit.find, |ahead|);
    assert [EditChange(edit, place)][1..] == [];
  }

  // ----- approval -----

  /** The edits of a proposal sit at places of their own in its original, left whole by what `current` changed. */
  ghost predicate Clear(e: PendingEdit, current: string, places: seq<nat>, lines: Matcher<string>, chars: Matcher<char>)
    requires SoundLines(lines) && SoundChars(chars)
  {
    && Placed(e.original, e.edits, places)
    && PairwiseSeparate(EditChanges(e.edits, places))
    && Separate(ChangedScript(e.original, current, lines, chars), EditChanges(e.edits, places))
  }

  lemma EditScriptFacts(o: string, s: Script, edits: seq<FileEdit>, places: seq<nat>)
    requires Placed(o, edits, places) && PairwiseSeparate(EditChanges(edits, places))
    requires ValidIn(s, 0, |o|) && Separate(s, EditChanges(edits, places))
    ensures ValidIn(EditScript(EditChanges(edits, places)), 0, |o|)
    ensures Separate(s, EditScript(EditChanges(edits, places)))
    ensures Fold(s, EditChanges(edits, places)) == Merge(s, EditScript(EditChanges(edits, places)))
  {
    var cs := EditChanges(edits, places);
    ChangesProper(o, edits, places);
    ValidProper(s, 0, |o|);
    FoldIsMerge(s, cs);
    SeparateEdits(s, cs, EditScript(cs));
    FoldValid(o, [], edits, places);
  }

  lemma {:induction false} ChangesProper(o: string, edits: seq<FileEdit>, places: seq<nat>)
    requires |places| == |edits|
    ensures Proper(EditChanges(edits, places))
  {
    if edits != [] {
      ChangesProper(o, edits[1..], places[1..]);
    }
  }

  lemma {:induction false} FoldValid(o: string, s: Script, edits: seq<FileEdit>, places: seq<nat>)
    requires Placed(o, edits, places) && PairwiseSeparate(EditChanges(edits, places))
    requires ValidIn(s, 0, |o|) && Separate(s, EditChanges(edits, places))
    ensures ValidIn(Fold(s, EditChanges(edits, places)), 0, |o|)
    decreases edits
  {
    if edits != [] {
      var cs, c := EditChanges(edits, places), EditChange(edits[0], places[0]);
      PlacedTail(o, edits, places);
      SeparateTail(s, cs);
      assert [c][1..] == [] && ValidIn([c], 0, |o|);
      MergeValid(s, [c], 0, |o|);
      FoldValid(o, Merge(s, [c]), edits[1..], places[1..]);
      hide *;
      FoldStep(s, cs);
    }
  }

  /** Proposing applies the edits as a script over the original. */
  lemma ProposalIsScript(o: string, edits: seq<FileEdit>, places: seq<nat>)
    requires Placed(o, edits, places) && PairwiseSeparate(EditChanges(edits, places)) && Intended(o, [], edits, places)
    ensures ValidIn(EditScript(EditChanges(edits, places)), 0, |o|)
    ensures ApplyEdits(o, edits) == Ok(Patch(o, EditScript(EditChanges(edits, places))))
  {
    NothingSeparate(EditChanges(edits, places));
    hide Separate, PairwiseSeparate, Intended, ApplyEdits, EditChanges, Placed, Fold;
    assert Patch(o, []) == o;
    ReplayIsFold(o, [], edits, places);
  }

  /** On a file that nobody has touched, approving a proposal made of edits writes that script's result. */
  lemma UnchangedIsScript(e: PendingEdit, places: seq<nat>, lines: Matcher<string>, chars: Matcher<char>)
    requires SoundLines(lines) && SoundChars(chars)
    requires ApplyEdits(e.original, e.edits) == Ok(e.newContent)
    requires Placed(e.original, e.edits, places) && PairwiseSeparate(EditChanges(e.edits, places))
    requires Intended(e.original, [], e.edits, places)
    ensures ValidIn(EditScript(EditChanges(e.edits, places)), 0, |e.original|)
    ensures e.newContent == Patch(e.original, EditScript(EditChanges(e.edits, places)))
    ensures Outcome(e, e.original, lines, chars) == Ok(Patch(e.original, EditScript(EditChanges(e.edits, places))))
  {
    hide SoundLines, SoundChars, ApplyEdits, PairwiseSeparate, Placed, Intended, EditChanges, PatchTo, Fold;
    ProposalIsScript(e.original, e.edits, places);
  }

  lemma NothingSeparate(s: Script)
    ensures Separate([], s)
  {
  }

  /**
   The rebase theorem.  When the find-blocks sit at places of their own that the file's changes leave
   whole, and each, when its turn comes, is counted once and found first at its own place, then approval
   writes the three-way merge of original, current content and replacements - or refuses because the
   diff of the proposal meets the diff of the file, and for no other reason.
   */
  lemma RebaseIsThreeWayMerge(
    e: PendingEdit, current: string, places: seq<nat>, lines: Matcher<string>, chars: Matcher<char>)
    requires SoundLines(lines) && SoundChars(chars)
    requires e.edits != [] && current != e.original && Clear(e, current, places, lines, chars)
    requires Intended(e.original, ChangedScript(e.original, current, lines, chars), e.edits, places)
    ensures var o, s := e.original, ChangedScript(e.original, current, lines, chars);
      var t := EditScript(EditChanges(e.edits, places));
      && ValidIn(s, 0, |o|) && ValidIn(t, 0, |o|) && Separate(s, t)
      && Outcome(e, current, lines, chars)
         == if Disjoint(s, ChangedScript(o, e.newContent, lines, chars)) then Ok(ThreeWay(o, s, t)) else Err(Overlapping)
  {
    var o, s := e.original, ChangedScript(e.original, current, lines, chars);
    ChangedScriptApplies(o, current, lines, chars);
    hide SoundLines, SoundChars, ChangedScript, Intended, ApplyEdits, Fold, EditChanges, Placed, PairwiseSeparate, Separate,
         Merge, Disjoint;
    ReplayIsFold(o, s, e.edits, places);
    EditScriptFacts(o, s, e.edits, places);
  }

  /** Find-blocks that occur once each, overlaps counted, meet its hypothesis. */
  lemma OnceEachIsEnough(
    e: PendingEdit, current: string, places: seq<nat>, lines: Matcher<string>, chars: Matcher<char>)
    requires SoundLines(lines) && SoundChars(chars) && Clear(e, current, places, lines, chars)
    requires OnceEach(e.original, ChangedScript(e.original, current, lines, chars), e.edits, places)
    ensures Intended(e.original, ChangedScript(e.original, current, lines, chars), e.edits, places)
  {
    ChangedScriptApplies(e.original, current, lines, chars);
    hide SoundLines, SoundChars, ChangedScript, Intended, OnceEach, EditChanges, Placed, PairwiseSeparate, Separate;
    OnceIsIntended(e.original, ChangedScript(e.original, current, lines, chars), e.edits, places);
  }

  /** And the merge is symmetric: the file's own changes, rebased onto the proposal, give the same text. */
  lemma RebaseEitherWay(
    e: PendingEdit, current: string, places: seq<nat>, lines: Matcher<string>, chars: Matcher<char>)
    requires SoundLines(lines) && SoundChars(chars)
    requires e.edits != [] && current != e.original && Clear(e, current, places, lines, chars)
    requires Intended(e.original, ChangedScript(e.original, current, lines, chars), e.edits, places)
    requires Intended(e.original, [], e.edits, places) && ApplyEdits(e.original, e.edits) == Ok(e.newContent)
    requires Outcome(e, current, lines, chars).Ok?
    ensures var o, s := e.original, ChangedScript(e.original, current, lines, chars);
      var t := EditScript(EditChanges(e.edits, places));
      && ValidIn(s, 0, |o|) && ValidIn(t, 0, |o|) && Separate(s, t) && Separate(t, s)
      && ValidIn(Rebase(t, s, 0, 0, |o|), 0, |e.newContent|)
      && Outcome(e, current, lines, chars) == Ok(Patch(e.newContent, Rebase(t, s, 0, 0, |o|)))
  {
    var o, s := e.original, ChangedScript(e.original, current, lines, chars);
    var t := EditScript(EditChanges(e.edits, places));
    RebaseIsThreeWayMerge(e, current, places, lines, chars);
    ProposalIsScript(o, e.edits, places);
    hide SoundLines, SoundChars, ChangedScript, Intended, ApplyEdits, Fold, EditChanges, Placed, PairwiseSeparate, Separate,
         Outcome, Rebase, ThreeWay, EditScript, Clear, Disjoint;
    EitherOrder(o, s, t);
  }

  /** The merge of a file's changes with one replacement of the find-block at `place`. */
  ghost function MergeOne(o: string, s: Script, find: string, place: nat, replace: string): string
    requires ValidIn(s, 0, |o|) && OccursAt(o, find, place) && Separate(s, [Change(place, place + |find|, "")])
  {
    var c := Change(place, place + |find|, replace);
    SameSpanSeparate(s, place, find, replace);
    assert [c][1..] == [] && ValidIn([c], 0, |o|);
    ThreeWay(o, s, [c])
  }

  lemma MergeOneIs(o: string, s: Script, find: string, place: nat, replace: string) returns (rest: string)
    requires ValidIn(s, 0, |o|) && OccursAt(o, find, place) && Separate(s, [Change(place, place + |find|, "")])
    ensures AheadFits(s, 0, place)
    ensures Patch(o, s) == Ahead(o, 0, s, place) + find + rest
    ensures MergeOne(o, s, find, place, replace) == Ahead(o, 0, s, place) + replace + rest
  {
    SameSpanSeparate(s, place, find, replace);
    rest := Locate(o, 0, |o|, s, Change(place, place + |find|, replace));
  }

  lemma SameRest(a: string, r: string, r': string)
    requires a + r == a + r'
    ensures r == r'
  {
    assert r == (a + r)[|a|..] && r' == (a + r')[|a|..];
  }

  /**
   For one edit clear of the file's changes, replaying it gives the three-way merge, whatever the
   replacement, exactly when the find-block is counted once in the current content and its leftmost
   match is the intended one.
   */
  lemma SingleEditExactly(o: string, s: Script, find: string, place: nat)
    requires ValidIn(s, 0, |o|) && OccursAt(o, find, place) && Separate(s, [Change(place, place + |find|, "")])
    ensures AheadFits(s, 0, place)
    ensures (forall replace :: ApplyExact(Patch(o, s), FileEdit(find, replace)) == Ok(MergeOne(o, s, find, place, replace)))
      <==> Count(Patch(o, s), find) == 1 && Find(Patch(o, s), find) == Some(|Ahead(o, 0, s, place)|)
  {
    hide Separate, Merge, ValidIn, AheadFits, Ahead, PatchTo, Count, Find, ApplyExact, MergeOne;
    var rest := MergeOneIs(o, s, find, place, "");
    var ahead := Ahead(o, 0, s, place);
    forall replace
      ensures MergeOne(o, s, find, place, replace) == ahead + replace + rest
    {
      var rest' := MergeOneIs(o, s, find, place, replace);
      SameRest(ahead + find, rest, rest');
    }
    AppliesAtIntendedPlace(ahead, find, rest);
  }

  lemma SameSpanSeparate(s: Script, place: nat, find: string, replace: string)
    requires Separate(s, [Change(place, place + |find|, "")])
    ensures Separate(s, [Change(place, place + |find|, replace)])
  {
    forall c, d | c in s && d in [Change(place, place + |find|, replace)]
      ensures Ordered(c, d)
    {
      var blank := Change(place, place + |find|, "");
      assert blank in [blank] && Ordered(c, blank);
    }
  }
}
