/**
 Replaying the patch: read the text, apply its file patches in any order to the base, and the
 final workspace comes back exactly, through trees in which no file is ever also a directory.
 */
module PatchReplay {
  import opened Wrappers
  import opened Text
  import opened Opcodes
  import opened UnifiedDiff
  import opened PatchReader
  import opened PatchRoundTrip
  import opened Snapshots
  import opened SortedPaths
  import opened ReviewPatch
  import opened PatchReading

  /** `tree` with `path` set as in `file`. */
  function Set(tree: Tree, path: string, file: Option<File>): Tree {
    match file
    case Some(f) => tree[path := f]
    case None => tree - {path}
  }

  predicate Clashes(tree: Tree, path: string) {
    exists q :: q in tree && Clash(path, q)
  }

  /** One file patch does to its path what the workspace change did, and touches nothing else. */
  lemma ApplyOne(tree: Tree, path: string, before: Option<File>, after: Option<File>, matcher: Matcher<string>)
    requires SoundMatcher(matcher) && before != after
    requires At(tree, path) == before
    requires before.None? ==> !Clashes(tree, path)
    ensures ApplyFile(tree, FilePatchFor(path, before, after, matcher)) == Some(Set(tree, path, after))
  {
    hide Patched, HunksFor, SoundMatcher, GoodHunks, Clash;
    HunksForFacts(before, after, matcher);
    var fp := FilePatchFor(path, before, after, matcher);
    if before.Some? && after.None? {
      assert fp.header == Deleted(before.value.mode);
    }
  }

  // ----- trees part of the way through -----

  /** The base with the paths in `done` already as in the final workspace. */
  function Mixed(initial: Tree, final: Tree, done: set<string>): Tree {
    map p | p in initial.Keys + final.Keys && (if p in done then p in final else p in initial)
      :: if p in done then final[p] else initial[p]
  }

  lemma MixedAt(initial: Tree, final: Tree, done: set<string>, path: string)
    ensures At(Mixed(initial, final, done), path) == if path in done then At(final, path) else At(initial, path)
  {
  }

  lemma SetMixed(initial: Tree, final: Tree, done: set<string>, path: string)
    ensures Set(Mixed(initial, final, done), path, At(final, path)) == Mixed(initial, final, done + {path})
  {
  }

  /** Without file/directory swaps, no tree part of the way through has a file that is a directory. */
  lemma MixedPrefixFree(initial: Tree, final: Tree, done: set<string>)
    requires PrefixFree(initial) && PrefixFree(final)
    requires !BecomesDirectory(initial, final) && !BecomesDirectory(final, initial)
    ensures PrefixFree(Mixed(initial, final, done))
  {
    hide StartsWith;
    var tree := Mixed(initial, final, done);
    forall p, q | p in tree && q in tree
      ensures !StartsWith(q, p + "/")
    {
      assert (p in initial && q in initial) || (p in final && q in final)
          || (p in initial && p !in final && q in final) || (p in final && p !in initial && q in initial);
    }
  }

  /** Some path is added under, or as a directory above, a path of the base or of the result. */
  ghost predicate AddsOver(initial: Tree, final: Tree) {
    exists p, q :: AddedOver(initial, final, p, q)
  }

  predicate AddedOver(initial: Tree, final: Tree, p: string, q: string) {
    p in final && p !in initial && (q in initial || q in final) && Clash(p, q)
  }

  /** Refusing swaps is enough to rule that out, and between prefix-free trees it is exactly as much. */
  lemma SwapsAddOver(initial: Tree, final: Tree)
    requires PrefixFree(final)
    ensures !BecomesDirectory(initial, final) && !BecomesDirectory(final, initial) ==> !AddsOver(initial, final)
    ensures PrefixFree(initial) && !AddsOver(initial, final) ==>
      !BecomesDirectory(initial, final) && !BecomesDirectory(final, initial)
  {
    hide StartsWith;
    if PrefixFree(initial) && !AddsOver(initial, final) {
      forall p, q | p in initial && p !in final && q in final
        ensures !StartsWith(q, p + "/")
      {
        assert !AddedOver(initial, final, q, p);
      }
      forall p, q | p in final && p !in initial && q in initial
        ensures !StartsWith(q, p + "/")
      {
        assert !AddedOver(initial, final, p, q);
      }
    }
  }

  lemma NoClash(initial: Tree, final: Tree, done: set<string>, path: string)
    requires !AddsOver(initial, final) && path in final && path !in initial
    ensures !Clashes(Mixed(initial, final, done), path)
  {
    hide Clash;
    forall q | q in Mixed(initial, final, done)
      ensures !Clash(path, q)
    {
      assert !AddedOver(initial, final, path, q);
    }
  }

  // ----- any order -----

  function PathsOf(patches: seq<FilePatch>): set<string> {
    set k | 0 <= k < |patches| :: patches[k].path
  }

  predicate AllDistinct(patches: seq<FilePatch>) {
    forall i, j :: 0 <= i < j < |patches| ==> patches[i] != patches[j]
  }

  /** The same file patches in some other order. */
  ghost predicate Rearranged(patches: seq<FilePatch>, original: seq<FilePatch>) {
    && AllDistinct(patches)
    && forall fp :: fp in patches <==> fp in original
  }

  ghost predicate IsPatchFor(fp: FilePatch, initial: Tree, final: Tree, matcher: Matcher<string>)
    requires SoundMatcher(matcher)
  {
    && Changed(initial, final, fp.path)
    && fp == FilePatchFor(fp.path, At(initial, fp.path), At(final, fp.path), matcher)
  }

  lemma {:induction false} FilePatchesAre(paths: seq<string>, initial: Tree, final: Tree, matcher: Matcher<string>)
    requires SoundMatcher(matcher)
    ensures forall fp :: fp in FilePatches(paths, initial, final, matcher) ==> IsPatchFor(fp, initial, final, matcher)
    ensures forall p :: p in paths && Changed(initial, final, p) ==>
      FilePatchFor(p, At(initial, p), At(final, p), matcher) in FilePatches(paths, initial, final, matcher)
  {
    hide SoundMatcher, At, HunksFor, HeaderOf;
    if paths != [] {
      FilePatchesAre(paths[1..], initial, final, matcher);
      assert forall p :: p in paths ==> p == paths[0] || p in paths[1..];
    }
  }

  lemma {:induction false} ReplayPrefix(
    patches: seq<FilePatch>, n: nat, initial: Tree, final: Tree, matcher: Matcher<string>)
    requires SoundMatcher(matcher) && !AddsOver(initial, final) && n <= |patches|
    requires forall fp :: fp in patches ==> IsPatchFor(fp, initial, final, matcher)
    requires AllDistinct(patches)
    ensures ApplyAll(initial, patches[..n]) == Some(Mixed(initial, final, PathsOf(patches[..n])))
  {
    hide *;
    if n == 0 {
      NothingApplied(initial, final);
      assert patches[..0] == [];
    } else {
      var front, fp := patches[..n - 1], patches[n - 1];
      ReplayPrefix(patches, n - 1, initial, final, matcher);
      assert fp in patches;
      NewPath(patches, n - 1, initial, final, matcher);
      ReplayStep(Mixed(initial, final, PathsOf(front)), PathsOf(front), fp, initial, final, matcher);
      assert patches[..n] == front + [fp];
      ApplyAllConcat(initial, front, [fp]);
      ApplyAllOne(Mixed(initial, final, PathsOf(front)), fp);
      PathsOfSnoc(front, fp);
    }
  }

  lemma NothingApplied(initial: Tree, final: Tree)
    ensures ApplyAll(initial, []) == Some(Mixed(initial, final, PathsOf([])))
  {
    assert PathsOf([]) == {};
    assert Mixed(initial, final, {}) == initial;
  }

  lemma PathsOfSnoc(front: seq<FilePatch>, fp: FilePatch)
    ensures PathsOf(front + [fp]) == PathsOf(front) + {fp.path}
  {
    var all := front + [fp];
    assert all[|front|] == fp;
    assert forall k :: 0 <= k < |front| ==> all[k] == front[k];
  }

  lemma ApplyAllOne(tree: Tree, fp: FilePatch)
    ensures ApplyAll(tree, [fp]) == ApplyFile(tree, fp)
  {
    assert [fp][1..] == [];
    hide ApplyFile;
    if ApplyFile(tree, fp).Some? {
      assert ApplyAll(ApplyFile(tree, fp).value, []) == Some(ApplyFile(tree, fp).value);
    }
  }

  lemma NewPath(patches: seq<FilePatch>, n: nat, initial: Tree, final: Tree, matcher: Matcher<string>)
    requires SoundMatcher(matcher) && n < |patches|
    requires forall fp :: fp in patches ==> IsPatchFor(fp, initial, final, matcher)
    requires AllDistinct(patches)
    ensures patches[n].path !in PathsOf(patches[..n])
  {
    hide SoundMatcher, FilePatchFor, Changed, At;
    forall k | 0 <= k < n
      ensures patches[k].path != patches[n].path
    {
      assert patches[k] in patches && patches[n] in patches;
    }
  }

  lemma ReplayStep(
    tree: Tree, done: set<string>, fp: FilePatch, initial: Tree, final: Tree, matcher: Matcher<string>)
    requires SoundMatcher(matcher) && !AddsOver(initial, final)
    requires tree == Mixed(initial, final, done) && fp.path !in done && IsPatchFor(fp, initial, final, matcher)
    ensures ApplyFile(tree, fp) == Some(Mixed(initial, final, done + {fp.path}))
  {
    var p := fp.path;
    MixedAt(initial, final, done, p);
    if p !in initial {
      NoClash(initial, final, done, p);
    }
    hide SoundMatcher, FilePatchFor, ApplyFile, Clashes, Mixed, AddsOver;
    ApplyOne(tree, p, At(initial, p), At(final, p), matcher);
    SetMixed(initial, final, done, p);
  }

  lemma MixedIsFinal(initial: Tree, final: Tree, done: set<string>)
    requires forall p :: Changed(initial, final, p) ==> p in done
    ensures Mixed(initial, final, done) == final
  {
    var tree := Mixed(initial, final, done);
    forall p
      ensures At(tree, p) == At(final, p)
    {
      MixedAt(initial, final, done, p);
    }
    assert forall p :: p in tree <==> At(tree, p).Some?;
    assert forall p :: p in final <==> At(final, p).Some?;
    hide Mixed;
    assert forall p :: p in tree ==> At(tree, p).value == tree[p];
  }

  /**
   The patch text, read and applied file by file in any order, rebuilds the final tree; and between
   prefix-free trees every tree on the way is prefix-free.
   */
  lemma ReplayInAnyOrder(
    paths: seq<string>, initial: Tree, final: Tree, matcher: Matcher<string>, patches: seq<FilePatch>)
    requires SoundMatcher(matcher) && IsOrder(paths, initial, final) && PlainTree(initial) && PlainTree(final)
    requires !AddsOver(initial, final)
    requires Read(PatchText(paths, initial, final, matcher)).Some?
    requires Rearranged(patches, Read(PatchText(paths, initial, final, matcher)).value)
    ensures ApplyAll(initial, patches) == Some(final)
    ensures forall n :: 0 <= n <= |patches| ==> ApplyAll(initial, patches[..n]).Some?
    ensures PrefixFree(initial) && PrefixFree(final) ==>
      forall n :: 0 <= n <= |patches| ==> PrefixFree(ApplyAll(initial, patches[..n]).value)
  {
    hide SoundMatcher, Read, PatchText, PlainTree, FilePatches, IsPatchFor, Changed, PrefixFree, BecomesDirectory,
         PlainName, AddsOver, Mixed;
    PlainUnion(paths, initial, final);
    ReadOfPatchText(paths, initial, final, matcher);
    FilePatchesAre(paths, initial, final, matcher);
    forall n | 0 <= n <= |patches|
      ensures var tree := ApplyAll(initial, patches[..n]);
        tree.Some? && (PrefixFree(initial) && PrefixFree(final) ==> PrefixFree(tree.value))
    {
      ReplayPrefix(patches, n, initial, final, matcher);
      if PrefixFree(initial) && PrefixFree(final) {
        SwapsAddOver(initial, final);
        MixedPrefixFree(initial, final, PathsOf(patches[..n]));
      }
    }
    ReplayPrefix(patches, |patches|, initial, final, matcher);
    assert patches[..|patches|] == patches;
    EveryChangeDone(paths, initial, final, matcher, patches);
    MixedIsFinal(initial, final, PathsOf(patches));
  }

  lemma PlainUnion(paths: seq<string>, initial: Tree, final: Tree)
    requires IsOrder(paths, initial, final) && PlainTree(initial) && PlainTree(final)
    ensures PlainPaths(paths)
  {
    hide PlainName;
  }

  lemma EveryChangeDone(
    paths: seq<string>, initial: Tree, final: Tree, matcher: Matcher<string>, patches: seq<FilePatch>)
    requires SoundMatcher(matcher) && IsOrder(paths, initial, final)
    requires Rearranged(patches, FilePatches(paths, initial, final, matcher))
    ensures forall p :: Changed(initial, final, p) ==> p in PathsOf(patches)
  {
    FilePatchesAre(paths, initial, final, matcher);
    hide SoundMatcher, FilePatches, HunksFor, HeaderOf;
    forall p | Changed(initial, final, p)
      ensures p in PathsOf(patches)
    {
      var fp := FilePatchFor(p, At(initial, p), At(final, p), matcher);
      assert p in paths;
      assert fp in patches && fp.path == p;
      var k :| 0 <= k < |patches| && patches[k] == fp;
    }
  }

  // ----- what the builder accepts -----

  lemma {:induction false} TreeOfPlain(files: seq<SnapshotFile>)
    requires forall k :: 0 <= k < |files| ==> ValidEntry(files[k])
    ensures PlainTree(TreeOf(files))
  {
    hide ValidEntry, PlainName;
    if files != [] {
      var n := |files| - 1;
      TreeOfPlain(files[..n]);
      PlainEntry(files[n]);
    }
  }

  lemma PlainEntry(f: SnapshotFile)
    requires ValidEntry(f)
    ensures PlainName(f.path) && PlainName(f.mode)
  {
    PartsGiveChars(f.path);
    hide ValidPath, ValidContent;
  }

  lemma WorkspacePrefixFree(files: seq<SnapshotFile>)
    requires NoDirectoryConflict(files)
    ensures PrefixFree(TreeOf(files))
  {
    hide StartsWith;
    var tree := TreeOf(files);
    forall p, q | p in tree && q in tree
      ensures !StartsWith(q, p + "/")
    {
      var i :| 0 <= i < |files| && files[i].path == p;
      var j :| 0 <= j < |files| && files[j].path == q;
    }
  }

  /**
   The review patch is the whole change: whenever the builder accepts, reading its text and
   applying the file patches to the base, in any order, gives exactly the final workspace.  If the
   base has no file that is also a directory, neither has any tree on the way.
   */
  lemma AcceptedPatchReplays(
    base: Snapshot, finalFiles: seq<SnapshotFile>, maxBytes: int, matcher: Matcher<string>, paths: seq<string>,
    patches: seq<FilePatch>)
    requires SoundMatcher(matcher)
    requires IsOrder(paths, TreeOf(base.files), TreeOf(finalFiles))
    requires Accepts(base, finalFiles, maxBytes, matcher, paths)
    ensures var patch := PatchText(paths, TreeOf(base.files), TreeOf(finalFiles), matcher);
      && Read(patch).Some?
      && (Rearranged(patches, Read(patch).value) ==>
            && ApplyAll(TreeOf(base.files), patches) == Some(TreeOf(finalFiles))
            && (forall n :: 0 <= n <= |patches| ==> ApplyAll(TreeOf(base.files), patches[..n]).Some?)
            && (PrefixFree(TreeOf(base.files)) ==>
                  forall n :: 0 <= n <= |patches| ==> PrefixFree(ApplyAll(TreeOf(base.files), patches[..n]).value)))
  {
    var initial, final := TreeOf(base.files), TreeOf(finalFiles);
    AcceptedFacts(base, finalFiles, maxBytes, matcher, paths);
    TreeOfPlain(base.files);
    TreeOfPlain(finalFiles);
    WorkspacePrefixFree(finalFiles);
    SwapsAddOver(initial, final);
    hide SoundMatcher, PatchText, TreeOf, Read, Accepts, ValidEntry, PlainTree, IsOrder, PrefixFree, Rearranged, ApplyAll,
         AddsOver, BecomesDirectory;
    PlainUnion(paths, initial, final);
    ReadOfPatchText(paths, initial, final, matcher);
    if Rearranged(patches, Read(PatchText(paths, initial, final, matcher)).value) {
      ReplayInAnyOrder(paths, initial, final, matcher, patches);
    }
  }

  lemma AcceptedFacts(
    base: Snapshot, finalFiles: seq<SnapshotFile>, maxBytes: int, matcher: Matcher<string>, paths: seq<string>)
    requires SoundMatcher(matcher) && Accepts(base, finalFiles, maxBytes, matcher, paths)
    ensures forall k :: 0 <= k < |base.files| ==> ValidEntry(base.files[k])
    ensures forall k :: 0 <= k < |finalFiles| ==> ValidEntry(finalFiles[k])
    ensures NoDirectoryConflict(finalFiles)
    ensures !BecomesDirectory(TreeOf(base.files), TreeOf(finalFiles))
    ensures !BecomesDirectory(TreeOf(finalFiles), TreeOf(base.files))
  {
    hide SoundMatcher, PatchText, TreeOf, ValidEntry, DistinctFolded, Total;
  }

  ghost predicate AppliesInEveryOrder(tree: Tree, patches: seq<FilePatch>) {
    forall arrangement :: Rearranged(arrangement, patches) ==> ApplyAll(tree, arrangement).Some?
  }

  /**
   What the refusal of swaps is for: the file patches of a change apply in every order exactly when no
   path is added over another.
   */
  lemma EveryOrderExactly(paths: seq<string>, initial: Tree, final: Tree, matcher: Matcher<string>)
    requires SoundMatcher(matcher) && IsOrder(paths, initial, final) && PlainTree(initial) && PlainTree(final)
    ensures Read(PatchText(paths, initial, final, matcher)).Some?
    ensures AppliesInEveryOrder(initial, Read(PatchText(paths, initial, final, matcher)).value)
      <==> !AddsOver(initial, final)
    ensures var patches := Read(PatchText(paths, initial, final, matcher)).value;
      var swapped := BecomesDirectory(initial, final) || BecomesDirectory(final, initial);
      PrefixFree(initial) && PrefixFree(final) ==> (AppliesInEveryOrder(initial, patches) <==> !swapped)
  {
    hide SoundMatcher, Read, PatchText, PlainTree, FilePatches, PrefixFree, BecomesDirectory, PlainName, IsOrder, Rearranged,
         ApplyAll, AddedOver;
    PlainUnion(paths, initial, final);
    ReadOfPatchText(paths, initial, final, matcher);
    var patches := FilePatches(paths, initial, final, matcher);
    if !AddsOver(initial, final) {
      forall arrangement | Rearranged(arrangement, patches)
        ensures ApplyAll(initial, arrangement).Some?
      {
        ReplayInAnyOrder(paths, initial, final, matcher, arrangement);
      }
    } else {
      var p, q :| AddedOver(initial, final, p, q);
      var arrangement := SomeOrderFails(paths, initial, final, matcher, p, q);
    }
    if PrefixFree(initial) && PrefixFree(final) {
      SwapsAddOver(initial, final);
    }
  }

  /** An arrangement that adds `p` while `q`, which clashes with it, is there. */
  lemma SomeOrderFails(paths: seq<string>, initial: Tree, final: Tree, matcher: Matcher<string>, p: string, q: string)
    returns (arrangement: seq<FilePatch>)
    requires SoundMatcher(matcher) && IsOrder(paths, initial, final) && AddedOver(initial, final, p, q)
    ensures Rearranged(arrangement, FilePatches(paths, initial, final, matcher))
    ensures ApplyAll(initial, arrangement).None?
  {
    hide SoundMatcher, FilePatches, HunksFor, Clash, ApplyFile, ApplyAll, Rearranged, StrictlySorted;
    var patches := FilePatches(paths, initial, final, matcher);
    FilePatchesAre(paths, initial, final, matcher);
    PatchesDistinct(paths, initial, final, matcher);
    var added := FilePatchFor(p, None, At(final, p), matcher);
    assert p in paths && added in patches;
    arrangement := Foremost(patches, added);
    if q in initial {
      AddFails(initial, p, q, final[p], matcher);
      FailsFirst(initial, arrangement);
    } else {
      var other := FilePatchFor(q, None, At(final, q), matcher);
      assert q in paths && other in patches;
      ClashDiffers(p, q);
      RearrangedMeans(arrangement, patches);
      var first := arrangement;
      arrangement := Foremost(first, other);
      RearrangedTwice(arrangement, first, patches);
      AddedStays(initial, q, final[q], matcher);
      if ApplyFile(initial, other).Some? {
        AddFails(ApplyFile(initial, other).value, p, q, final[p], matcher);
      }
      FailsSecond(initial, arrangement);
    }
  }

  lemma ClashDiffers(p: string, q: string)
    requires Clash(p, q)
    ensures p != q
  {
  }

  lemma {:induction false} PatchesDistinct(paths: seq<string>, initial: Tree, final: Tree, matcher: Matcher<string>)
    requires SoundMatcher(matcher) && StrictlySorted(paths)
    ensures AllDistinct(FilePatches(paths, initial, final, matcher))
    ensures forall fp :: fp in FilePatches(paths, initial, final, matcher) ==> fp.path in paths
  {
    hide SoundMatcher, At, HunksFor, HeaderOf, Changed, AllDistinct;
    if paths == [] {
      NoneDistinct();
    } else {
      PatchesDistinct(paths[1..], initial, final, matcher);
      HeadIsNew(paths);
      var fp := FilePatchFor(paths[0], At(initial, paths[0]), At(final, paths[0]), matcher);
      var rest := FilePatches(paths[1..], initial, final, matcher);
      assert [] + rest == rest && fp.path == paths[0];
      OneMoreDistinct(fp, rest);
    }
  }

  lemma NoneDistinct()
    ensures AllDistinct([])
  {
  }

  lemma HeadIsNew(paths: seq<string>)
    requires StrictlySorted(paths) && paths != []
    ensures paths[0] !in paths[1..] && StrictlySorted(paths[1..])
  {
    forall k | 0 <= k < |paths[1..]|
      ensures paths[1..][k] != paths[0]
    {
      LessTotal(paths[0], paths[k + 1]);
    }
  }

  lemma OneMoreDistinct(fp: FilePatch, rest: seq<FilePatch>)
    requires AllDistinct(rest) && fp !in rest
    ensures AllDistinct([fp] + rest)
  {
  }

  /** `x` moved to the front of an arrangement. */
  lemma Foremost(patches: seq<FilePatch>, x: FilePatch) returns (a: seq<FilePatch>)
    requires x in patches && AllDistinct(patches)
    ensures Rearranged(a, patches) && a != [] && a[0] == x
    ensures patches[0] != x ==> |a| > 1 && a[1] == patches[0]
  {
    hide AllDistinct;
    var k :| 0 <= k < |patches| && patches[k] == x;
    var rest := patches[..k] + patches[k + 1..];
    WithoutOne(patches, k);
    OneMoreDistinct(x, rest);
    a := [x] + rest;
  }

  lemma WithoutOne(patches: seq<FilePatch>, k: nat)
    requires k < |patches| && AllDistinct(patches)
    ensures var rest := patches[..k] + patches[k + 1..];
      && AllDistinct(rest) && patches[k] !in rest
      && (forall fp :: fp in patches <==> fp in [patches[k]] + rest)
  {
    assert patches == patches[..k] + [patches[k]] + patches[k + 1..];
  }

  lemma RearrangedMeans(a: seq<FilePatch>, b: seq<FilePatch>)
    requires Rearranged(a, b)
    ensures AllDistinct(a)
    ensures forall fp :: fp in a <==> fp in b
  {
  }

  lemma RearrangedTwice(a: seq<FilePatch>, b: seq<FilePatch>, c: seq<FilePatch>)
    requires Rearranged(a, b) && Rearranged(b, c)
    ensures Rearranged(a, c)
  {
  }

  lemma AddFails(tree: Tree, p: string, q: string, file: File, matcher: Matcher<string>)
    requires SoundMatcher(matcher) && q in tree && Clash(p, q)
    ensures ApplyFile(tree, FilePatchFor(p, None, Some(file), matcher)).None?
  {
    hide HunksFor, SoundMatcher, Clash;
  }

  lemma AddedStays(tree: Tree, q: string, file: File, matcher: Matcher<string>)
    requires SoundMatcher(matcher)
    ensures var r := ApplyFile(tree, FilePatchFor(q, None, Some(file), matcher)); r.Some? ==> q in r.value
  {
    hide HunksFor, SoundMatcher, Clash, Patched;
  }

  lemma FailsFirst(tree: Tree, a: seq<FilePatch>)
    requires a != [] && ApplyFile(tree, a[0]).None?
    ensures ApplyAll(tree, a).None?
  {
    hide ApplyFile;
  }

  lemma FailsSecond(tree: Tree, a: seq<FilePatch>)
    requires |a| > 1
    requires ApplyFile(tree, a[0]).Some? ==> ApplyFile(ApplyFile(tree, a[0]).value, a[1]).None?
    ensures ApplyAll(tree, a).None?
  {
    hide ApplyFile;
    if ApplyFile(tree, a[0]).Some? {
      FailsFirst(ApplyFile(tree, a[0]).value, a[1..]);
    }
  }

  /** A patch is empty exactly when nothing changed. */
  lemma EmptyPatchMeansNoChange(paths: seq<string>, initial: Tree, final: Tree, matcher: Matcher<string>)
    requires SoundMatcher(matcher) && IsOrder(paths, initial, final)
    requires PlainTree(initial) && PlainTree(final)
    ensures PatchText(paths, initial, final, matcher) == "" <==> initial == final
  {
    PlainUnion(paths, initial, final);
    FilePatchesAre(paths, initial, final, matcher);
    if PatchText(paths, initial, final, matcher) == "" {
      ReadOfPatchText(paths, initial, final, matcher);
      assert Read("") == Some([]);
      hide SoundMatcher, PatchText, PlainTree, FilePatchFor, PlainPaths, Read;
      forall p
        ensures At(initial, p) == At(final, p)
      {
        assert p in paths ==> !Changed(initial, final, p);
      }
      assert Mixed(initial, final, {}) == initial;
      MixedIsFinal(initial, final, {});
    }
    if initial == final {
      NoChangeNoText(paths, initial, matcher);
    }
  }

  lemma {:induction false} NoChangeNoText(paths: seq<string>, tree: Tree, matcher: Matcher<string>)
    requires SoundMatcher(matcher)
    ensures PatchText(paths, tree, tree, matcher) == ""
  {
    if paths != [] {
      NoChangeNoText(paths[..|paths| - 1], tree, matcher);
    }
  }
}
