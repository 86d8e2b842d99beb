/**
 The review patch: one Git-style unified diff from an approved base snapshot to a complete final
 workspace, refused rather than cut short when it cannot be represented.
 */
module ReviewPatch {
  import opened Wrappers
  import opened Text
  import opened Opcodes
  import opened UnifiedDiff
  import opened PatchReader
  import opened PatchRoundTrip
  import opened Snapshots
  import opened SortedPaths
  import SnapshotCodec

  const MAX_PATCH_BYTES: nat := 4 * 1024 * 1024

  datatype PatchError =
    | BadLimit | BadSnapshot | BadWorkspace | FileToDirectory | DirectoryToFile | EmptyFile | LoneCr | PatchTooLarge

  datatype ChangeKind = AddedFile | DeletedFile | ModifiedFile | ModeOnly

  datatype ChangedFile = ChangedFile(
    path: string, change: ChangeKind,
    beforeSha256: Option<string>, afterSha256: Option<string>,
    beforeMode: Option<string>, afterMode: Option<string>)

  datatype ReviewPatch = ReviewPatch(
    baseSnapshotSha256: string, patch: string, patchSha256: string, changes: seq<ChangedFile>)

  // ----- file trees -----

  function TreeOf(files: seq<SnapshotFile>): (tree: Tree)
    ensures forall p :: p in tree ==> exists k :: 0 <= k < |files| && files[k].path == p
    ensures forall k :: 0 <= k < |files| ==> files[k].path in tree
  {
    if files == [] then map[]
    else
      var n := |files| - 1;
      TreeOf(files[..n])[files[n].path := File(files[n].mode, files[n].content)]
  }

  function At(tree: Tree, path: string): Option<File> {
    if path in tree then Some(tree[path]) else None
  }

  predicate Changed(initial: Tree, final: Tree, path: string) {
    At(initial, path) != At(final, path)
  }

  /** A file of `one` that is gone from `other`, where it has become a directory. */
  predicate BecomesDirectory(one: Tree, other: Tree) {
    exists p, q :: p in one && p !in other && q in other && StartsWith(q, p + "/")
  }

  lemma {:induction false} TreeHolds(files: seq<SnapshotFile>, k: nat)
    requires k < |files| && forall i, j :: 0 <= i < j < |files| ==> files[i].path != files[j].path
    ensures files[k].path in TreeOf(files) && TreeOf(files)[files[k].path] == File(files[k].mode, files[k].content)
  {
    var n := |files| - 1;
    if k < n {
      TreeHolds(files[..n], k);
    }
  }

  function Paths(files: seq<SnapshotFile>): (paths: seq<string>)
    ensures |paths| == |files|
  {
    seq(|files|, k requires 0 <= k < |files| => files[k].path)
  }

  lemma FilesSorted(files: seq<SnapshotFile>)
    requires DistinctFolded(files) && SortedByPath(files)
    ensures StrictlySorted(Paths(files)) && forall p :: p in Paths(files) <==> p in TreeOf(files)
    ensures forall i, j :: 0 <= i < j < |files| ==> files[i].path != files[j].path
  {
    hide ValidEntry, Less, ToLower, TreeOf;
    forall i, j | 0 <= i < j < |files|
      ensures files[i].path != files[j].path && Less(files[i].path, files[j].path)
    {
      assert ToLower(files[i].path) != ToLower(files[j].path) && !Less(files[j].path, files[i].path);
      LessTotal(files[i].path, files[j].path);
    }
    forall p
      ensures p in Paths(files) <==> p in TreeOf(files)
    {
      if p in TreeOf(files) {
        var k :| 0 <= k < |files| && files[k].path == p;
        assert Paths(files)[k] == p;
      }
    }
  }

  /** A valid workspace is its tree: the files and their order are determined by it. */
  lemma WorkspaceIsTree(a: seq<SnapshotFile>, b: seq<SnapshotFile>)
    requires ValidWorkspace(a) && ValidWorkspace(b) && TreeOf(a) == TreeOf(b)
    ensures a == b
  {
    hide ValidEntry, DistinctFolded, SortedByPath, NoDirectoryConflict, TreeOf;
    SortedIsTree(a, b);
  }

  /** And so are the files of a snapshot that can be encoded. */
  lemma SnapshotIsTree(a: Snapshot, b: Snapshot)
    requires ValidSnapshot(a) && ValidSnapshot(b) && TreeOf(a.files) == TreeOf(b.files)
    ensures a.files == b.files
  {
    hide ValidEntry, DistinctFolded, SortedByPath, TreeOf;
    SortedIsTree(a.files, b.files);
  }

  lemma SortedIsTree(a: seq<SnapshotFile>, b: seq<SnapshotFile>)
    requires DistinctFolded(a) && SortedByPath(a) && DistinctFolded(b) && SortedByPath(b) && TreeOf(a) == TreeOf(b)
    ensures a == b
  {
    FilesSorted(a);
    FilesSorted(b);
    SortedUnique(Paths(a), Paths(b));
    hide DistinctFolded, SortedByPath, TreeOf, StrictlySorted;
    forall k | 0 <= k < |a|
      ensures a[k] == b[k]
    {
      assert Paths(a)[k] == Paths(b)[k];
      TreeHolds(a, k);
      TreeHolds(b, k);
    }
  }

  // ----- the text of one changed file -----

  /** What is left after taking out every CR LF pair. */
  function DropCrLf(s: string): string {
    if |s| < 2 then s
    else if s[..2] == "\r\n" then DropCrLf(s[2..])
    else [s[0]] + DropCrLf(s[1..])
  }

  predicate HasLoneCr(s: string) {
    '\r' in DropCrLf(s)
  }

  function ContentOf(file: Option<File>): string {
    if file.Some? then file.value.content else ""
  }

  predicate SameContent(before: Option<File>, after: Option<File>) {
    before.Some? && after.Some? && before.value.content == after.value.content
  }

  predicate EmptyEnd(before: Option<File>, after: Option<File>) {
    (before.None? && after.Some? && after.value.content == "")
    || (after.None? && before.Some? && before.value.content == "")
  }

  /** What keeps one file's change from being printed. */
  function Refusal(before: Option<File>, after: Option<File>): Option<PatchError> {
    if before == after then None
    else if EmptyEnd(before, after) then Some(EmptyFile)
    else if SameContent(before, after) then None
    else if HasLoneCr(ContentOf(before)) || HasLoneCr(ContentOf(after)) then Some(LoneCr)
    else None
  }

  /** A carriage return with no line feed behind it. */
  predicate LoneCrAt(s: string, k: nat) {
    k < |s| && s[k] == '\r' && !(k + 1 < |s| && s[k + 1] == '\n')
  }

  lemma {:induction false} LoneCrExactly(s: string)
    ensures HasLoneCr(s) <==> exists k :: LoneCrAt(s, k)
    decreases |s|
  {
    if |s| < 2 {
      assert s != "" ==> (LoneCrAt(s, 0) <==> s[0] == '\r');
    } else {
      assert s[..2] == "\r\n" <==> s[0] == '\r' && s[1] == '\n';
      var n := if s[..2] == "\r\n" then 2 else 1;
      LoneCrExactly(s[n..]);
      LoneCrBehind(s, n);
      DropOne(s, n);
    }
  }

  lemma LoneCrBehind(s: string, n: nat)
    requires n <= |s| && (n == 1 || (n == 2 && s[..2] == "\r\n"))
    ensures (exists k :: LoneCrAt(s, k)) <==> (exists k :: LoneCrAt(s[n..], k)) || (n == 1 && LoneCrAt(s, 0))
  {
    assert n == 2 ==> s[0] == s[..2][0] == '\r' && s[1] == s[..2][1] == '\n';
    if k: nat :| LoneCrAt(s, k) {
      if k >= n {
        assert LoneCrAt(s[n..], k - n);
      }
    }
    if k: nat :| LoneCrAt(s[n..], k) {
      assert LoneCrAt(s, k + n);
    }
  }

  lemma DropOne(s: string, n: nat)
    requires |s| >= 2 && n == if s[..2] == "\r\n" then 2 else 1
    ensures HasLoneCr(s) <==> HasLoneCr(s[n..]) || (n == 1 && LoneCrAt(s, 0))
  {
    assert s[..2] == "\r\n" <==> s[0] == '\r' && s[1] == '\n';
  }

  /** A change is refused exactly when it makes or removes an empty file, or alters one with a lone carriage return. */
  lemma RefusalExactly(before: Option<File>, after: Option<File>)
    ensures Refusal(before, after) == Some(EmptyFile) <==>
      || (before.None? && after.Some? && after.value.content == "") || (before.Some? && after.None? && before.value.content == "")
    ensures Refusal(before, after) == Some(LoneCr) <==>
      && Refusal(before, after) != Some(EmptyFile)
      && !(before.Some? && after.Some? && before.value.content == after.value.content)
      && exists k :: (before.Some? && LoneCrAt(before.value.content, k)) || (after.Some? && LoneCrAt(after.value.content, k))
    ensures Refusal(before, after) in {None, Some(EmptyFile), Some(LoneCr)}
  {
    LoneCrExactly(ContentOf(before));
    LoneCrExactly(ContentOf(after));
    assert !LoneCrAt("", 0);
    hide HasLoneCr;
  }

  function HeaderOf(before: Option<File>, after: Option<File>): Header {
    match (before, after)
    case (None, Some(a)) => Added(a.mode)
    case (Some(b), None) => Deleted(b.mode)
    case (Some(b), Some(a)) => if b.mode != a.mode then ModeChanged(b.mode, a.mode) else Same
    case (None, None) => Same
  }

  function ModeText(header: Header): string {
    match header
    case Same => ""
    case Added(mode) => "new file mode " + mode + "\n"
    case Deleted(mode) => "deleted file mode " + mode + "\n"
    case ModeChanged(before, after) => "old mode " + before + "\n" + "new mode " + after + "\n"
  }

  function PathText(path: string): string {
    "diff --git a/" + path + " b/" + path + "\n"
  }

  /** The lines `difflib.unified_diff` yields, given its opcode list. */
  function UnifiedLines(a: seq<string>, b: seq<string>, fromName: string, toName: string, codes: seq<Opcode>): seq<string>
    requires Valid(codes, a, b)
  {
    var hunks := FileHunks(codes, a, b);
    if hunks == [] then []
    else ["--- " + fromName + "\n", "+++ " + toName + "\n"] + HunksLines(hunks)
  }

  /** The text written for one diff line: a missing LF is supplied, then marked. */
  function Piece(diffLine: string): string {
    if EndsWithLf(diffLine) then diffLine else diffLine + "\n" + "\\ No newline at end of file\n"
  }

  function Pieces(diffLines: seq<string>): string {
    if diffLines == [] then "" else Pieces(diffLines[..|diffLines| - 1]) + Piece(diffLines[|diffLines| - 1])
  }

  function FromName(path: string, before: Option<File>): string {
    if before.Some? then "a/" + path else "/dev/null"
  }

  function ToName(path: string, after: Option<File>): string {
    if after.Some? then "b/" + path else "/dev/null"
  }

  function DiffLinesOf(path: string, before: Option<File>, after: Option<File>, matcher: Matcher<string>): seq<string>
    requires Valid(matcher(SplitLf(ContentOf(before)), SplitLf(ContentOf(after))),
                   SplitLf(ContentOf(before)), SplitLf(ContentOf(after)))
  {
    if SameContent(before, after) then []
    else
      var a, b := SplitLf(ContentOf(before)), SplitLf(ContentOf(after));
      UnifiedLines(a, b, FromName(path, before), ToName(path, after), matcher(a, b))
  }

  ghost predicate SoundMatcher(matcher: Matcher<string>) {
    forall a, b :: Valid(matcher(a, b), a, b)
  }

  ghost function EntryText(path: string, before: Option<File>, after: Option<File>, matcher: Matcher<string>): string
    requires SoundMatcher(matcher)
  {
    if before == after then ""
    else PathText(path) + ModeText(HeaderOf(before, after)) + Pieces(DiffLinesOf(path, before, after, matcher))
  }

  ghost function PatchText(paths: seq<string>, initial: Tree, final: Tree, matcher: Matcher<string>): string
    requires SoundMatcher(matcher)
  {
    if paths == [] then ""
    else
      var n := |paths| - 1;
      PatchText(paths[..n], initial, final, matcher)
      + EntryText(paths[n], At(initial, paths[n]), At(final, paths[n]), matcher)
  }

  function InventoryEntry(path: string, before: Option<File>, after: Option<File>, sha: SnapshotCodec.Digest): ChangedFile {
    ChangedFile(
      path,
      if before.None? then AddedFile else if after.None? then DeletedFile
      else if before.value.content == after.value.content then ModeOnly else ModifiedFile,
      if before.Some? then Some(sha(before.value.content)) else None,
      if after.Some? then Some(sha(after.value.content)) else None,
      if before.Some? then Some(before.value.mode) else None,
      if after.Some? then Some(after.value.mode) else None)
  }

  function Inventory(paths: seq<string>, initial: Tree, final: Tree, sha: SnapshotCodec.Digest): seq<ChangedFile> {
    if paths == [] then []
    else
      var n := |paths| - 1;
      Inventory(paths[..n], initial, final, sha)
      + if Changed(initial, final, paths[n])
        then [InventoryEntry(paths[n], At(initial, paths[n]), At(final, paths[n]), sha)] else []
  }

  /** What an inventory entry says of its path, side by side with the trees. */
  predicate Describes(c: ChangedFile, initial: Tree, final: Tree, sha: SnapshotCodec.Digest) {
    var p := c.path;
    && (c.change.AddedFile? <==> p !in initial)
    && (c.change.DeletedFile? <==> p in initial && p !in final)
    && (c.change.ModeOnly? <==> p in initial && p in final && initial[p].content == final[p].content)
    && (p in initial ==> c.beforeSha256 == Some(sha(initial[p].content)) && c.beforeMode == Some(initial[p].mode))
    && (p in final ==> c.afterSha256 == Some(sha(final[p].content)) && c.afterMode == Some(final[p].mode))
    && (p !in initial ==> c.beforeSha256.None? && c.beforeMode.None?)
    && (p !in final ==> c.afterSha256.None? && c.afterMode.None?)
  }

  predicate Differs(initial: Tree, final: Tree, p: string) {
    (p in initial <==> p !in final) || (p in initial && p in final && initial[p] != final[p])
  }

  /** The inventory lists each changed path once, in order, and no other, with its kind, digests and modes on both sides. */
  predicate IsInventory(entries: seq<ChangedFile>, paths: seq<string>, initial: Tree, final: Tree, sha: SnapshotCodec.Digest) {
    && (forall k :: 0 <= k < |entries| ==>
          && entries[k].path in paths && Differs(initial, final, entries[k].path) && Describes(entries[k], initial, final, sha))
    && (forall p :: p in paths && Differs(initial, final, p) ==> exists k :: 0 <= k < |entries| && entries[k].path == p)
    && (forall i, j :: 0 <= i < j < |entries| ==> Less(entries[i].path, entries[j].path))
  }

  lemma {:induction false} InventoryExactly(paths: seq<string>, initial: Tree, final: Tree, sha: SnapshotCodec.Digest)
    requires StrictlySorted(paths)
    ensures IsInventory(Inventory(paths, initial, final, sha), paths, initial, final, sha)
  {
    if paths != [] {
      var n := |paths| - 1;
      InventoryExactly(paths[..n], initial, final, sha);
      InventoryNext(Inventory(paths[..n], initial, final, sha), paths, initial, final, sha);
    }
  }

  lemma InventoryNext(
    entries: seq<ChangedFile>, paths: seq<string>, initial: Tree, final: Tree, sha: SnapshotCodec.Digest)
    requires StrictlySorted(paths) && paths != []
    requires IsInventory(entries, paths[..|paths| - 1], initial, final, sha)
    ensures var p := paths[|paths| - 1];
      IsInventory(
        entries + if Changed(initial, final, p) then [InventoryEntry(p, At(initial, p), At(final, p), sha)] else [],
        paths, initial, final, sha)
  {
    hide Less;
    var p, front := paths[|paths| - 1], paths[..|paths| - 1];
    var one := InventoryEntry(p, At(initial, p), At(final, p), sha);
    assert Changed(initial, final, p) ==> Differs(initial, final, p) && Describes(one, initial, final, sha);
    var more := entries + if Changed(initial, final, p) then [one] else [];
    hide Describes;
    forall q | q in paths && Differs(initial, final, q)
      ensures exists k :: 0 <= k < |more| && more[k].path == q
    {
      if q == p {
        assert more[|entries|].path == q;
      } else {
        assert q in front;
        var k :| 0 <= k < |entries| && entries[k].path == q;
        assert more[k].path == q;
      }
    }
  }

  // ----- building -----

  ghost predicate IsOrder(paths: seq<string>, initial: Tree, final: Tree) {
    StrictlySorted(paths) && forall p :: p in paths <==> p in initial || p in final
  }

  /** Exactly what the builder accepts; `paths` is the sorted union of both sides. */
  ghost predicate Accepts(
    base: Snapshot, finalFiles: seq<SnapshotFile>, maxBytes: int, matcher: Matcher<string>, paths: seq<string>)
    requires SoundMatcher(matcher)
  {
    var initial, final := TreeOf(base.files), TreeOf(finalFiles);
    && 1 <= maxBytes <= MAX_PATCH_BYTES
    && ValidSnapshot(base)
    && ValidWorkspace(finalFiles)
    && !BecomesDirectory(initial, final)
    && !BecomesDirectory(final, initial)
    && AllRepresentable(paths, initial, final)
    && |PatchText(paths, initial, final, matcher)| <= maxBytes
  }

  ghost function PatchOf(
    base: Snapshot, finalFiles: seq<SnapshotFile>, paths: seq<string>, matcher: Matcher<string>, sha: SnapshotCodec.Digest)
    : ReviewPatch
    requires SoundMatcher(matcher)
  {
    var initial, final := TreeOf(base.files), TreeOf(finalFiles);
    var patch := PatchText(paths, initial, final, matcher);
    ReviewPatch(sha(SnapshotCodec.SnapshotText(base, sha)), patch, sha(patch), Inventory(paths, initial, final, sha))
  }

  /** Append within the byte limit, or report that the patch is too large. */
  function Append(output: string, text: string, maxBytes: int): Option<string> {
    if |output| + |text| > maxBytes then None else Some(output + text)
  }

  /** Write one changed file's diff lines. */
  method AppendDiff(output: string, diffLines: seq<string>, maxBytes: int) returns (r: Option<string>)
    requires |output| <= maxBytes
    ensures r == Append(output, Pieces(diffLines), maxBytes)
  {
    hide Piece;
    var out := output;
    for n := 0 to |diffLines|
      invariant out == output + Pieces(diffLines[..n]) && |out| <= maxBytes
    {
      assert diffLines[..n + 1][..n] == diffLines[..n];
      var next := Append(out, Piece(diffLines[n]), maxBytes);
      if next.None? {
        PiecesGrow(diffLines, n + 1);
        return None;
      }
      out := next.value;
      assert output + Pieces(diffLines[..n]) + Piece(diffLines[n]) == output + Pieces(diffLines[..n + 1]);
    }
    assert diffLines[..|diffLines|] == diffLines;
    return Some(out);
  }

  lemma {:induction false} PiecesGrow(diffLines: seq<string>, n: nat)
    requires n <= |diffLines|
    ensures |Pieces(diffLines[..n])| <= |Pieces(diffLines)|
  {
    if n < |diffLines| {
      var front := diffLines[..|diffLines| - 1];
      PiecesGrow(front, n);
      assert front[..n] == diffLines[..n];
    } else {
      assert diffLines[..n] == diffLines;
    }
  }

  lemma {:induction false} PatchGrows(paths: seq<string>, n: nat, initial: Tree, final: Tree, matcher: Matcher<string>)
    requires SoundMatcher(matcher) && n <= |paths|
    ensures |PatchText(paths[..n], initial, final, matcher)| <= |PatchText(paths, initial, final, matcher)|
  {
    if n < |paths| {
      hide SoundMatcher, EntryText;
      var front := paths[..|paths| - 1];
      PatchGrows(front, n, initial, final, matcher);
      assert front[..n] == paths[..n];
    } else {
      assert paths[..n] == paths;
    }
  }

  lemma MatcherValid(matcher: Matcher<string>, a: seq<string>, b: seq<string>)
    requires SoundMatcher(matcher)
    ensures Valid(matcher(a, b), a, b)
  {
  }

  lemma EntryTextOf(path: string, before: Option<File>, after: Option<File>, matcher: Matcher<string>)
    requires SoundMatcher(matcher) && before != after
    ensures var a, b := SplitLf(ContentOf(before)), SplitLf(ContentOf(after));
      Valid(matcher(a, b), a, b)
    ensures
      var head := PathText(path) + ModeText(HeaderOf(before, after));
      EntryText(path, before, after, matcher)
        == if SameContent(before, after) then head else head + Pieces(DiffLinesOf(path, before, after, matcher))
  {
    hide PathText, ModeText, HeaderOf;
  }

  lemma Regroup(output: string, first: string, second: string, third: string)
    ensures output + first + second == output + (first + second)
    ensures output + first + second + third == output + (first + second + third)
  {
  }

  /** Write one file's entry: the `diff --git` line, mode lines and hunks. */
  method AppendEntry(
    output: string, path: string, before: Option<File>, after: Option<File>, maxBytes: int, matcher: Matcher<string>)
    returns (r: Result<string, PatchError>)
    requires SoundMatcher(matcher) && |output| <= maxBytes && before != after
    ensures Refusal(before, after).Some? ==> r.Err?
    ensures Refusal(before, after).None? ==>
      var text := EntryText(path, before, after, matcher);
      r == if |output| + |text| > maxBytes then Err(PatchTooLarge) else Ok(output + text)
  {
    hide EmptyEnd, HasLoneCr, PathText, ModeText, HeaderOf, DiffLinesOf, Pieces, SoundMatcher, ContentOf;
    EntryTextOf(path, before, after, matcher);
    if EmptyEnd(before, after) {
      return Err(EmptyFile);
    }
    var header := HeaderOf(before, after);
    var first := Append(output, PathText(path), maxBytes);
    if first.None? {
      return Err(PatchTooLarge);
    }
    var second := Append(first.value, ModeText(header), maxBytes);
    if second.None? {
      return Err(PatchTooLarge);
    }
    if SameContent(before, after) {
      Regroup(output, PathText(path), ModeText(header), "");
      return Ok(second.value);
    }
    if HasLoneCr(ContentOf(before)) || HasLoneCr(ContentOf(after)) {
      return Err(LoneCr);
    }
    MatcherValid(matcher, SplitLf(ContentOf(before)), SplitLf(ContentOf(after)));
    var lines := DiffLinesOf(path, before, after, matcher);
    var third := AppendDiff(second.value, lines, maxBytes);
    if third.None? {
      return Err(PatchTooLarge);
    }
    Regroup(output, PathText(path), ModeText(header), Pieces(lines));
    return Ok(third.value);
  }

  ghost predicate AllRepresentable(paths: seq<string>, initial: Tree, final: Tree) {
    forall p :: p in paths ==> Refusal(At(initial, p), At(final, p)) == None
  }

  /** The loop over the sorted paths: patch text and inventory grow together. */
  method WriteEntries(
    paths: seq<string>, initial: Tree, final: Tree, maxBytes: int, matcher: Matcher<string>, sha: SnapshotCodec.Digest)
    returns (r: Result<(string, seq<ChangedFile>), PatchError>)
    requires SoundMatcher(matcher) && maxBytes >= 1
    ensures var patch := PatchText(paths, initial, final, matcher);
      if AllRepresentable(paths, initial, final) && |patch| <= maxBytes
      then r == Ok((patch, Inventory(paths, initial, final, sha)))
      else r.Err?
  {
    hide SoundMatcher, EntryText, Refusal, InventoryEntry;
    var output := "";
    var changes: seq<ChangedFile> := [];
    for n := 0 to |paths|
      invariant |output| <= maxBytes
      invariant output == PatchText(paths[..n], initial, final, matcher)
      invariant changes == Inventory(paths[..n], initial, final, sha)
      invariant AllRepresentable(paths[..n], initial, final)
    {
      var path := paths[n];
      var before, after := At(initial, path), At(final, path);
      assert paths[..n + 1][..n] == paths[..n];
      assert path in paths;
      PatchGrows(paths, n + 1, initial, final, matcher);
      if before == after {
        UnchangedEntry(path, before, matcher);
        continue;
      }
      changes := changes + [InventoryEntry(path, before, after, sha)];
      var next := AppendEntry(output, path, before, after, maxBytes, matcher);
      if next.Err? {
        return Err(next.error);
      }
      output := next.value;
    }
    assert paths[..|paths|] == paths;
    return Ok((output, changes));
  }

  method BuildReviewPatch(
    base: Snapshot, finalFiles: seq<SnapshotFile>, maxBytes: int, matcher: Matcher<string>, sha: SnapshotCodec.Digest)
    returns (r: Result<ReviewPatch, PatchError>)
    requires SoundMatcher(matcher) && SnapshotCodec.IsDigestFunction(sha)
    ensures forall paths :: IsOrder(paths, TreeOf(base.files), TreeOf(finalFiles)) ==>
      if Accepts(base, finalFiles, maxBytes, matcher, paths)
      then r == Ok(PatchOf(base, finalFiles, paths, matcher, sha))
      else r.Err?
  {
    hide SoundMatcher, ValidSnapshot, ValidWorkspace, PatchText, Inventory, BecomesDirectory, SnapshotCodec.SnapshotText,
         AllRepresentable;
    if !(1 <= maxBytes <= MAX_PATCH_BYTES) {
      return Err(BadLimit);
    }
    SnapshotCodec.SizeCheckNeverFires(base, sha);
    var encoded := SnapshotCodec.Encode(base, sha);
    if encoded.Err? {
      return Err(BadSnapshot);
    }
    if !ValidWorkspace(finalFiles) {
      return Err(BadWorkspace);
    }
    var initial, final := TreeOf(base.files), TreeOf(finalFiles);
    if BecomesDirectory(initial, final) {
      return Err(FileToDirectory);
    }
    if BecomesDirectory(final, initial) {
      return Err(DirectoryToFile);
    }
    var paths := Sort(initial.Keys + final.Keys);
    forall other | IsOrder(other, initial, final)
      ensures other == paths
    {
      SortedUnique(other, paths);
    }
    var written := WriteEntries(paths, initial, final, maxBytes, matcher, sha);
    if written.Err? {
      return Err(written.error);
    }
    var (output, changes) := written.value;
    return Ok(ReviewPatch(sha(encoded.value), output, sha(output), changes));
  }

  lemma UnchangedEntry(path: string, file: Option<File>, matcher: Matcher<string>)
    requires SoundMatcher(matcher)
    ensures EntryText(path, file, file, matcher) == "" && Refusal(file, file) == None
  {
  }
}
