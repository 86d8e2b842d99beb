/** The patch text reads back as exactly one file patch for every changed path, in order. */
module PatchReading {
  import opened Wrappers
  import opened Text
  import opened Opcodes
  import opened UnifiedDiff
  import opened PatchReader
  import opened PatchRoundTrip
  import opened Snapshots
  import opened ReviewPatch

  // ----- the patch as lines -----

  predicate Terminated(lines: seq<string>) {
    forall k :: 0 <= k < |lines| ==> IsLine(lines[k]) && EndsWithLf(lines[k])
  }

  lemma {:induction false} PiecesAreWired(diffLines: seq<string>)
    ensures Pieces(diffLines) == Join(WireAll(diffLines))
  {
    hide Piece, Wire, Join;
    if diffLines != [] {
      var n := |diffLines| - 1;
      var front, last := diffLines[..n], diffLines[n];
      PiecesAreWired(front);
      assert front + [last] == diffLines;
      WireAllConcat(front, [last]);
      WireOne(last);
      JoinConcat(WireAll(front), Wire(last));
      PieceIsWired(last);
    } else {
      JoinNone();
    }
  }

  lemma WireOne(d: string)
    ensures WireAll([d]) == Wire(d)
  {
    assert WireAll([d]) == Wire(d) + WireAll([]);
  }

  lemma JoinNone()
    ensures Join([]) == ""
  {
  }

  lemma PieceIsWired(d: string)
    ensures Piece(d) == Join(Wire(d))
  {
    JoinOne(NO_NEWLINE);
    if EndsWithLf(d) {
      JoinOne(d);
    } else {
      assert Wire(d)[1..] == [NO_NEWLINE];
    }
  }

  lemma JoinOne(s: string)
    ensures Join([s]) == s
  {
    assert [s][1..] == [];
  }

  function ModeLines(header: Header): seq<string> {
    match header
    case Same => []
    case Added(mode) => [NEW_FILE + mode + "\n"]
    case Deleted(mode) => [DELETED_FILE + mode + "\n"]
    case ModeChanged(before, after) => [OLD_MODE + before + "\n", NEW_MODE + after + "\n"]
  }

  lemma ModeTextIsLines(header: Header)
    ensures ModeText(header) == Join(ModeLines(header))
  {
    match header
    case Same =>
    case Added(mode) => JoinOne(NEW_FILE + mode + "\n");
    case Deleted(mode) => JoinOne(DELETED_FILE + mode + "\n");
    case ModeChanged(before, after) =>
      JoinOne(NEW_MODE + after + "\n");
      assert ModeLines(header)[1..] == [NEW_MODE + after + "\n"];
      var x, y := OLD_MODE + before + "\n", NEW_MODE + after + "\n";
      assert ModeText(header) == x + y;
  }

  ghost function EntryLines(path: string, before: Option<File>, after: Option<File>, matcher: Matcher<string>): seq<string>
    requires SoundMatcher(matcher)
  {
    if before == after then []
    else
      [PathText(path)] + (ModeLines(HeaderOf(before, after)) + WireAll(DiffLinesOf(path, before, after, matcher)))
  }

  lemma EntryTextIsLines(path: string, before: Option<File>, after: Option<File>, matcher: Matcher<string>)
    requires SoundMatcher(matcher)
    ensures EntryText(path, before, after, matcher) == Join(EntryLines(path, before, after, matcher))
  {
    if before != after {
      hide DiffLinesOf, HeaderOf, PathText, ModeText, ModeLines, Pieces, WireAll, SoundMatcher, Join;
      JoinEntry(PathText(path), HeaderOf(before, after), DiffLinesOf(path, before, after, matcher));
    } else {
      assert Join([]) == "";
    }
  }

  lemma JoinEntry(first: string, header: Header, diffLines: seq<string>)
    ensures Join([first] + (ModeLines(header) + WireAll(diffLines))) == first + ModeText(header) + Pieces(diffLines)
  {
    PiecesAreWired(diffLines);
    ModeTextIsLines(header);
    JoinConcat(ModeLines(header), WireAll(diffLines));
    JoinConcat([first], ModeLines(header) + WireAll(diffLines));
    JoinOne(first);
    hide *;
    assert first + ModeText(header) + Pieces(diffLines) == first + (ModeText(header) + Pieces(diffLines));
  }

  ghost function PatchLines(paths: seq<string>, initial: Tree, final: Tree, matcher: Matcher<string>): seq<string>
    requires SoundMatcher(matcher)
  {
    if paths == [] then []
    else
      EntryLines(paths[0], At(initial, paths[0]), At(final, paths[0]), matcher)
      + PatchLines(paths[1..], initial, final, matcher)
  }

  lemma {:induction false} PatchLinesConcat(a: seq<string>, b: seq<string>, initial: Tree, final: Tree, matcher: Matcher<string>)
    requires SoundMatcher(matcher)
    ensures PatchLines(a + b, initial, final, matcher)
         == PatchLines(a, initial, final, matcher) + PatchLines(b, initial, final, matcher)
  {
    hide SoundMatcher, EntryLines, At;
    if a == [] {
      assert a + b == b;
    } else {
      assert (a + b)[1..] == a[1..] + b;
      PatchLinesConcat(a[1..], b, initial, final, matcher);
    }
  }

  lemma {:induction false} PatchTextIsLines(paths: seq<string>, initial: Tree, final: Tree, matcher: Matcher<string>)
    requires SoundMatcher(matcher)
    ensures PatchText(paths, initial, final, matcher) == Join(PatchLines(paths, initial, final, matcher))
  {
    hide SoundMatcher, EntryLines, EntryText, At;
    if paths != [] {
      var n := |paths| - 1;
      var front, last := paths[..n], paths[n];
      PatchTextIsLines(front, initial, final, matcher);
      assert front + [last] == paths;
      PatchLinesConcat(front, [last], initial, final, matcher);
      var entry := EntryLines(last, At(initial, last), At(final, last), matcher);
      assert PatchLines([last], initial, final, matcher) == entry + PatchLines([], initial, final, matcher);
      assert PatchLines([last], initial, final, matcher) == entry;
      JoinConcat(PatchLines(front, initial, final, matcher), entry);
      EntryTextIsLines(last, At(initial, last), At(final, last), matcher);
    }
  }

  // ----- every line ends in LF -----

  predicate PlainName(s: string) {
    ' ' !in s && '\n' !in s
  }

  predicate PlainFile(file: Option<File>) {
    file.Some? ==> PlainName(file.value.mode)
  }

  lemma {:induction false} WireTerminated(diffLines: seq<string>)
    requires AllLines(diffLines)
    ensures Terminated(WireAll(diffLines))
  {
    if diffLines != [] {
      var d := diffLines[0];
      WireTerminated(diffLines[1..]);
      if !EndsWithLf(d) {
        assert d == d[..|d| - 1] + [d[|d| - 1]];
        assert (d + "\n")[..|d + "\n"| - 1] == d;
      }
    }
  }

  lemma {:induction false} DiffLinesAreLines(body: seq<BodyLine>)
    requires GoodBody(body)
    ensures AllLines(DiffLines(body))
  {
    if body != [] {
      DiffLinesAreLines(body[1..]);
      LineConcat([body[0].kind], body[0].text);
    }
  }

  lemma {:induction false} HunksLinesAreLines(hunks: seq<Hunk>)
    requires GoodHunks(hunks)
    ensures AllLines(HunksLines(hunks))
  {
    if hunks != [] {
      assert GoodHunk(hunks[0]) && GoodHunks(hunks[1..]);
      hide GoodHunk, GoodHunks, HunkLines;
      HunksLinesAreLines(hunks[1..]);
      HunkLinesAreLines(hunks[0]);
    }
  }

  lemma HunkLinesAreLines(h: Hunk)
    requires GoodHunk(h)
    ensures AllLines(HunkLines(h))
  {
    hide HunkHeader, GoodBody, ReadHunkHeader, DiffLines;
    DiffLinesAreLines(h.body);
    ReadHunkHeaderOfPrinted(h);
  }

  lemma NameLine(prefix: string, name: string)
    requires '\n' !in prefix && '\n' !in name
    ensures IsLine(prefix + name + "\n") && EndsWithLf(prefix + name + "\n")
  {
    var s := prefix + name + "\n";
    assert s[..|s| - 1] == prefix + name;
  }

  predicate PlainHeader(header: Header) {
    match header
    case Same => true
    case Added(mode) => PlainName(mode)
    case Deleted(mode) => PlainName(mode)
    case ModeChanged(before, after) => PlainName(before) && PlainName(after)
  }

  lemma ModeLinesTerminated(header: Header)
    requires PlainHeader(header)
    ensures Terminated(ModeLines(header))
  {
    match header
    case Same =>
    case Added(mode) => NameLine(NEW_FILE, mode);
    case Deleted(mode) => NameLine(DELETED_FILE, mode);
    case ModeChanged(before, after) =>
      NameLine(OLD_MODE, before);
      NameLine(NEW_MODE, after);
  }

  /** The hunks of a file patch: none for a change of mode only. */
  ghost function HunksFor(before: Option<File>, after: Option<File>, matcher: Matcher<string>): seq<Hunk>
    requires SoundMatcher(matcher)
  {
    if SameContent(before, after) then []
    else
      var a, b := SplitLf(ContentOf(before)), SplitLf(ContentOf(after));
      FileHunks(matcher(a, b), a, b)
  }

  ghost function FilePatchFor(path: string, before: Option<File>, after: Option<File>, matcher: Matcher<string>): FilePatch
    requires SoundMatcher(matcher)
  {
    FilePatch(path, HeaderOf(before, after), HunksFor(before, after, matcher))
  }

  function NameLines(path: string, header: Header): seq<string> {
    ["--- " + OldName(path, header) + "\n", "+++ " + NewName(path, header) + "\n"]
  }

  /** The lines of a file patch after its mode lines. */
  function TailLines(fp: FilePatch): seq<string> {
    if fp.hunks == [] then [] else NameLines(fp.path, fp.header) + WireAll(HunksLines(fp.hunks))
  }

  lemma WireTwo(x: string, y: string)
    requires EndsWithLf(x) && EndsWithLf(y)
    ensures WireAll([x, y]) == [x, y]
  {
    assert [x, y][1..] == [y] && [y][1..] == [];
    assert WireAll([y]) == Wire(y) + WireAll([]) == [y];
    assert WireAll([x, y]) == Wire(x) + WireAll([y]);
  }

  lemma NameLinesTerminated(path: string, header: Header)
    requires PlainName(path)
    ensures Terminated(NameLines(path, header))
    ensures WireAll(NameLines(path, header)) == NameLines(path, header)
  {
    NameLine("--- ", OldName(path, header));
    NameLine("+++ ", NewName(path, header));
    WireTwo("--- " + OldName(path, header) + "\n", "+++ " + NewName(path, header) + "\n");
  }

  lemma HunksForFacts(before: Option<File>, after: Option<File>, matcher: Matcher<string>)
    requires SoundMatcher(matcher)
    ensures GoodHunks(HunksFor(before, after, matcher))
    ensures Patched(ContentOf(before), HunksFor(before, after, matcher)) == Some(ContentOf(after))
  {
    var x, y := ContentOf(before), ContentOf(after);
    var a, b := SplitLf(x), SplitLf(y);
    MatcherValid(matcher, a, b);
    if SameContent(before, after) {
      assert ApplyHunks(a, 0, 0, []) == Some(a[0..]) && a[0..] == a;
    } else {
      var codes := matcher(a, b);
      hide SplitLf, SoundMatcher;
      FileHunksRoundTrip(codes, x, y, []);
      FileHunksGood(codes, a, b);
    }
  }

  lemma FileHunksGood(codes: seq<Opcode>, a: seq<string>, b: seq<string>)
    requires Valid(codes, a, b) && AllLines(a) && AllLines(b)
    ensures GoodHunks(FileHunks(codes, a, b))
  {
    hide Covers, AreGroups, Valid;
    GroupedCovers(codes, a, b);
    CoversGroups(Grouped(codes), a, b, 0, 0);
    HunksGood(Grouped(codes), a, b, 0, 0);
  }

  lemma EntryLinesShape(path: string, before: Option<File>, after: Option<File>, matcher: Matcher<string>)
    requires SoundMatcher(matcher) && before != after && PlainName(path)
    ensures var fp := FilePatchFor(path, before, after, matcher);
      EntryLines(path, before, after, matcher) == [PathText(path)] + (ModeLines(fp.header) + TailLines(fp))
  {
    var fp := FilePatchFor(path, before, after, matcher);
    var diffLines := DiffLinesOf(path, before, after, matcher);
    NameLinesTerminated(path, fp.header);
    assert diffLines == if fp.hunks == [] then [] else NameLines(path, fp.header) + HunksLines(fp.hunks);
    hide DiffLinesOf, HunksFor, HeaderOf, PathText, ModeLines, NameLines, SoundMatcher;
    if fp.hunks != [] {
      WireAllConcat(NameLines(path, fp.header), HunksLines(fp.hunks));
    }
  }

  lemma EntryTerminated(path: string, before: Option<File>, after: Option<File>, matcher: Matcher<string>)
    requires SoundMatcher(matcher) && PlainName(path) && PlainFile(before) && PlainFile(after)
    ensures Terminated(EntryLines(path, before, after, matcher))
  {
    hide *;
    EntryParts(path, before, after, matcher);
    if before != after {
      var fp := FilePatchFor(path, before, after, matcher);
      EntryLinesShape(path, before, after, matcher);
      ModeLinesTerminated(fp.header);
      TailLinesTerminated(fp);
      PathLine(path);
      TerminatedConcat(ModeLines(fp.header), TailLines(fp));
      TerminatedConcat([PathText(path)], ModeLines(fp.header) + TailLines(fp));
    }
  }

  lemma TerminatedConcat(a: seq<string>, b: seq<string>)
    requires Terminated(a) && Terminated(b)
    ensures Terminated(a + b)
  {
  }

  lemma TailLinesTerminated(fp: FilePatch)
    requires GoodHunks(fp.hunks) && PlainName(fp.path)
    ensures Terminated(TailLines(fp))
  {
    hide GoodHunks, HunksLines, NameLines, WireAll;
    NameLinesTerminated(fp.path, fp.header);
    HunksLinesAreLines(fp.hunks);
    WireTerminated(HunksLines(fp.hunks));
  }

  lemma EntryParts(path: string, before: Option<File>, after: Option<File>, matcher: Matcher<string>)
    requires SoundMatcher(matcher) && PlainFile(before) && PlainFile(after)
    ensures var fp := FilePatchFor(path, before, after, matcher);
      fp.path == path && GoodHunks(fp.hunks) && PlainHeader(fp.header)
    ensures before == after ==> Terminated(EntryLines(path, before, after, matcher))
  {
    hide HunksFor, SoundMatcher, GoodHunks, Patched, PlainName;
    HunksForFacts(before, after, matcher);
  }

  lemma PathLine(path: string)
    requires PlainName(path)
    ensures Terminated([PathText(path)])
  {
    var s := PathText(path);
    assert s[..|s| - 1] == DIFF + path + " b/" + path;
  }

  // ----- reading one file -----

  lemma ReadPathOf(path: string)
    requires PlainName(path)
    ensures ReadPath(PathText(path)) == Some(path)
  {
    var end := " b/" + path + "\n";
    assert PathText(path) == DIFF + (path + end);
    DropOf(DIFF, path + end);
    CutAtOf(path, end, ' ');
  }

  lemma FieldOf(prefix: string, value: string)
    ensures Field(prefix + value + "\n", prefix) == Some(value)
  {
    assert prefix + value + "\n" == prefix + (value + "\n");
    DropOf(prefix, value + "\n");
    assert (value + "\n")[..|value + "\n"| - 1] == value;
  }

  /** What comes after a file's mode lines: its names, or the next file. */
  predicate AfterModes(lines: seq<string>) {
    lines == [] || StartsWith(lines[0], "--- ") || StartsWith(lines[0], DIFF)
  }

  lemma NotField(line: string, prefix: string, k: nat)
    requires k < |prefix| && (k >= |line| || line[k] != prefix[k])
    ensures Field(line, prefix) == None
  {
    StartsWithAt(line, prefix, k);
  }

  lemma ReadNoModes(lines: seq<string>)
    requires AfterModes(lines)
    ensures ReadHeader(lines) == Some((Same, lines))
  {
    if lines != [] {
      var line := lines[0];
      if StartsWith(line, "--- ") {
        assert line[0] == line[..4][0] == '-';
        NotField(line, NEW_FILE, 0);
        NotField(line, DELETED_FILE, 0);
        NotField(line, OLD_MODE, 0);
      } else {
        assert line[0] == line[..|DIFF|][0] == 'd' && line[1] == line[..|DIFF|][1] == 'i';
        NotField(line, NEW_FILE, 0);
        NotField(line, DELETED_FILE, 1);
        NotField(line, OLD_MODE, 0);
      }
    }
  }

  lemma ReadHeaderOf(header: Header, rest: seq<string>)
    requires AfterModes(rest)
    ensures ReadHeader(ModeLines(header) + rest) == Some((header, rest))
  {
    hide Field;
    var lines := ModeLines(header) + rest;
    match header
    case Same =>
      assert lines == rest;
      ReadNoModes(rest);
    case Added(mode) =>
      FieldOf(NEW_FILE, mode);
      assert lines[1..] == rest;
    case Deleted(mode) =>
      FieldOf(DELETED_FILE, mode);
      NotField(lines[0], NEW_FILE, 0);
      assert lines[1..] == rest;
    case ModeChanged(before, after) =>
      FieldOf(OLD_MODE, before);
      FieldOf(NEW_MODE, after);
      NotField(lines[0], NEW_FILE, 0);
      NotField(lines[0], DELETED_FILE, 0);
      assert lines[2..] == rest;
  }

  lemma ReadFileOf(fp: FilePatch, rest: seq<string>)
    requires PlainName(fp.path) && GoodHunks(fp.hunks) && AfterFile(rest)
    ensures ReadFile([PathText(fp.path)] + (ModeLines(fp.header) + TailLines(fp)) + rest) == Some((fp, rest))
  {
    hide *;
    var first := [PathText(fp.path)];
    var tail := TailLines(fp) + rest;
    var lines := first + (ModeLines(fp.header) + TailLines(fp)) + rest;
    DropFirst(first, ModeLines(fp.header), TailLines(fp), rest);
    assert lines[0] == PathText(fp.path);
    ReadPathOf(fp.path);
    TailStarts(fp, rest);
    ReadHeaderOf(fp.header, tail);
    ReadTailOf(fp, rest);
    ReadFileParts(lines, fp.path, fp.header, tail);
  }

  /** The rest of `ReadFile`, once the path and the mode lines are known. */
  function ReadTail(path: string, header: Header, rest: seq<string>): Option<(FilePatch, seq<string>)> {
    if rest == [] || !StartsWith(rest[0], "--- ") then Some((FilePatch(path, header, []), rest))
    else if |rest| < 2 || rest[..2] != NameLines(path, header) then None
    else
      match ReadHunks(rest[2..])
      case None => None
      case Some((hunks, end)) => Some((FilePatch(path, header, hunks), end))
  }

  lemma ReadFileParts(lines: seq<string>, path: string, header: Header, rest: seq<string>)
    requires lines != [] && ReadPath(lines[0]) == Some(path) && ReadHeader(lines[1..]) == Some((header, rest))
    ensures ReadFile(lines) == ReadTail(path, header, rest)
  {
    hide ReadPath, ReadHeader, ReadHunks, OldName, NewName, StartsWith;
    if |rest| >= 2 {
      assert rest[..2] == [rest[0], rest[1]];
    }
  }

  lemma ReadTailOf(fp: FilePatch, rest: seq<string>)
    requires GoodHunks(fp.hunks) && AfterFile(rest)
    ensures ReadTail(fp.path, fp.header, TailLines(fp) + rest) == Some((fp, rest))
  {
    hide ReadHunks, WireAll, HunksLines, GoodHunks, StartsWith, NameLines, AfterFile;
    TailStarts(fp, rest);
    if fp.hunks == [] {
      assert TailLines(fp) + rest == rest;
    } else {
      var names, body := NameLines(fp.path, fp.header), WireAll(HunksLines(fp.hunks));
      assert |names| == 2 by { NameLinesTwo(fp.path, fp.header); }
      DropFirst(names, body, [], rest);
      ReadHunksOfPrinted(fp.hunks, rest);
    }
  }

  lemma NameLinesTwo(path: string, header: Header)
    ensures |NameLines(path, header)| == 2
  {
  }

  lemma TailStarts(fp: FilePatch, rest: seq<string>)
    requires AfterFile(rest)
    ensures AfterModes(TailLines(fp) + rest)
    ensures fp.hunks != [] ==> StartsWith((TailLines(fp) + rest)[0], "--- ")
    ensures fp.hunks == [] && rest != [] ==> !StartsWith(rest[0], "--- ")
  {
    if fp.hunks == [] {
      assert TailLines(fp) + rest == rest;
      AfterFileMeans(rest);
      if rest != [] {
        StartsWithAt(rest[0], "--- ", 0);
      }
    } else {
      var first := "--- " + OldName(fp.path, fp.header) + "\n";
      assert (TailLines(fp) + rest)[0] == first;
      assert first == "--- " + (OldName(fp.path, fp.header) + "\n");
      assert first[..4] == "--- ";
    }
  }

  // ----- reading the whole patch -----

  ghost function FilePatches(paths: seq<string>, initial: Tree, final: Tree, matcher: Matcher<string>): seq<FilePatch>
    requires SoundMatcher(matcher)
  {
    if paths == [] then []
    else
      (if Changed(initial, final, paths[0])
       then [FilePatchFor(paths[0], At(initial, paths[0]), At(final, paths[0]), matcher)] else [])
      + FilePatches(paths[1..], initial, final, matcher)
  }

  predicate PlainTree(tree: Tree) {
    forall p :: p in tree ==> PlainName(p) && PlainName(tree[p].mode)
  }

  predicate PlainPaths(paths: seq<string>) {
    forall p :: p in paths ==> PlainName(p)
  }

  lemma PathTextStarts(path: string, rest: seq<string>)
    ensures AfterFile([PathText(path)] + rest)
  {
    assert PathText(path) == DIFF + (path + " b/" + path + "\n");
    assert PathText(path)[..|DIFF|] == DIFF;
  }

  lemma {:induction false} ReadLinesOf(paths: seq<string>, initial: Tree, final: Tree, matcher: Matcher<string>)
    requires SoundMatcher(matcher) && PlainPaths(paths)
    ensures ReadLines(PatchLines(paths, initial, final, matcher)) == Some(FilePatches(paths, initial, final, matcher))
    ensures AfterFile(PatchLines(paths, initial, final, matcher))
  {
    hide SoundMatcher, ReadFile, EntryLines, FilePatchFor, PlainName, AfterFile;
    if paths == [] {
      NothingAfter();
    } else {
      ReadLinesOf(paths[1..], initial, final, matcher);
      var before, after := At(initial, paths[0]), At(final, paths[0]);
      var rest := PatchLines(paths[1..], initial, final, matcher);
      ReadEntryOf(paths[0], before, after, matcher, rest);
      if before == after {
        assert FilePatches(paths, initial, final, matcher) == FilePatches(paths[1..], initial, final, matcher);
      }
    }
  }

  lemma NothingAfter()
    ensures AfterFile([])
  {
  }

  lemma ReadEntryOf(
    path: string, before: Option<File>, after: Option<File>, matcher: Matcher<string>, rest: seq<string>)
    requires SoundMatcher(matcher) && PlainName(path) && AfterFile(rest)
    ensures AfterFile(EntryLines(path, before, after, matcher) + rest)
    ensures before == after ==> EntryLines(path, before, after, matcher) + rest == rest
    ensures before != after ==>
      && EntryLines(path, before, after, matcher) + rest != []
      && ReadFile(EntryLines(path, before, after, matcher) + rest) == Some((FilePatchFor(path, before, after, matcher), rest))
  {
    hide *;
    if before == after {
      NoEntry(path, before, matcher);
      assert [] + rest == rest;
    } else {
      var fp := FilePatchFor(path, before, after, matcher);
      EntryLinesShape(path, before, after, matcher);
      PatchForParts(path, before, after, matcher);
      ReadFileOf(fp, rest);
      var more := ModeLines(fp.header) + TailLines(fp);
      assert [PathText(path)] + more + rest == [PathText(path)] + (more + rest);
      PathTextStarts(path, more + rest);
    }
  }

  lemma NoEntry(path: string, file: Option<File>, matcher: Matcher<string>)
    requires SoundMatcher(matcher)
    ensures EntryLines(path, file, file, matcher) == []
  {
  }

  lemma PatchForParts(path: string, before: Option<File>, after: Option<File>, matcher: Matcher<string>)
    requires SoundMatcher(matcher)
    ensures var fp := FilePatchFor(path, before, after, matcher); fp.path == path && GoodHunks(fp.hunks)
  {
    hide HunksFor, SoundMatcher, GoodHunks, Patched;
    HunksForFacts(before, after, matcher);
  }

  lemma {:induction false} PatchLinesTerminated(paths: seq<string>, initial: Tree, final: Tree, matcher: Matcher<string>)
    requires SoundMatcher(matcher) && PlainPaths(paths) && PlainTree(initial) && PlainTree(final)
    ensures Terminated(PatchLines(paths, initial, final, matcher))
  {
    hide SoundMatcher, EntryLines, PlainName;
    if paths != [] {
      PatchLinesTerminated(paths[1..], initial, final, matcher);
      EntryTerminated(paths[0], At(initial, paths[0]), At(final, paths[0]), matcher);
    }
  }

  /** The reader recovers every file patch from the patch text, and nothing else. */
  lemma ReadOfPatchText(paths: seq<string>, initial: Tree, final: Tree, matcher: Matcher<string>)
    requires SoundMatcher(matcher) && PlainPaths(paths) && PlainTree(initial) && PlainTree(final)
    ensures Read(PatchText(paths, initial, final, matcher)) == Some(FilePatches(paths, initial, final, matcher))
  {
    PatchTextIsLines(paths, initial, final, matcher);
    PatchLinesTerminated(paths, initial, final, matcher);
    var lines := PatchLines(paths, initial, final, matcher);
    hide PatchLines, PatchText, SoundMatcher, PlainTree, PlainPaths, SplitLf, ReadLines;
    assert IsLines(lines);
    SplitOfJoin(lines);
    ReadLinesOf(paths, initial, final, matcher);
  }
}
