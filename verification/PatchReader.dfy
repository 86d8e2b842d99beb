/**
 An independent reader and applier for Git-style unified diffs: POSIX `diff` unified output
 ("Diff -u or -U Output Format" of IEEE Std 1003.1) with Git's extended header lines.

 This is the reference against which the patch builder is proved; they share
 the representation of a file and of a hunk, and the header lines are spelt on either side.
 */
module PatchReader {
  import opened Wrappers
  import opened Text
  import opened UnifiedDiff

  const NO_NEWLINE := "\\ No newline at end of file\n"

  datatype Header =
    | Same
    | Added(mode: string)
    | Deleted(mode: string)
    | ModeChanged(before: string, after: string)

  datatype FilePatch = FilePatch(path: string, header: Header, hunks: seq<Hunk>)

  datatype File = File(mode: string, content: string)

  type Tree = map<string, File>

  // ----- reading -----

  function ReadRange(s: string): Option<(nat, nat)> {
    var k := IndexOf(s, ',');
    if k == |s| then
      match ParseDecimal(s)
      case Some(n) => if n > 0 then Some((n - 1, 1)) else None
      case None => None
    else
      match (ParseDecimal(s[..k]), ParseDecimal(s[k + 1..]))
      case (Some(n), Some(0)) => Some((n, 0))
      case (Some(n), Some(count)) => if n > 0 then Some((n - 1, count)) else None
      case _ => None
  }

  /** The old and new ranges of a hunk header, as a hunk without its body. */
  function ReadHunkHeader(line: string): Option<Hunk> {
    match Drop(line, "@@ -")
    case None => None
    case Some(s) =>
      var (first, s') := CutAt(s, ' ');
      match Drop(s', " +")
      case None => None
      case Some(t) =>
        var (second, end) := CutAt(t, ' ');
        match (ReadRange(first), ReadRange(second))
        case (Some(r1), Some(r2)) =>
          if end == " @@\n" then Some(Hunk(r1.0, r1.1, r2.0, r2.1, [])) else None
        case _ => None
  }

  function Keeps(kind: char): nat { if kind == ' ' || kind == '-' then 1 else 0 }

  function Makes(kind: char): nat { if kind == ' ' || kind == '+' then 1 else 0 }

  predicate IsKind(kind: char) { kind == ' ' || kind == '-' || kind == '+' }

  /**
   Read hunk lines until both counts of the header are used up.  A marker line after a hunk line
   says that the file's line has no LF.
   */
  function ReadBody(lines: seq<string>, src: nat, dst: nat): (r: Option<(seq<BodyLine>, seq<string>)>)
    ensures r.Some? ==> |r.value.1| <= |lines|
    decreases |lines|
  {
    if src == 0 && dst == 0 then Some(([], lines))
    else if lines == [] || !EndsWithLf(lines[0]) || !IsKind(lines[0][0]) then None
    else
      var kind := lines[0][0];
      if Keeps(kind) > src || Makes(kind) > dst then None
      else
        var bare := |lines| > 1 && lines[1] == NO_NEWLINE;
        var text := if bare then lines[0][1..|lines[0]| - 1] else lines[0][1..];
        match ReadBody(lines[if bare then 2 else 1..], src - Keeps(kind), dst - Makes(kind))
        case Some((body, rest)) => Some(([BodyLine(kind, text)] + body, rest))
        case None => None
  }

  function ReadHunks(lines: seq<string>): (r: Option<(seq<Hunk>, seq<string>)>)
    ensures r.Some? ==> |r.value.1| <= |lines|
    decreases |lines|
  {
    if lines == [] || !StartsWith(lines[0], "@@ -") then Some(([], lines))
    else
      match ReadHunkHeader(lines[0])
      case None => None
      case Some(h) =>
        match ReadBody(lines[1..], h.oldCount, h.newCount)
        case None => None
        case Some((body, rest)) =>
          match ReadHunks(rest)
          case None => None
          case Some((more, end)) => Some(([h.(body := body)] + more, end))
  }

  const DIFF := "diff --git a/"
  const NEW_FILE := "new file mode "
  const DELETED_FILE := "deleted file mode "
  const OLD_MODE := "old mode "
  const NEW_MODE := "new mode "

  function ReadPath(line: string): Option<string> {
    match Drop(line, DIFF)
    case None => None
    case Some(s) =>
      var (path, end) := CutAt(s, ' ');
      if end == " b/" + path + "\n" then Some(path) else None
  }

  /** What follows `prefix` up to the line's LF. */
  function Field(line: string, prefix: string): Option<string> {
    match Drop(line, prefix)
    case None => None
    case Some(s) => if EndsWithLf(s) then Some(s[..|s| - 1]) else None
  }

  function ReadHeader(lines: seq<string>): (r: Option<(Header, seq<string>)>)
    ensures r.Some? ==> |r.value.1| <= |lines|
  {
    if lines == [] then Some((Same, lines))
    else if Field(lines[0], NEW_FILE).Some? then Some((Added(Field(lines[0], NEW_FILE).value), lines[1..]))
    else if Field(lines[0], DELETED_FILE).Some? then
      Some((Deleted(Field(lines[0], DELETED_FILE).value), lines[1..]))
    else if Field(lines[0], OLD_MODE).Some? then
      if |lines| > 1 && Field(lines[1], NEW_MODE).Some? then
        Some((ModeChanged(Field(lines[0], OLD_MODE).value, Field(lines[1], NEW_MODE).value), lines[2..]))
      else None
    else Some((Same, lines))
  }

  function OldName(path: string, header: Header): string {
    if header.Added? then "/dev/null" else "a/" + path
  }

  function NewName(path: string, header: Header): string {
    if header.Deleted? then "/dev/null" else "b/" + path
  }

  function ReadFile(lines: seq<string>): (r: Option<(FilePatch, seq<string>)>)
    requires lines != []
    ensures r.Some? ==> |r.value.1| < |lines|
  {
    match ReadPath(lines[0])
    case None => None
    case Some(path) =>
      match ReadHeader(lines[1..])
      case None => None
      case Some((header, rest)) =>
        if rest == [] || !StartsWith(rest[0], "--- ") then Some((FilePatch(path, header, []), rest))
        else if |rest| < 2 || rest[0] != "--- " + OldName(path, header) + "\n"
                || rest[1] != "+++ " + NewName(path, header) + "\n" then None
        else
          match ReadHunks(rest[2..])
          case None => None
          case Some((hunks, end)) => Some((FilePatch(path, header, hunks), end))
  }

  function ReadLines(lines: seq<string>): Option<seq<FilePatch>>
    decreases |lines|
  {
    if lines == [] then Some([])
    else
      match ReadFile(lines)
      case None => None
      case Some((file, rest)) =>
        match ReadLines(rest)
        case None => None
        case Some(more) => Some([file] + more)
  }

  /** The file patches a patch text holds, or `None` when it is malformed. */
  function Read(patch: string): Option<seq<FilePatch>> {
    ReadLines(SplitLf(patch))
  }

  // ----- applying -----

  /** Apply a hunk body at line `pos`: where the old file goes on, and the lines written. */
  function ApplyBody(src: seq<string>, pos: nat, body: seq<BodyLine>): (r: Option<(nat, seq<string>)>)
    ensures r.Some? && pos <= |src| ==> pos <= r.value.0 <= |src|
    decreases body
  {
    if body == [] then Some((pos, []))
    else
      var l := body[0];
      if l.kind == '+' then
        match ApplyBody(src, pos, body[1..])
        case Some((end, out)) => Some((end, [l.text] + out))
        case None => None
      else if pos < |src| && src[pos] == l.text then
        match ApplyBody(src, pos + 1, body[1..])
        case Some((end, out)) => Some((end, if l.kind == ' ' then [l.text] + out else out))
        case None => None
      else None
  }

  /** Apply hunks to `old` from line `pos` on; `made` counts the lines already written. */
  function ApplyHunks(src: seq<string>, pos: nat, made: nat, hunks: seq<Hunk>): Option<seq<string>>
    requires pos <= |src|
    decreases hunks
  {
    if hunks == [] then Some(src[pos..])
    else
      var h := hunks[0];
      if !(pos <= h.oldStart <= |src|) || h.newStart != made + (h.oldStart - pos) then None
      else
        match ApplyBody(src, h.oldStart, h.body)
        case None => None
        case Some((end, out)) =>
          if end != h.oldStart + h.oldCount || |out| != h.newCount then None
          else
            match ApplyHunks(src, end, h.newStart + h.newCount, hunks[1..])
            case None => None
            case Some(rest) => Some(src[pos..h.oldStart] + out + rest)
  }

  /** One of the paths names a directory above the other. */
  predicate Clash(p: string, q: string) {
    StartsWith(q, p + "/") || StartsWith(p, q + "/")
  }

  /** No file of the tree is also a directory of another. */
  predicate PrefixFree(tree: Tree) {
    forall p, q :: p in tree && q in tree ==> !StartsWith(q, p + "/")
  }

  function Patched(content: string, hunks: seq<Hunk>): Option<string> {
    match ApplyHunks(SplitLf(content), 0, 0, hunks)
    case Some(lines) => Some(Join(lines))
    case None => None
  }

  /** Apply one file patch to a tree, refusing whatever does not match it exactly. */
  function ApplyFile(tree: Tree, fp: FilePatch): Option<Tree> {
    var p := fp.path;
    match fp.header
    case Added(mode) =>
      if p in tree || exists q :: q in tree && Clash(p, q) then None
      else (match Patched("", fp.hunks)
            case Some(content) => Some(tree[p := File(mode, content)])
            case None => None)
    case Deleted(mode) =>
      if p in tree && tree[p].mode == mode && Patched(tree[p].content, fp.hunks) == Some("")
      then Some(tree - {p}) else None
    case _ =>
      if p !in tree || (fp.header.ModeChanged? && tree[p].mode != fp.header.before) then None
      else (match Patched(tree[p].content, fp.hunks)
            case Some(content) =>
              Some(tree[p := File(if fp.header.ModeChanged? then fp.header.after else tree[p].mode, content)])
            case None => None)
  }

  function ApplyAll(tree: Tree, patches: seq<FilePatch>): Option<Tree>
    decreases patches
  {
    if patches == [] then Some(tree)
    else
      match ApplyFile(tree, patches[0])
      case Some(next) => ApplyAll(next, patches[1..])
      case None => None
  }

  lemma {:induction false} ApplyAllConcat(tree: Tree, a: seq<FilePatch>, b: seq<FilePatch>)
    requires ApplyAll(tree, a).Some?
    ensures ApplyAll(tree, a + b) == ApplyAll(ApplyAll(tree, a).value, b)
    decreases a
  {
    if a == [] {
      assert a + b == b;
    } else {
      assert (a + b)[1..] == a[1..] + b;
      ApplyAllConcat(ApplyFile(tree, a[0]).value, a[1..], b);
    }
  }
}
