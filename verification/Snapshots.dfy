/**
 Snapshots of small text repositories and the policy every file of one must meet.
 */
module Snapshots {
  import opened Text
  import opened Base64

  const MAX_SNAPSHOT_BYTES: nat := 4 * 1024 * 1024
  const MAX_FILES: nat := 64
  const MAX_FILE_BYTES: nat := 256 * 1024
  const MAX_CONTENT_BYTES: nat := 2 * 1024 * 1024
  const LFS_PREFIX := "version https://git-lfs.github.com/spec/v1"

  datatype SnapshotFile = SnapshotFile(path: string, mode: string, content: Bytes)

  datatype Snapshot = Snapshot(
    jobId: string, repositoryId: string, revision: string, imageSha256: string, files: seq<SnapshotFile>)

  // ----- characters -----

  predicate IsLower(c: char) { 'a' <= c <= 'z' }

  predicate IsUpper(c: char) { 'A' <= c <= 'Z' }

  predicate IsHex(c: char) { IsDigit(c) || 'a' <= c <= 'f' }

  predicate IsName(c: char) { IsLower(c) || IsDigit(c) || c == '.' || c == '_' || c == '-' }

  predicate IsPartChar(c: char) { IsName(c) || IsUpper(c) }

  function ToLower(s: string): (r: string)
    ensures |r| == |s|
  {
    if s == "" then ""
    else [if IsUpper(s[0]) then (s[0] as int + 32) as char else s[0]] + ToLower(s[1..])
  }

  function ToUpper(s: string): (r: string)
    ensures |r| == |s|
  {
    if s == "" then ""
    else [if IsLower(s[0]) then (s[0] as int - 32) as char else s[0]] + ToUpper(s[1..])
  }

  predicate AllHex(s: string) { forall k :: 0 <= k < |s| ==> IsHex(s[k]) }

  /** A lowercase SHA-256 digest. */
  predicate IsDigest(s: string) { |s| == 64 && AllHex(s) }

  predicate IsJob(s: string) { |s| == 32 && AllHex(s) }

  predicate IsCommit(s: string) { (|s| == 40 || |s| == 64) && AllHex(s) }

  predicate IsRepository(s: string) {
    && 1 <= |s| <= 64
    && (IsLower(s[0]) || IsDigit(s[0]))
    && forall k :: 0 <= k < |s| ==> IsName(s[k])
  }

  // ----- paths -----

  /** The pieces between the occurrences of `c`: always at least one. */
  function SplitOn(s: string, c: char): (parts: seq<string>)
    ensures |parts| >= 1
    decreases |s|
  {
    var k := IndexOf(s, c);
    if k == |s| then [s] else [s[..k]] + SplitOn(s[k + 1..], c)
  }

  const RESERVED := {
    "CON", "PRN", "AUX", "NUL",
    "COM1", "COM2", "COM3", "COM4", "COM5", "COM6", "COM7", "COM8", "COM9",
    "LPT1", "LPT2", "LPT3", "LPT4", "LPT5", "LPT6", "LPT7", "LPT8", "LPT9" }

  predicate ValidPart(part: string) {
    && 1 <= |part| <= 100
    && (forall k :: 0 <= k < |part| ==> IsPartChar(part[k]))
    && part[|part| - 1] != '.'
    && ToUpper(part)[..IndexOf(ToUpper(part), '.')] !in RESERVED
    && ToLower(part) != ".git"
  }

  predicate ValidPath(path: string) {
    && |path| <= 240
    && !StartsWith(path, "/")
    && forall k :: 0 <= k < |SplitOn(path, '/')| ==> ValidPart(SplitOn(path, '/')[k])
  }

  predicate IsPathChar(c: char) { IsPartChar(c) || c == '/' }

  lemma {:induction false} PartsGiveChars(s: string)
    requires forall k :: 0 <= k < |SplitOn(s, '/')| ==> ValidPart(SplitOn(s, '/')[k])
    ensures s != "" && forall k :: 0 <= k < |s| ==> IsPathChar(s[k])
    decreases |s|
  {
    var parts := SplitOn(s, '/');
    var i := IndexOf(s, '/');
    assert ValidPart(parts[0]);
    if i < |s| {
      assert parts[1..] == SplitOn(s[i + 1..], '/');
      PartsGiveChars(s[i + 1..]);
      assert s == parts[0] + ['/'] + s[i + 1..];
    }
  }

  // ----- order -----

  /** Python's order on strings: by code point, a proper prefix first. */
  predicate Less(a: string, b: string) {
    b != "" && (a == "" || a[0] < b[0] || (a[0] == b[0] && Less(a[1..], b[1..])))
  }

  lemma {:induction false} LessTotal(a: string, b: string)
    ensures !Less(a, a)
    ensures a == b || Less(a, b) || Less(b, a)
    ensures !(Less(a, b) && Less(b, a))
  {
    if a != "" {
      LessTotal(a[1..], if b == "" then "" else b[1..]);
      assert b != "" ==> a == [a[0]] + a[1..] && b == [b[0]] + b[1..];
    }
  }

  lemma {:induction false} LessTransitive(a: string, b: string, c: string)
    requires Less(a, b) && Less(b, c)
    ensures Less(a, c)
  {
    if a != "" && a[0] == b[0] == c[0] {
      LessTransitive(a[1..], b[1..], c[1..]);
    }
  }

  // ----- files -----

  predicate IsContinuation(c: char) { 0x80 <= c as int < 0xC0 }

  /** How many bytes a well-formed UTF-8 sequence at the start of `s` takes; 0 when there is none. */
  function Utf8Width(s: Bytes): (n: nat)
    requires s != ""
    ensures n <= |s|
    ensures n > 1 ==> forall k :: 0 <= k < n ==> s[k] as int >= 0x80
  {
    var b := s[0] as int;
    if b < 0x80 then 1
    else if 0xC2 <= b < 0xE0 then
      if |s| >= 2 && IsContinuation(s[1]) then 2 else 0
    else if 0xE0 <= b < 0xF0 then
      if |s| >= 3 && IsContinuation(s[1]) && IsContinuation(s[2])
         && (b == 0xE0 ==> s[1] as int >= 0xA0) && (b == 0xED ==> s[1] as int < 0xA0) then 3 else 0
    else if 0xF0 <= b < 0xF5 then
      if |s| >= 4 && IsContinuation(s[1]) && IsContinuation(s[2]) && IsContinuation(s[3])
         && (b == 0xF0 ==> s[1] as int >= 0x90) && (b == 0xF4 ==> s[1] as int < 0x90) then 4 else 0
    else 0
  }

  predicate Utf8(s: Bytes)
    decreases |s|
  {
    s == "" || (Utf8Width(s) > 0 && Utf8(s[Utf8Width(s)..]))
  }

  lemma Utf8WidthOfPrefix(s: Bytes, m: nat)
    requires s != "" && 0 < Utf8Width(s) <= m <= |s|
    ensures Utf8Width(s[..m]) == Utf8Width(s)
  {
  }

  /** Cutting well-formed UTF-8 after an LF leaves two well-formed pieces. */
  lemma {:induction false} Utf8Cut(s: Bytes, k: nat)
    requires Utf8(s) && k < |s| && s[k] == '\n'
    ensures Utf8(s[..k + 1]) && Utf8(s[k + 1..])
    decreases |s|
  {
    var n := Utf8Width(s);
    var head := s[..k + 1];
    Utf8WidthOfPrefix(s, if n <= k then k + 1 else n);
    hide Utf8Width;
    if n > k {
      assert n == 1 && k == 0;
      assert head[1..] == "";
    } else {
      assert s[n..][k - n] == s[k];
      Utf8Cut(s[n..], k - n);
      assert s[n..][..k - n + 1] == head[n..];
      assert s[n..][k - n + 1..] == s[k + 1..];
    }
  }

  predicate ValidContent(content: Bytes) {
    && |content| <= MAX_FILE_BYTES
    && '\0' !in content
    && !StartsWith(content, LFS_PREFIX)
    && Utf8(content)
  }

  predicate ValidMode(mode: string) { mode == "100644" || mode == "100755" }

  function Total(files: seq<SnapshotFile>): nat {
    if files == [] then 0 else Total(files[..|files| - 1]) + |files[|files| - 1].content|
  }

  /** No two paths differ only in case. */
  predicate DistinctFolded(files: seq<SnapshotFile>) {
    forall i, j :: 0 <= i < j < |files| ==> ToLower(files[i].path) != ToLower(files[j].path)
  }

  predicate ValidEntry(f: SnapshotFile) {
    ValidPath(f.path) && ValidMode(f.mode) && ValidContent(f.content)
  }

  predicate ValidFiles(files: seq<SnapshotFile>, allowEmpty: bool) {
    && |files| <= MAX_FILES
    && (allowEmpty || files != [])
    && (forall k :: 0 <= k < |files| ==> ValidEntry(files[k]))
    && DistinctFolded(files)
    && Total(files) <= MAX_CONTENT_BYTES
  }

  lemma {:induction false} TotalMonotone(files: seq<SnapshotFile>, n: nat)
    requires n <= |files|
    ensures Total(files[..n]) <= Total(files)
  {
    if n < |files| {
      var front := files[..|files| - 1];
      TotalMonotone(front, n);
      assert front[..n] == files[..n];
    } else {
      assert files[..n] == files;
    }
  }

  /** The validation loop: one pass over the files with a set of folded paths and a running total. */
  method FilesValid(files: seq<SnapshotFile>, allowEmpty: bool) returns (ok: bool)
    ensures ok == ValidFiles(files, allowEmpty)
  {
    hide ValidPath, ValidContent, ToLower;
    if |files| > MAX_FILES || (!allowEmpty && files == []) {
      return false;
    }
    var seen: set<string> := {};
    var total := 0;
    for n := 0 to |files|
      invariant forall k :: 0 <= k < n ==> ValidEntry(files[k])
      invariant seen == set k | 0 <= k < n :: ToLower(files[k].path)
      invariant DistinctFolded(files[..n])
      invariant total == Total(files[..n]) <= MAX_CONTENT_BYTES
    {
      var item := files[n];
      var folded := ToLower(item.path);
      if !ValidPath(item.path) || folded in seen || !ValidMode(item.mode) {
        return false;
      }
      if !ValidContent(item.content) {
        return false;
      }
      seen := seen + {folded};
      total := total + |item.content|;
      assert files[..n + 1][..n] == files[..n];
      if total > MAX_CONTENT_BYTES {
        TotalMonotone(files, n + 1);
        return false;
      }
    }
    assert files[..|files|] == files;
    return true;
  }

  predicate SortedByPath(files: seq<SnapshotFile>) {
    forall i, j :: 0 <= i < j < |files| ==> !Less(files[j].path, files[i].path)
  }

  /** No file's path is a directory of another's. */
  predicate NoDirectoryConflict(files: seq<SnapshotFile>) {
    forall i, j :: 0 <= i < |files| && 0 <= j < |files| ==> !StartsWith(files[j].path, files[i].path + "/")
  }

  /** What a complete final workspace must meet; it may be empty. */
  predicate ValidWorkspace(files: seq<SnapshotFile>) {
    ValidFiles(files, true) && SortedByPath(files) && NoDirectoryConflict(files)
  }

  /** What an encodable snapshot must meet. */
  predicate ValidSnapshot(s: Snapshot) {
    && IsJob(s.jobId) && IsRepository(s.repositoryId) && IsCommit(s.revision) && IsDigest(s.imageSha256)
    && ValidFiles(s.files, false) && SortedByPath(s.files)
  }
}
