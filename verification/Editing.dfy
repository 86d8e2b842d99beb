/**
 The pending-edit store: propose find-and-replace edits on a file, and replay them at approval on
 whatever the file holds by then, unless that could clash.
 */
module Editing {
  import opened Wrappers
  import opened Text
  import opened Opcodes
  import opened EditScripts
  import opened ChangeMap

  /** One find-and-replace; its find-block must match exactly once. */
  datatype FileEdit = FileEdit(find: string, replace: string)

  datatype Status = Pending | Applied | Rejected

  datatype PendingEdit = PendingEdit(
    id: nat, path: string, original: string, newContent: string, edits: seq<FileEdit>, status: Status)

  datatype StoreError =
    | NoSuchEdit | AlreadyDecided | MissingFile | SameContent
    | NotFound | Ambiguous | StaleReplacement | Overlapping | NotReplayable(why: StoreError)

  // ----- matching -----

  /** Python's `str.count`: matches are taken from the left and do not overlap. */
  function Count(s: string, f: string): nat
    decreases |s|
  {
    if f == "" then |s| + 1
    else if |s| < |f| then 0
    else if s[..|f|] == f then 1 + Count(s[|f|..], f)
    else Count(s[1..], f)
  }

  predicate OccursAt(s: string, f: string, k: nat) {
    k + |f| <= |s| && s[k..k + |f|] == f
  }

  /** The leftmost occurrence. */
  function Find(s: string, f: string): (k: Option<nat>)
    ensures k.Some? ==> OccursAt(s, f, k.value)
    decreases |s|
  {
    if |s| < |f| then None
    else if s[..|f|] == f then Some(0)
    else if s == "" then None
    else
      match Find(s[1..], f)
      case Some(k) => assert s[1..][k..k + |f|] == s[k + 1..k + 1 + |f|]; Some(k + 1)
      case None => None
  }

  lemma {:induction false} FindLeftmost(s: string, f: string, k: nat)
    requires OccursAt(s, f, k)
    ensures Find(s, f).Some? && Find(s, f).value <= k
    decreases |s|
  {
    if s[..|f|] != f {
      assert k > 0;
      assert s[1..][k - 1..k - 1 + |f|] == s[k..k + |f|];
      FindLeftmost(s[1..], f, k - 1);
    }
  }

  lemma {:induction false} CountedIsFound(s: string, f: string)
    ensures Count(s, f) > 0 <==> Find(s, f).Some?
    decreases |s|
  {
    if f != "" && |s| >= |f| && s[..|f|] != f {
      CountedIsFound(s[1..], f);
    }
  }

  function ApplyExact(content: string, edit: FileEdit): Result<string, StoreError> {
    var matches := Count(content, edit.find);
    if matches == 0 then Err(NotFound)
    else if matches > 1 then Err(Ambiguous)
    else
      CountedIsFound(content, edit.find);
      var k := Find(content, edit.find).value;
      Ok(content[..k] + edit.replace + content[k + |edit.find|..])
  }

  function ApplyEdits(content: string, edits: seq<FileEdit>): Result<string, StoreError>
    decreases edits
  {
    if edits == [] then Ok(content)
    else
      match ApplyExact(content, edits[0])
      case Err(e) => Err(e)
      case Ok(next) => ApplyEdits(next, edits[1..])
  }

  lemma {:induction false} ApplyEditsConcat(content: string, a: seq<FileEdit>, b: seq<FileEdit>)
    ensures ApplyEdits(content, a + b)
         == match ApplyEdits(content, a) { case Err(e) => Err(e) case Ok(next) => ApplyEdits(next, b) }
    decreases a
  {
    hide ApplyExact;
    if a == [] {
      assert a + b == b;
    } else {
      assert (a + b)[1..] == a[1..] + b;
      match ApplyExact(content, a[0])
      case Err(e) =>
      case Ok(next) => ApplyEditsConcat(next, a[1..], b);
    }
  }

  lemma ApplyEditsStep(content: string, edits: seq<FileEdit>, n: nat, soFar: string)
    requires n < |edits| && ApplyEdits(content, edits[..n]) == Ok(soFar)
    ensures match ApplyExact(soFar, edits[n])
      case Err(e) => ApplyEdits(content, edits) == Err(e)
      case Ok(next) => ApplyEdits(content, edits[..n + 1]) == Ok(next)
  {
    hide ApplyExact;
    var one := [edits[n]];
    assert one[1..] == [];
    assert ApplyEdits(soFar, one) == ApplyExact(soFar, edits[n]);
    assert edits[..n + 1] == edits[..n] + one && edits == edits[..n + 1] + edits[n + 1..];
    ApplyEditsConcat(content, edits[..n], one);
    ApplyEditsConcat(content, edits[..n + 1], edits[n + 1..]);
  }

  // ----- approval -----

  /** What approving an edit writes when its file holds `current`. */
  ghost function Outcome(e: PendingEdit, current: string, lines: Matcher<string>, chars: Matcher<char>)
    : Result<string, StoreError>
    requires SoundLines(lines) && SoundChars(chars)
  {
    if current == e.original then Ok(e.newContent)
    else if e.edits == [] then Err(StaleReplacement)
    else if !Disjoint(ChangedScript(e.original, current, lines, chars),
                      ChangedScript(e.original, e.newContent, lines, chars)) then Err(Overlapping)
    else
      match ApplyEdits(current, e.edits)
      case Ok(content) => Ok(content)
      case Err(why) => Err(NotReplayable(why))
  }

  /** The pairwise overlap test over two lists of spans. */
  method AnyOverlap(first: seq<(nat, nat)>, second: seq<(nat, nat)>) returns (found: bool)
    ensures found <==> exists i, j :: 0 <= i < |first| && 0 <= j < |second| && SpansOverlap(first[i], second[j])
  {
    for i := 0 to |first|
      invariant forall k, j :: 0 <= k < i && 0 <= j < |second| ==> !SpansOverlap(first[k], second[j])
    {
      for j := 0 to |second|
        invariant forall m :: 0 <= m < j ==> !SpansOverlap(first[i], second[m])
      {
        if SpansOverlap(first[i], second[j]) {
          return true;
        }
      }
    }
    return false;
  }

  method ChangesOverlap(original: string, current: string, proposed: string, lines: Matcher<string>, chars: Matcher<char>)
    returns (found: bool)
    requires SoundLines(lines) && SoundChars(chars)
    ensures found <==> !Disjoint(ChangedScript(original, current, lines, chars),
                                 ChangedScript(original, proposed, lines, chars))
  {
    hide SoundLines, SoundChars, ChangedScript, Spans;
    var first := ChangedSpans(original, current, lines, chars);
    var second := ChangedSpans(original, proposed, lines, chars);
    found := AnyOverlap(first, second);
    OverlapOfSpans(ChangedScript(original, current, lines, chars), ChangedScript(original, proposed, lines, chars));
  }

  lemma OverlapOfSpans(s: Script, t: Script)
    ensures Disjoint(s, t) <==>
      !exists i, j :: 0 <= i < |Spans(s)| && 0 <= j < |Spans(t)| && SpansOverlap(Spans(s)[i], Spans(t)[j])
  {
    hide SpansOverlap;
    if Disjoint(s, t) {
      forall i, j | 0 <= i < |Spans(s)| && 0 <= j < |Spans(t)|
        ensures !SpansOverlap(Spans(s)[i], Spans(t)[j])
      {
        assert s[i] in s && t[j] in t;
      }
    } else {
      var c, d :| c in s && d in t && SpansOverlap(Span(c), Span(d));
      var i :| 0 <= i < |s| && s[i] == c;
      var j :| 0 <= j < |t| && t[j] == d;
      assert SpansOverlap(Spans(s)[i], Spans(t)[j]);
    }
  }

  /** The files, which others may change between a proposal and its approval. */
  class Disk {
    var files: map<string, string>
  }

  class EditStore {
    const disk: Disk
    var edits: map<nat, PendingEdit>
    var nextId: nat

    /** Ids are fresh, and a proposal made of edits holds what they make of its original. */
    ghost predicate Valid()
      reads this
    {
      forall id :: id in edits ==>
        && id < nextId && edits[id].id == id
        && (edits[id].edits != [] ==> ApplyEdits(edits[id].original, edits[id].edits) == Ok(edits[id].newContent))
    }

    constructor (disk: Disk)
      ensures Valid() && this.disk == disk && edits == map[] && nextId == 1
    {
      this.disk := disk;
      edits := map[];
      nextId := 1;
    }

    method Remember(e: PendingEdit)
      requires Valid() && e.id == nextId && e.status == Pending
      requires e.edits != [] ==> ApplyEdits(e.original, e.edits) == Ok(e.newContent)
      modifies this`edits, this`nextId
      ensures Valid() && nextId == old(nextId) + 1 && edits == old(edits)[old(nextId) := e]
    {
      edits := edits[nextId := e];
      nextId := nextId + 1;
    }

    /** Apply the edits in memory and store the proposal; the file is not touched. */
    method Propose(path: string, fileEdits: seq<FileEdit>) returns (r: Result<PendingEdit, StoreError>)
      requires Valid()
      modifies this`edits, this`nextId
      ensures Valid()
      ensures path !in disk.files ==> r == Err(MissingFile)
      ensures path in disk.files ==>
        r == match ApplyEdits(disk.files[path], fileEdits)
             case Err(e) => Err(e)
             case Ok(updated) => Ok(PendingEdit(old(nextId), path, disk.files[path], updated, fileEdits, Pending))
      ensures r.Ok? ==> nextId == old(nextId) + 1 && edits == old(edits)[old(nextId) := r.value]
      ensures r.Err? ==> nextId == old(nextId) && edits == old(edits)
    {
      if path !in disk.files {
        return Err(MissingFile);
      }
      var original := disk.files[path];
      var applied := Replay(original, fileEdits);
      if applied.Err? {
        return Err(applied.error);
      }
      var updated := applied.value;
      var e := PendingEdit(nextId, path, original, updated, fileEdits, Pending);
      Remember(e);
      return Ok(e);
    }

    /** Propose the complete new content of an existing file. */
    method ProposeReplace(path: string, content: string) returns (r: Result<PendingEdit, StoreError>)
      requires Valid()
      modifies this`edits, this`nextId
      ensures Valid()
      ensures r == if path !in disk.files then Err(MissingFile)
                   else if disk.files[path] == content then Err(SameContent)
                   else Ok(PendingEdit(old(nextId), path, disk.files[path], content, [], Pending))
      ensures r.Ok? ==> nextId == old(nextId) + 1 && edits == old(edits)[old(nextId) := r.value]
      ensures r.Err? ==> nextId == old(nextId) && edits == old(edits)
    {
      if path !in disk.files {
        return Err(MissingFile);
      }
      if disk.files[path] == content {
        return Err(SameContent);
      }
      var e := PendingEdit(nextId, path, disk.files[path], content, [], Pending);
      Remember(e);
      return Ok(e);
    }

    /** Write a pending edit, rebased when its file changed, or refuse and change nothing. */
    method Approve(id: nat, lines: Matcher<string>, chars: Matcher<char>) returns (r: Result<(), StoreError>)
      requires Valid() && SoundLines(lines) && SoundChars(chars)
      modifies this`edits, disk
      ensures Valid()
      ensures id !in old(edits) ==> r == Err(NoSuchEdit)
      ensures id in old(edits) && old(edits[id].status) != Pending ==> r == Err(AlreadyDecided)
      ensures id in old(edits) && old(edits[id].status) == Pending ==>
        var e := old(edits[id]);
        if e.path !in old(disk.files) then r == Err(MissingFile)
        else
          match Outcome(e, old(disk.files)[e.path], lines, chars)
          case Err(why) => r == Err(why)
          case Ok(content) =>
            && r == Ok(())
            && disk.files == old(disk.files)[e.path := content]
            && edits == old(edits)[id := e.(status := Applied)]
      ensures r.Err? ==> edits == old(edits) && disk.files == old(disk.files)
      ensures id in old(edits) && old(edits[id].status) == Pending && old(edits[id]).path in old(disk.files) ==>
        var e := old(edits[id]);
        var current := old(disk.files)[e.path];
        && (current == e.original ==> r == Ok(()) && disk.files == old(disk.files)[e.path := e.newContent])
        && (current != e.original && e.edits == [] ==> r == Err(StaleReplacement))
        && (current != e.original && r.Ok? ==>
              && ApplyEdits(current, e.edits) == Ok(disk.files[e.path])
              && Disjoint(ChangedScript(e.original, current, lines, chars),
                          ChangedScript(e.original, e.newContent, lines, chars)))
    {
      hide SoundLines, SoundChars, ChangedScript, ApplyExact;
      if id !in edits {
        return Err(NoSuchEdit);
      }
      var e := edits[id];
      if e.status != Pending {
        return Err(AlreadyDecided);
      }
      if e.path !in disk.files {
        return Err(MissingFile);
      }
      var current := disk.files[e.path];
      var updated := e.newContent;
      if current != e.original {
        if e.edits == [] {
          return Err(StaleReplacement);
        }
        var overlap := ChangesOverlap(e.original, current, e.newContent, lines, chars);
        if overlap {
          return Err(Overlapping);
        }
        var replayed := Replay(current, e.edits);
        if replayed.Err? {
          return Err(NotReplayable(replayed.error));
        }
        updated := replayed.value;
      }
      disk.files := disk.files[e.path := updated];
      edits := edits[id := e.(status := Applied)];
      return Ok(());
    }

    /** The loop of a proposal and of an approval's replay. */
    static method Replay(current: string, fileEdits: seq<FileEdit>) returns (r: Result<string, StoreError>)
      ensures r == ApplyEdits(current, fileEdits)
    {
      hide ApplyExact;
      var updated := current;
      assert fileEdits[..0] == [];
      for n := 0 to |fileEdits|
        invariant ApplyEdits(current, fileEdits[..n]) == Ok(updated)
      {
        ApplyEditsStep(current, fileEdits, n, updated);
        var next := ApplyExact(updated, fileEdits[n]);
        if next.Err? {
          return Err(next.error);
        }
        updated := next.value;
      }
      assert fileEdits[..|fileEdits|] == fileEdits;
      return Ok(updated);
    }

    /** Reject a pending edit; its file is not touched. */
    method Reject(id: nat) returns (r: Result<(), StoreError>)
      requires Valid()
      modifies this`edits
      ensures Valid()
      ensures id !in old(edits) ==> r == Err(NoSuchEdit)
      ensures id in old(edits) ==>
        r == if old(edits[id].status) != Pending then Err(AlreadyDecided) else Ok(())
      ensures edits == if r.Ok? then old(edits)[id := old(edits[id]).(status := Rejected)] else old(edits)
    {
      if id !in edits {
        return Err(NoSuchEdit);
      }
      if edits[id].status != Pending {
        return Err(AlreadyDecided);
      }
      edits := edits[id := edits[id].(status := Rejected)];
      return Ok(());
    }
  }
}
