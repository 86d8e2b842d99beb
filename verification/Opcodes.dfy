/**
 Edit scripts in the form Python's `difflib.SequenceMatcher` reports them.

 How the matcher aligns two sequences is a heuristic, so nothing here fixes it: a matcher is any
 function whose opcode lists are valid in the sense difflib documents.
 */
module Opcodes {

  datatype Tag = Equal | Replace | Delete | Insert

  /** `a[i1..i2]` becomes `b[j1..j2]`. */
  datatype Opcode = Opcode(tag: Tag, i1: nat, i2: nat, j1: nat, j2: nat)

  predicate ValidOp<T(==)>(op: Opcode, a: seq<T>, b: seq<T>) {
    && op.i1 <= op.i2 <= |a|
    && op.j1 <= op.j2 <= |b|
    && (op.tag.Equal? ==> a[op.i1..op.i2] == b[op.j1..op.j2])
    && (op.tag.Delete? ==> op.j1 == op.j2)
    && (op.tag.Insert? ==> op.i1 == op.i2)
  }

  /** The opcodes lead, without gaps, from `(i, j)` to `(iEnd, jEnd)`. */
  predicate Chain<T(==)>(codes: seq<Opcode>, a: seq<T>, b: seq<T>, i: nat, j: nat, iEnd: nat, jEnd: nat) {
    if codes == [] then i == iEnd && j == jEnd
    else
      && ValidOp(codes[0], a, b)
      && codes[0].i1 == i && codes[0].j1 == j
      && Chain(codes[1..], a, b, codes[0].i2, codes[0].j2, iEnd, jEnd)
  }

  predicate Valid<T(==)>(codes: seq<Opcode>, a: seq<T>, b: seq<T>) {
    Chain(codes, a, b, 0, 0, |a|, |b|)
  }

  type Matcher<!T> = (seq<T>, seq<T>) -> seq<Opcode>

  ghost predicate Sound<T(!new)>(matcher: Matcher<T>) {
    forall a, b :: Valid(matcher(a, b), a, b)
  }

  lemma {:induction false} ChainBounds<T>(codes: seq<Opcode>, a: seq<T>, b: seq<T>, i: nat, j: nat, iEnd: nat, jEnd: nat)
    requires i <= |a| && j <= |b|
    requires Chain(codes, a, b, i, j, iEnd, jEnd)
    ensures i <= iEnd <= |a| && j <= jEnd <= |b|
  {
    if codes != [] {
      ChainBounds(codes[1..], a, b, codes[0].i2, codes[0].j2, iEnd, jEnd);
    }
  }

  predicate AllValid<T(==)>(codes: seq<Opcode>, a: seq<T>, b: seq<T>) {
    forall k :: 0 <= k < |codes| ==> ValidOp(codes[k], a, b)
  }

  lemma {:induction false} ChainAllValid<T>(codes: seq<Opcode>, a: seq<T>, b: seq<T>, i: nat, j: nat, iEnd: nat, jEnd: nat)
    requires Chain(codes, a, b, i, j, iEnd, jEnd)
    ensures AllValid(codes, a, b)
  {
    if codes != [] {
      ChainAllValid(codes[1..], a, b, codes[0].i2, codes[0].j2, iEnd, jEnd);
    }
  }

  lemma {:induction false} ChainConcat<T>(
    c: seq<Opcode>, d: seq<Opcode>, a: seq<T>, b: seq<T>, i: nat, j: nat, iMid: nat, jMid: nat, iEnd: nat, jEnd: nat)
    requires Chain(c, a, b, i, j, iMid, jMid) && Chain(d, a, b, iMid, jMid, iEnd, jEnd)
    ensures Chain(c + d, a, b, i, j, iEnd, jEnd)
  {
    if c == [] {
      assert c + d == d;
    } else {
      assert (c + d)[1..] == c[1..] + d;
      ChainConcat(c[1..], d, a, b, c[0].i2, c[0].j2, iMid, jMid, iEnd, jEnd);
    }
  }
}
