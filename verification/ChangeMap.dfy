/**
 Which stretches of an original a modified text changes: a line diff first, refined to characters
 inside replaced blocks.
 */
module ChangeMap {
  import opened Text
  import opened Opcodes
  import opened EditScripts

  const MAX_CHARACTER_DIFF_CELLS: nat := 1_000_000

  // ----- lines -----

  /** What Python's `splitlines` takes as a line boundary. */
  predicate IsBoundary(c: char) {
    c == '\n' || c == '\r' || c as int == 0x0B || c as int == 0x0C
    || 0x1C <= c as int <= 0x1E || c as int == 0x85 || c as int == 0x2028 || c as int == 0x2029
  }

  /** Where the first line of a nonempty text ends; CR LF is one boundary. */
  function LineEnd(s: string): (k: nat)
    requires s != ""
    ensures 1 <= k <= |s|
  {
    if IsBoundary(s[0]) then if s[0] == '\r' && |s| > 1 && s[1] == '\n' then 2 else 1
    else if |s| == 1 then 1
    else 1 + LineEnd(s[1..])
  }

  /** `splitlines(keepends=True)`. */
  function SplitLines(s: string): (lines: seq<string>)
    ensures Join(lines) == s
    decreases |s|
  {
    if s == "" then []
    else
      var k := LineEnd(s);
      assert s == s[..k] + s[k..];
      [s[..k]] + SplitLines(s[k..])
  }

  /** Characters before line `n`. */
  function Offset(lines: seq<string>, n: nat): nat
    requires n <= |lines|
  {
    |Join(lines[..n])|
  }

  method LineOffsets(lines: seq<string>) returns (offsets: seq<nat>)
    ensures |offsets| == |lines| + 1
    ensures forall n :: 0 <= n <= |lines| ==> offsets[n] == Offset(lines, n)
  {
    offsets := [0];
    for n := 0 to |lines|
      invariant |offsets| == n + 1
      invariant forall m :: 0 <= m <= n ==> offsets[m] == Offset(lines, m)
    {
      offsets := offsets + [offsets[n] + |lines[n]|];
      OffsetNext(lines, n);
    }
  }

  lemma OffsetNext(lines: seq<string>, n: nat)
    requires n < |lines|
    ensures Offset(lines, n + 1) == Offset(lines, n) + |lines[n]|
  {
    assert lines[..n + 1] == lines[..n] + [lines[n]];
    JoinConcat(lines[..n], [lines[n]]);
    assert [lines[n]][1..] == [];
  }

  lemma OffsetSlice(lines: seq<string>, i: nat, k: nat)
    requires i <= k <= |lines|
    ensures Offset(lines, i) <= Offset(lines, k) <= |Join(lines)|
    ensures Join(lines)[Offset(lines, i)..Offset(lines, k)] == Join(lines[i..k])
  {
    assert lines[..k] == lines[..i] + lines[i..k];
    JoinConcat(lines[..i], lines[i..k]);
    assert lines == lines[..k] + lines[k..];
    JoinConcat(lines[..k], lines[k..]);
    hide Join;
    var x, y, z := Join(lines[..i]), Join(lines[i..k]), Join(lines[k..]);
    assert (x + y + z)[|x|..|x + y|] == y;
  }

  // ----- scripts from opcodes -----

  ghost predicate SoundChars(chars: Matcher<char>) {
    forall a, b :: Valid(chars(a, b), a, b)
  }

  ghost predicate SoundLines(lines: Matcher<string>) {
    forall a, b :: Valid(lines(a, b), a, b)
  }

  /** The change an opcode makes in a block that starts at `off`. */
  function CharChange(op: Opcode, a: string, b: string, off: nat): Script
    requires ValidOp(op, a, b)
  {
    if op.tag.Equal? then [] else [Change(off + op.i1, off + op.i2, b[op.j1..op.j2])]
  }

  function CharChanges(codes: seq<Opcode>, a: string, b: string, off: nat): Script
    requires AllValid(codes, a, b)
  {
    if codes == [] then [] else CharChange(codes[0], a, b, off) + CharChanges(codes[1..], a, b, off)
  }

  ghost function BlockScript(a: string, b: string, off: nat, chars: Matcher<char>): Script
    requires SoundChars(chars)
  {
    if |a| * |b| > MAX_CHARACTER_DIFF_CELLS then [Change(off, off + |a|, b)]
    else
      ChainAllValid(chars(a, b), a, b, 0, 0, |a|, |b|);
      CharChanges(chars(a, b), a, b, off)
  }

  /** The characters of lines `i..k`. */
  function Block(lines: seq<string>, i: nat, k: nat): string
    requires i <= k <= |lines|
  {
    OffsetSlice(lines, i, k);
    Join(lines)[Offset(lines, i)..Offset(lines, k)]
  }

  ghost function OpScript(op: Opcode, ol: seq<string>, ml: seq<string>, chars: Matcher<char>): Script
    requires SoundChars(chars) && ValidOp(op, ol, ml)
  {
    var lo, hi := Offset(ol, op.i1), Offset(ol, op.i2);
    OffsetSlice(ol, op.i1, op.i2);
    var text := Block(ml, op.j1, op.j2);
    if op.tag.Equal? then []
    else if !op.tag.Replace? then [Change(lo, hi, text)]
    else BlockScript(Block(ol, op.i1, op.i2), text, lo, chars)
  }

  ghost function LineScript(codes: seq<Opcode>, ol: seq<string>, ml: seq<string>, chars: Matcher<char>): Script
    requires SoundChars(chars) && AllValid(codes, ol, ml)
  {
    if codes == [] then [] else OpScript(codes[0], ol, ml, chars) + LineScript(codes[1..], ol, ml, chars)
  }

  /** The script the two-level diff finds from `original` to `modified`. */
  ghost function ChangedScript(original: string, modified: string, lines: Matcher<string>, chars: Matcher<char>): Script
    requires SoundLines(lines) && SoundChars(chars)
  {
    var ol, ml := SplitLines(original), SplitLines(modified);
    ChainAllValid(lines(ol, ml), ol, ml, 0, 0, |ol|, |ml|);
    LineScript(lines(ol, ml), ol, ml, chars)
  }

  function Spans(s: Script): (spans: seq<(nat, nat)>)
    ensures |spans| == |s| && forall k :: 0 <= k < |s| ==> spans[k] == Span(s[k])
  {
    if s == [] then [] else [Span(s[0])] + Spans(s[1..])
  }

  lemma {:induction false} SpansConcat(s: Script, t: Script)
    ensures Spans(s + t) == Spans(s) + Spans(t)
  {
    if s == [] {
      assert s + t == t;
    } else {
      assert (s + t)[1..] == s[1..] + t;
      SpansConcat(s[1..], t);
    }
  }

  lemma {:induction false} CharChangesSnoc(codes: seq<Opcode>, op: Opcode, a: string, b: string, off: nat)
    requires AllValid(codes, a, b) && ValidOp(op, a, b)
    ensures AllValid(codes + [op], a, b)
    ensures CharChanges(codes + [op], a, b, off) == CharChanges(codes, a, b, off) + CharChange(op, a, b, off)
  {
    hide ValidOp, CharChange;
    if codes == [] {
      assert codes + [op] == [op] && [op][1..] == [];
    } else {
      assert (codes + [op])[1..] == codes[1..] + [op];
      CharChangesSnoc(codes[1..], op, a, b, off);
    }
  }

  lemma {:induction false} LineScriptSnoc(codes: seq<Opcode>, op: Opcode, ol: seq<string>, ml: seq<string>, chars: Matcher<char>)
    requires SoundChars(chars) && AllValid(codes, ol, ml) && ValidOp(op, ol, ml)
    ensures AllValid(codes + [op], ol, ml)
    ensures LineScript(codes + [op], ol, ml, chars) == LineScript(codes, ol, ml, chars) + OpScript(op, ol, ml, chars)
  {
    hide ValidOp, OpScript, SoundChars;
    if codes == [] {
      assert codes + [op] == [op] && [op][1..] == [];
    } else {
      assert (codes + [op])[1..] == codes[1..] + [op];
      LineScriptSnoc(codes[1..], op, ol, ml, chars);
    }
  }

  // ----- the loops -----

  /** Refine a changed block to character spans when it is small enough. */
  method CharacterChangedSpans(a: string, b: string, off: nat, chars: Matcher<char>) returns (spans: seq<(nat, nat)>)
    requires SoundChars(chars)
    ensures spans == Spans(BlockScript(a, b, off, chars))
  {
    if |a| * |b| > MAX_CHARACTER_DIFF_CELLS {
      return [(off, off + |a|)];
    }
    var codes := chars(a, b);
    ChainAllValid(codes, a, b, 0, 0, |a|, |b|);
    NoChanges(a, b, off);
    hide SoundChars, Chain, CharChanges, CharChange, Spans, ValidOp, AllValid;
    spans := [];
    assert codes[..0] == [];
    for n := 0 to |codes|
      invariant AllValid(codes[..n], a, b)
      invariant spans == Spans(CharChanges(codes[..n], a, b, off))
    {
      var op := codes[n];
      assert codes[..n + 1] == codes[..n] + [op];
      AllValidAt(codes, n, a, b);
      CharChangesSnoc(codes[..n], op, a, b, off);
      SpansConcat(CharChanges(codes[..n], a, b, off), CharChange(op, a, b, off));
      SpansOfChange(op, a, b, off);
      if !op.tag.Equal? {
        spans := spans + [(off + op.i1, off + op.i2)];
      }
    }
    assert codes[..|codes|] == codes;
  }

  lemma NoChanges(a: string, b: string, off: nat)
    ensures AllValid([], a, b) && Spans(CharChanges([], a, b, off)) == []
  {
  }

  lemma AllValidAt<T>(codes: seq<Opcode>, n: nat, a: seq<T>, b: seq<T>)
    requires AllValid(codes, a, b) && n < |codes|
    ensures ValidOp(codes[n], a, b)
  {
  }

  lemma SpansOfChange(op: Opcode, a: string, b: string, off: nat)
    requires ValidOp(op, a, b)
    ensures Spans(CharChange(op, a, b, off)) == if op.tag.Equal? then [] else [(off + op.i1, off + op.i2)]
  {
  }

  lemma SpansOfOp(op: Opcode, ol: seq<string>, ml: seq<string>, chars: Matcher<char>)
    requires SoundChars(chars) && ValidOp(op, ol, ml)
    ensures Spans(OpScript(op, ol, ml, chars))
         == if op.tag.Equal? then []
            else if !op.tag.Replace? then [(Offset(ol, op.i1), Offset(ol, op.i2))]
            else Spans(BlockScript(Block(ol, op.i1, op.i2), Block(ml, op.j1, op.j2), Offset(ol, op.i1), chars))
  {
    OffsetSlice(ol, op.i1, op.i2);
    hide BlockScript, Offset, Block, SoundChars;
  }

  /** Map changes to character ranges of the original, in order. */
  method ChangedSpans(original: string, modified: string, lines: Matcher<string>, chars: Matcher<char>)
    returns (spans: seq<(nat, nat)>)
    requires SoundLines(lines) && SoundChars(chars)
    ensures spans == Spans(ChangedScript(original, modified, lines, chars))
  {
    hide BlockScript, SplitLines, Spans;
    var ol, ml := SplitLines(original), SplitLines(modified);
    var oo := LineOffsets(ol);
    var mo := LineOffsets(ml);
    var codes := lines(ol, ml);
    ChainAllValid(codes, ol, ml, 0, 0, |ol|, |ml|);
    NoScript(ol, ml, chars);
    hide SoundLines, SoundChars, Chain, Join, Offset, LineScript, OpScript, AllValid;
    spans := [];
    assert codes[..0] == [];
    for n := 0 to |codes|
      invariant AllValid(codes[..n], ol, ml)
      invariant spans == Spans(LineScript(codes[..n], ol, ml, chars))
    {
      var op := codes[n];
      assert codes[..n + 1] == codes[..n] + [op];
      AllValidAt(codes, n, ol, ml);
      LineScriptSnoc(codes[..n], op, ol, ml, chars);
      SpansConcat(LineScript(codes[..n], ol, ml, chars), OpScript(op, ol, ml, chars));
      SpansOfOp(op, ol, ml, chars);
      if op.tag.Equal? {
        continue;
      }
      OffsetSlice(ol, op.i1, op.i2);
      OffsetSlice(ml, op.j1, op.j2);
      var lo, hi := oo[op.i1], oo[op.i2];
      if !op.tag.Replace? {
        spans := spans + [(lo, hi)];
        continue;
      }
      var block := CharacterChangedSpans(original[lo..hi], modified[mo[op.j1]..mo[op.j2]], lo, chars);
      spans := spans + block;
    }
    assert codes[..|codes|] == codes;
  }

  lemma NoScript(ol: seq<string>, ml: seq<string>, chars: Matcher<char>)
    requires SoundChars(chars)
    ensures AllValid([], ol, ml) && Spans(LineScript([], ol, ml, chars)) == []
  {
  }

  // ----- the script is a change from the original to the modified text -----

  lemma CharChangeTurns(op: Opcode, o: string, a: string, b: string, off: nat)
    requires ValidOp(op, a, b) && off + |a| <= |o| && o[off..off + |a|] == a
    ensures Turns(o, off + op.i1, off + op.i2, CharChange(op, a, b, off), b[op.j1..op.j2])
  {
    hide Turns;
    if op.tag.Equal? {
      SliceOfSlice(o, off, off + |a|, op.i1, op.i2);
      TurnsNothing(o, off + op.i1, off + op.i2);
    } else {
      TurnsWhole(o, off + op.i1, off + op.i2, b[op.j1..op.j2]);
    }
  }

  lemma {:induction false} CharChangesTurn(codes: seq<Opcode>, o: string, a: string, b: string, off: nat, i: nat, j: nat)
    requires Chain(codes, a, b, i, j, |a|, |b|) && i <= |a| && j <= |b| && AllValid(codes, a, b)
    requires off + |a| <= |o| && o[off..off + |a|] == a
    ensures Turns(o, off + i, off + |a|, CharChanges(codes, a, b, off), b[j..])
  {
    hide Turns;
    if codes == [] {
      TurnsNothing(o, off + i, off + i);
      assert o[off + i..off + i] == "" && b[j..] == "";
    } else {
      var op := codes[0];
      CharChangesTurn(codes[1..], o, a, b, off, op.i2, op.j2);
      CharChangeTurns(op, o, a, b, off);
      hide Chain, CharChange;
      TurnsConcat(o, off + i, off + op.i2, off + |a|, CharChange(op, a, b, off), CharChanges(codes[1..], a, b, off),
                  b[j..op.j2], b[op.j2..]);
      assert b[j..op.j2] + b[op.j2..] == b[j..];
    }
  }

  lemma BlockTurns(o: string, a: string, b: string, off: nat, chars: Matcher<char>)
    requires SoundChars(chars) && off + |a| <= |o| && o[off..off + |a|] == a
    ensures Turns(o, off, off + |a|, BlockScript(a, b, off, chars), b)
  {
    hide Turns;
    if |a| * |b| > MAX_CHARACTER_DIFF_CELLS {
      TurnsWhole(o, off, off + |a|, b);
    } else {
      ChainAllValid(chars(a, b), a, b, 0, 0, |a|, |b|);
      CharChangesTurn(chars(a, b), o, a, b, off, 0, 0);
      assert b[0..] == b;
    }
  }

  lemma OpTurns(op: Opcode, ol: seq<string>, ml: seq<string>, chars: Matcher<char>)
    requires SoundChars(chars) && ValidOp(op, ol, ml)
    ensures Turns(Join(ol), Offset(ol, op.i1), Offset(ol, op.i2), OpScript(op, ol, ml, chars), Block(ml, op.j1, op.j2))
  {
    OffsetSlice(ol, op.i1, op.i2);
    OffsetSlice(ml, op.j1, op.j2);
    hide SoundChars, BlockScript, Offset, Join, Turns;
    var o, lo, hi := Join(ol), Offset(ol, op.i1), Offset(ol, op.i2);
    if op.tag.Equal? {
      TurnsNothing(o, lo, hi);
    } else if op.tag.Replace? {
      BlockTurns(o, o[lo..hi], Block(ml, op.j1, op.j2), lo, chars);
    } else {
      TurnsWhole(o, lo, hi, Block(ml, op.j1, op.j2));
    }
  }

  lemma BlockConcat(lines: seq<string>, i: nat, m: nat, k: nat)
    requires i <= m <= k <= |lines|
    ensures Block(lines, i, k) == Block(lines, i, m) + Block(lines, m, k)
  {
    OffsetSlice(lines, i, m);
    OffsetSlice(lines, m, k);
    hide Offset, Join;
    SplitSlice(Join(lines), Offset(lines, i), Offset(lines, m), Offset(lines, k));
  }

  lemma {:induction false} LineScriptTurns(
    codes: seq<Opcode>, ol: seq<string>, ml: seq<string>, i: nat, j: nat, chars: Matcher<char>)
    requires SoundChars(chars) && i <= |ol| && j <= |ml|
    requires Chain(codes, ol, ml, i, j, |ol|, |ml|) && AllValid(codes, ol, ml)
    ensures Turns(Join(ol), Offset(ol, i), Offset(ol, |ol|), LineScript(codes, ol, ml, chars), Block(ml, j, |ml|))
  {
    hide Turns, OpScript, SoundChars, Offset, Block;
    if codes == [] {
      EmptyBlocks(ol, ml);
    } else {
      var op := codes[0];
      LineScriptTurns(codes[1..], ol, ml, op.i2, op.j2, chars);
      OpTurns(op, ol, ml, chars);
      TurnsConcat(Join(ol), Offset(ol, i), Offset(ol, op.i2), Offset(ol, |ol|),
                  OpScript(op, ol, ml, chars), LineScript(codes[1..], ol, ml, chars),
                  Block(ml, j, op.j2), Block(ml, op.j2, |ml|));
      ChainBounds(codes[1..], ol, ml, op.i2, op.j2, |ol|, |ml|);
      BlockConcat(ml, j, op.j2, |ml|);
    }
  }

  lemma EmptyBlocks(ol: seq<string>, ml: seq<string>)
    ensures Turns(Join(ol), Offset(ol, |ol|), Offset(ol, |ol|), [], Block(ml, |ml|, |ml|))
  {
    OffsetSlice(ol, |ol|, |ol|);
    OffsetSlice(ml, |ml|, |ml|);
    TurnsNothing(Join(ol), Offset(ol, |ol|), Offset(ol, |ol|));
  }

  /**
   Whatever valid alignments the matchers pick, the spans are sorted, disjoint and in bounds, and
   are those of a script that turns the original into the modified text: outside them the two agree.
   */
  lemma ChangedScriptApplies(original: string, modified: string, lines: Matcher<string>, chars: Matcher<char>)
    requires SoundLines(lines) && SoundChars(chars)
    ensures var s := ChangedScript(original, modified, lines, chars);
      ValidIn(s, 0, |original|) && Patch(original, s) == modified
  {
    var ol, ml := SplitLines(original), SplitLines(modified);
    ChainAllValid(lines(ol, ml), ol, ml, 0, 0, |ol|, |ml|);
    LineScriptTurns(lines(ol, ml), ol, ml, 0, 0, chars);
    hide SoundLines, SoundChars, SplitLines, LineScript;
    OffsetSlice(ol, 0, |ol|);
    OffsetSlice(ml, 0, |ml|);
    assert ol[..|ol|] == ol && ml[..|ml|] == ml && ol[..0] == [] && ml[..0] == [];
    assert modified[0..|modified|] == modified;
  }
}
