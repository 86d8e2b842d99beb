/**
 Where the text of a changed file comes from, and when a replayed edit rewrites the very block it was
 meant for: exactly when the file's changes leave the block whole, it is counted once, and no other
 match lies further left.
 */
module SurvivingBlocks {
  import opened Wrappers
  import opened EditScripts
  import opened Editing
  import opened ThreeWayMerge

  // ----- survival -----

  /** A change that changes nothing. */
  predicate Idle(c: Change) {
    c.lo == c.hi && c.text == ""
  }

  /** No change reaches into `lo..hi`; insertions at either end are no matter. */
  predicate Survives(s: Script, lo: nat, hi: nat) {
    forall c :: c in s ==> Idle(c) || c.hi <= lo || hi <= c.lo
  }

  predicate Effective(s: Script) {
    forall c :: c in s ==> !Idle(c)
  }

  // ----- origins -----

  function Copied(from: nat, to: nat): seq<Option<nat>>
    requires from <= to
  {
    seq(to - from, i requires 0 <= i => Some(from + i))
  }

  function Inserted(n: nat): seq<Option<nat>> {
    seq(n, _ => None)
  }

  /** For every character of the changed text, where in the original it stood, if anywhere. */
  function Origins(s: Script, from: nat, to: nat): seq<Option<nat>>
    requires ValidIn(s, from, to)
    decreases s
  {
    if s == [] then Copied(from, to)
    else Copied(from, s[0].lo) + Inserted(|s[0].text|) + Origins(s[1..], s[0].hi, to)
  }

  lemma OriginsStep(s: Script, from: nat, to: nat)
    requires ValidIn(s, from, to) && s != []
    ensures from <= s[0].lo <= s[0].hi <= to && ValidIn(s[1..], s[0].hi, to)
    ensures Origins(s, from, to) == Copied(from, s[0].lo) + (Inserted(|s[0].text|) + Origins(s[1..], s[0].hi, to))
  {
    ValidBounds(s, from, to);
    Regroup(Copied(from, s[0].lo), Inserted(|s[0].text|), Origins(s[1..], s[0].hi, to));
  }

  lemma Regroup(a: seq<Option<nat>>, b: seq<Option<nat>>, c: seq<Option<nat>>)
    ensures (a + b) + c == a + (b + c)
  {
  }

  /** Each character with an origin is the original's character there, between `from` and `to`. */
  predicate Tells(origins: seq<Option<nat>>, text: string, o: string, from: nat, to: nat) {
    && |origins| == |text| && to <= |o|
    && forall i :: 0 <= i < |origins| && origins[i].Some? ==>
      from <= origins[i].value < to && text[i] == o[origins[i].value]
  }

  lemma TellsConcat(a: seq<Option<nat>>, b: seq<Option<nat>>, x: string, y: string, o: string, from: nat, mid: nat, to: nat)
    requires Tells(a, x, o, from, to) && Tells(b, y, o, mid, to) && from <= mid
    ensures Tells(a + b, x + y, o, from, to)
  {
  }

  lemma TellsBase(o: string, from: nat, mid: nat, to: nat, text: string)
    requires from <= mid <= to <= |o|
    ensures Tells(Copied(from, mid), o[from..mid], o, from, to) && Tells(Inserted(|text|), text, o, from, to)
  {
  }

  lemma OriginsNothing(o: string, from: nat, to: nat)
    requires from <= to <= |o|
    ensures Origins([], from, to) == Copied(from, to) && PatchTo(o, from, to, []) == o[from..to]
  {
  }

  /** The origins are what they say. */
  lemma {:induction false} OriginsTell(o: string, s: Script, from: nat, to: nat)
    requires ValidIn(s, from, to) && to <= |o|
    ensures Tells(Origins(s, from, to), PatchTo(o, from, to, s), o, from, to)
    decreases s
  {
    ValidBounds(s, from, to);
    hide *;
    if s == [] {
      OriginsNothing(o, from, to);
      TellsBase(o, from, to, to, "");
    } else {
      OriginsStep(s, from, to);
      PatchStep(o, from, to, s);
      var c := s[0];
      var deep, text := Origins(s[1..], c.hi, to), PatchTo(o, c.hi, to, s[1..]);
      OriginsTell(o, s[1..], c.hi, to);
      TellsBase(o, from, c.lo, to, c.text);
      TellsConcat(Inserted(|c.text|), deep, c.text, text, o, from, c.hi, to);
      TellsConcat(Copied(from, c.lo), Inserted(|c.text|) + deep, o[from..c.lo], c.text + text, o, from, from, to);
    }
  }

  /** From index `k` on, the text is the stretch of `len` characters that stood at `place`. */
  predicate CarriesAt(origins: seq<Option<nat>>, place: nat, len: nat, k: nat) {
    k + len <= |origins| && origins[k..k + len] == Copied(place, place + len)
  }

  lemma OriginsBound(s: Script, from: nat, to: nat)
    requires ValidIn(s, from, to)
    ensures forall i :: 0 <= i < |Origins(s, from, to)| && Origins(s, from, to)[i].Some? ==>
      from <= Origins(s, from, to)[i].value
    decreases s
  {
    if s != [] {
      OriginsBound(s[1..], s[0].hi, to);
    }
  }

  lemma CarriesMeans(origins: seq<Option<nat>>, place: nat, len: nat, k: nat, j: nat)
    requires CarriesAt(origins, place, len, k) && j < len
    ensures k + j < |origins| && origins[k + j] == Some(place + j)
  {
    assert origins[k..k + len][j] == origins[k + j];
  }

  /** A stretch found whole in the text was left whole, and stands right behind what was made of the text before it. */
  lemma {:induction false} CarriedSurvives(
    o: string, s: Script, from: nat, to: nat, place: nat, len: nat, k: nat)
    requires ValidIn(s, from, to) && to <= |o| && Effective(s) && len > 0
    requires CarriesAt(Origins(s, from, to), place, len, k)
    ensures Survives(s, place, place + len) && AheadFits(s, from, place) && from <= place <= |o|
    ensures k == |Ahead(o, from, s, place)|
    decreases s
  {
    ValidBounds(s, from, to);
    ValidFits(s, place, from, to);
    OriginsBound(s, from, to);
    CarriesMeans(Origins(s, from, to), place, len, k, 0);
    if s == [] {
    } else {
      var c, rest := s[0], s[1..];
      ValidBounds(rest, c.hi, to);
      OriginsBound(rest, c.hi, to);
      var front := (c.lo - from) + |c.text|;
      if k < c.lo - from {
        CarriedBefore(s, from, to, place, len, k);
        LaterOn(s, from, to);
      } else {
        CarriedBehind(s, from, to, place, len, k);
        CarriedSurvives(o, rest, c.hi, to, place, len, k - front);
      }
    }
  }

  /** The changes after the first begin no earlier than it ends. */
  lemma {:induction false} LaterOn(s: Script, from: nat, to: nat)
    requires ValidIn(s, from, to) && s != []
    ensures forall d :: d in s ==> s[0].lo <= d.lo
    ensures forall d :: d in s[1..] ==> s[0].hi <= d.lo
    decreases s
  {
    if s[1..] != [] {
      LaterOn(s[1..], s[0].hi, to);
      assert forall d :: d in s[1..] ==> s[1..][0].lo <= d.lo;
    }
    assert forall d :: d in s ==> d == s[0] || d in s[1..];
  }

  /** Where the first change leaves its mark: copies before it, none of its own, and no copy of its start. */
  lemma OriginsParts(s: Script, from: nat, to: nat)
    requires ValidIn(s, from, to) && s != []
    ensures var g, n := Origins(s, from, to), s[0].lo - from;
      && n + |s[0].text| <= |g|
      && (forall i :: 0 <= i < n ==> g[i] == Some(from + i))
      && (forall i :: n <= i < n + |s[0].text| ==> g[i] == None)
      && (!Idle(s[0]) && n < |g| ==> g[n] != Some(s[0].lo))
  {
    ValidBounds(s[1..], s[0].hi, to);
    OriginsBound(s[1..], s[0].hi, to);
  }

  lemma OriginsSplit(s: Script, from: nat, to: nat)
    requires ValidIn(s, from, to) && s != []
    ensures var g, front := Origins(s, from, to), (s[0].lo - from) + |s[0].text|;
      front <= |g| && g[front..] == Origins(s[1..], s[0].hi, to)
  {
    ValidBounds(s[1..], s[0].hi, to);
  }

  lemma CarriedBefore(s: Script, from: nat, to: nat, place: nat, len: nat, k: nat)
    requires ValidIn(s, from, to) && s != [] && !Idle(s[0]) && len > 0
    requires CarriesAt(Origins(s, from, to), place, len, k) && k < s[0].lo - from
    ensures place == from + k && place + len <= s[0].lo
  {
    var c, g := s[0], Origins(s, from, to);
    CarriesMeans(g, place, len, k, 0);
    OriginsParts(s, from, to);
    hide Origins, CarriesAt, Idle;
    if place + len > c.lo {
      CarriesMeans(g, place, len, k, c.lo - place);
    }
  }

  lemma CarriedBehind(s: Script, from: nat, to: nat, place: nat, len: nat, k: nat)
    requires ValidIn(s, from, to) && s != [] && len > 0
    requires CarriesAt(Origins(s, from, to), place, len, k) && k >= s[0].lo - from
    ensures var front := (s[0].lo - from) + |s[0].text|;
      k >= front && CarriesAt(Origins(s[1..], s[0].hi, to), place, len, k - front)
    ensures s[0].hi <= place
  {
    var g := Origins(s, from, to);
    CarriesMeans(g, place, len, k, 0);
    OriginsParts(s, from, to);
    OriginsSplit(s, from, to);
    ValidBounds(s[1..], s[0].hi, to);
    OriginsBound(s[1..], s[0].hi, to);
    var front, rest := (s[0].lo - from) + |s[0].text|, Origins(s[1..], s[0].hi, to);
    hide Origins, Copied;
    assert k >= front;
    assert rest[k - front..k - front + len] == g[k..k + len];
  }

  /** A stretch left whole is found whole there. */
  lemma {:induction false} SurvivesCarried(o: string, s: Script, from: nat, to: nat, place: nat, len: nat)
    requires ValidIn(s, from, to) && to <= |o| && Effective(s) && from <= place && place + len <= to && len > 0
    requires Survives(s, place, place + len)
    ensures AheadFits(s, from, place) && CarriesAt(Origins(s, from, to), place, len, |Ahead(o, from, s, place)|)
    decreases s
  {
    ValidFits(s, place, from, to);
    hide *;
    if s == [] || s[0].hi > place {
      CarriedInFront(o, s, from, to, place, len);
    } else {
      OriginsStep(s, from, to);
      RestSurvives(s, place, len);
      SurvivesCarried(o, s[1..], s[0].hi, to, place, len);
      AheadStep(o, s, from, place);
      CarriedLater(s, from, to, place, len, |Ahead(o, s[0].hi, s[1..], place)|);
    }
  }

  lemma RestSurvives(s: Script, place: nat, len: nat)
    requires s != [] && Effective(s) && Survives(s, place, place + len)
    ensures Effective(s[1..]) && Survives(s[1..], place, place + len)
  {
  }

  /** The first change, if any, lies behind the stretch. */
  lemma CarriedInFront(o: string, s: Script, from: nat, to: nat, place: nat, len: nat)
    requires ValidIn(s, from, to) && to <= |o| && Effective(s) && from <= place && place + len <= to
    requires Survives(s, place, place + len) && AheadFits(s, from, place) && (s != [] ==> s[0].hi > place)
    ensures CarriesAt(Origins(s, from, to), place, len, |Ahead(o, from, s, place)|)
  {
    var g := Origins(s, from, to);
    if s == [] {
      CopiedPart(from, to, place, len);
    } else {
      var c := s[0];
      assert c in s;
      OriginsStep(s, from, to);
      CopiedPart(from, c.lo, place, len);
      hide Survives, Effective, Origins;
      assert g[place - from..place - from + len] == Copied(from, c.lo)[place - from..place - from + len];
    }
  }

  lemma CarriedLater(s: Script, from: nat, to: nat, place: nat, len: nat, k: nat)
    requires ValidIn(s, from, to) && s != [] && s[0].hi <= to && ValidIn(s[1..], s[0].hi, to)
    requires CarriesAt(Origins(s[1..], s[0].hi, to), place, len, k)
    ensures s[0].lo >= from && CarriesAt(Origins(s, from, to), place, len, (s[0].lo - from) + |s[0].text| + k)
  {
    OriginsSplit(s, from, to);
    var g, front := Origins(s, from, to), (s[0].lo - from) + |s[0].text|;
    hide Origins, ValidIn, Copied;
    assert g[front + k..front + k + len] == g[front..][k..k + len];
  }

  lemma AheadStep(o: string, s: Script, from: nat, place: nat)
    requires from <= place <= |o| && AheadFits(s, from, place) && s != [] && s[0].hi <= place
    ensures AheadFits(s[1..], s[0].hi, place)
    ensures |Ahead(o, from, s, place)| == (s[0].lo - from) + |s[0].text| + |Ahead(o, s[0].hi, s[1..], place)|
  {
  }

  lemma CopiedPart(from: nat, to: nat, place: nat, len: nat)
    requires from <= place && place + len <= to
    ensures Copied(from, to)[place - from..place - from + len] == Copied(place, place + len)
  {
  }

  lemma SurvivesSeparate(s: Script, place: nat, len: nat, text: string)
    requires Proper(s) && Effective(s) && len > 0
    ensures Survives(s, place, place + len) <==> Separate(s, [Change(place, place + len, text)])
  {
    var d := Change(place, place + len, text);
    assert d in [d];
    if Survives(s, place, place + len) {
      forall c, e | c in s && e in [d]
        ensures Ordered(c, e)
      {
      }
    }
    if Separate(s, [d]) {
      forall c | c in s
        ensures Idle(c) || c.hi <= place || place + len <= c.lo
      {
        assert Ordered(c, d);
      }
    }
  }

  // ----- idle changes -----

  /** The changes that change something. */
  function Busy(s: Script): Script {
    if s == [] then [] else (if Idle(s[0]) then [] else [s[0]]) + Busy(s[1..])
  }

  lemma {:induction false} BusyElements(s: Script)
    ensures forall c :: c in Busy(s) <==> c in s && !Idle(c)
  {
    if s != [] {
      BusyElements(s[1..]);
      assert forall c :: c in s <==> c == s[0] || c in s[1..];
    }
  }

  /** Leaving out idle changes leaves text and origins as they are. */
  lemma {:induction false} BusyIsEnough(o: string, s: Script, from: nat, to: nat)
    requires ValidIn(s, from, to) && to <= |o|
    ensures ValidIn(Busy(s), from, to)
    ensures PatchTo(o, from, to, Busy(s)) == PatchTo(o, from, to, s)
    ensures Origins(Busy(s), from, to) == Origins(s, from, to)
    decreases s
  {
    ValidBounds(s, from, to);
    if s != [] {
      var c, rest := s[0], s[1..];
      ValidBounds(rest, c.hi, to);
      BusyIsEnough(o, rest, c.hi, to);
      if Idle(c) {
        SkipTo(o, from, c.lo, to, Busy(rest));
        OriginsSkip(Busy(rest), from, c.lo, to);
        assert [] + Busy(rest) == Busy(rest) && Inserted(0) == [];
      } else {
        assert ([c] + Busy(rest))[1..] == Busy(rest);
      }
    }
  }

  lemma OriginsSkip(s: Script, from: nat, mid: nat, to: nat)
    requires from <= mid && ValidIn(s, mid, to)
    ensures mid <= to && ValidIn(s, from, to)
    ensures Origins(s, from, to) == Copied(from, mid) + Origins(s, mid, to)
  {
    ValidBounds(s, mid, to);
    if s == [] {
      CopiedSplit(from, mid, to);
    } else {
      CopiedSplit(from, mid, s[0].lo);
      OriginsStep(s, from, to);
      OriginsStep(s, mid, to);
      hide Origins, Copied, Inserted;
      Regroup(Copied(from, mid), Copied(mid, s[0].lo), Inserted(|s[0].text|) + Origins(s[1..], s[0].hi, to));
    }
  }

  lemma CopiedSplit(from: nat, mid: nat, to: nat)
    requires from <= mid <= to
    ensures Copied(from, to) == Copied(from, mid) + Copied(mid, to)
  {
  }

  // ----- the theorem -----

  /**
   The replayed edit rewrites the block that stood at `place`, and nothing else: some stretch of the
   changed text is that block, and for every replacement it is the one replaced.
   */
  ghost predicate RewritesBlock(o: string, s: Script, find: string, place: nat)
    requires ValidIn(s, 0, |o|)
  {
    exists k :: RewrittenAt(o, s, find, place, k)
  }

  ghost predicate RewrittenAt(o: string, s: Script, find: string, place: nat, k: nat)
    requires ValidIn(s, 0, |o|)
  {
    CarriesAt(Origins(s, 0, |o|), place, |find|, k) && ReplacesAt(Patch(o, s), find, k)
  }

  /** Whatever the replacement, it is put for the `find`'s worth of characters at `k`. */
  ghost predicate ReplacesAt(current: string, find: string, k: nat) {
    k + |find| <= |current| && forall replace ::
      ApplyExact(current, FileEdit(find, replace)) == Ok(current[..k] + replace + current[k + |find|..])
  }

  lemma ReplacesExactly(current: string, find: string, k: nat)
    requires OccursAt(current, find, k)
    ensures ReplacesAt(current, find, k) <==> Count(current, find) == 1 && Find(current, find) == Some(k)
  {
    hide Count, Find, ApplyExact;
    var ahead, rest := current[..k], current[k + |find|..];
    assert current == ahead + find + rest;
    AppliesAtIntendedPlace(ahead, find, rest);
  }

  /** Where the block has moved to, if the changes leave it whole. */
  function MovedTo(o: string, s: Script, place: nat): nat
    requires ValidIn(s, 0, |o|) && place <= |o|
  {
    BusyIsEnough(o, s, 0, |o|);
    ValidFits(Busy(s), place, 0, |o|);
    |Ahead(o, 0, Busy(s), place)|
  }

  /**
   One edit, replayed on a changed file, rewrites the very block it was meant for, whatever the
   replacement, exactly when the changes leave the block whole, it is counted once, and the leftmost
   match is where it has moved to.
   */
  lemma RewritesExactly(o: string, s: Script, find: string, place: nat)
    requires ValidIn(s, 0, |o|) && OccursAt(o, find, place) && find != ""
    ensures RewritesBlock(o, s, find, place)
      <==> && Survives(s, place, place + |find|)
           && Count(Patch(o, s), find) == 1 && Find(Patch(o, s), find) == Some(MovedTo(o, s, place))
  {
    Within(o, find, place);
    hide *;
    if RewritesBlock(o, s, find, place) {
      RewritingNeeds(o, s, find, place);
    }
    if Survives(s, place, place + |find|)
      && Count(Patch(o, s), find) == 1 && Find(Patch(o, s), find) == Some(MovedTo(o, s, place)) {
      SurvivorIsCarried(o, s, find, place);
      CarriedText(o, s, find, place, MovedTo(o, s, place));
      ReplacesExactly(Patch(o, s), find, MovedTo(o, s, place));
      RewrittenThere(o, s, find, place, MovedTo(o, s, place));
    }
  }

  lemma Within(o: string, find: string, place: nat)
    requires OccursAt(o, find, place)
    ensures place + |find| <= |o|
  {
  }

  lemma RewrittenThere(o: string, s: Script, find: string, place: nat, k: nat)
    requires ValidIn(s, 0, |o|)
    requires CarriesAt(Origins(s, 0, |o|), place, |find|, k) && ReplacesAt(Patch(o, s), find, k)
    ensures RewritesBlock(o, s, find, place)
  {
    assert RewrittenAt(o, s, find, place, k);
  }

  lemma RewritingNeeds(o: string, s: Script, find: string, place: nat)
    requires ValidIn(s, 0, |o|) && OccursAt(o, find, place) && find != "" && RewritesBlock(o, s, find, place)
    ensures Survives(s, place, place + |find|)
    ensures Count(Patch(o, s), find) == 1 && Find(Patch(o, s), find) == Some(MovedTo(o, s, place))
  {
    var k :| RewrittenAt(o, s, find, place, k);
    hide *;
    Rewritten(o, s, find, place, k);
    CarriedIsSurvivor(o, s, place, |find|, k);
    CarriedText(o, s, find, place, k);
    ReplacesExactly(Patch(o, s), find, k);
  }

  lemma Rewritten(o: string, s: Script, find: string, place: nat, k: nat)
    requires ValidIn(s, 0, |o|) && OccursAt(o, find, place) && RewrittenAt(o, s, find, place, k)
    ensures CarriesAt(Origins(s, 0, |o|), place, |find|, k) && ReplacesAt(Patch(o, s), find, k)
    ensures place + |find| <= |o|
  {
  }

  lemma CarriedIsSurvivor(o: string, s: Script, place: nat, len: nat, k: nat)
    requires ValidIn(s, 0, |o|) && len > 0 && place + len <= |o| && CarriesAt(Origins(s, 0, |o|), place, len, k)
    ensures Survives(s, place, place + len) && k == MovedTo(o, s, place)
  {
    BusyIsEnough(o, s, 0, |o|);
    BusyElements(s);
    hide Busy, Origins, CarriesAt, ValidIn, PatchTo, Ahead, AheadFits;
    CarriedSurvives(o, Busy(s), 0, |o|, place, len, k);
  }

  lemma SurvivorIsCarried(o: string, s: Script, find: string, place: nat)
    requires ValidIn(s, 0, |o|) && OccursAt(o, find, place) && find != "" && Survives(s, place, place + |find|)
    ensures place <= |o| && CarriesAt(Origins(s, 0, |o|), place, |find|, MovedTo(o, s, place))
  {
    BusyIsEnough(o, s, 0, |o|);
    BusyElements(s);
    hide Busy, Origins, CarriesAt, ValidIn, PatchTo, Ahead, AheadFits;
    SurvivesCarried(o, Busy(s), 0, |o|, place, |find|);
  }

  /** What came from the block reads as the block. */
  lemma CarriedText(o: string, s: Script, find: string, place: nat, k: nat)
    requires ValidIn(s, 0, |o|) && OccursAt(o, find, place)
    requires CarriesAt(Origins(s, 0, |o|), place, |find|, k)
    ensures OccursAt(Patch(o, s), find, k)
  {
    OriginsTell(o, s, 0, |o|);
    var g, current := Origins(s, 0, |o|), Patch(o, s);
    forall j | 0 <= j < |find|
      ensures current[k..k + |find|][j] == find[j]
    {
      CarriesMeans(g, place, |find|, k, j);
      assert o[place..place + |find|][j] == find[j];
    }
  }

  /** And then the text is the three-way merge of the changes and the replacement. */
  lemma RewritingMerges(o: string, s: Script, find: string, place: nat, replace: string)
    requires ValidIn(s, 0, |o|) && OccursAt(o, find, place) && find != "" && RewritesBlock(o, s, find, place)
    ensures var b, t := Busy(s), [Change(place, place + |find|, replace)];
      && ValidIn(b, 0, |o|) && ValidIn(t, 0, |o|) && Separate(b, t)
      && ApplyExact(Patch(o, s), FileEdit(find, replace)) == Ok(ThreeWay(o, b, t))
  {
    Within(o, find, place);
    RewritingNeeds(o, s, find, place);
    BusySeparate(o, s, place, |find|, replace);
    MovedToIs(o, s, place);
    hide *;
    ReplayMerges(o, Busy(s), find, place, replace);
  }

  lemma ReplayMerges(o: string, b: Script, find: string, place: nat, replace: string)
    requires ValidIn(b, 0, |o|) && OccursAt(o, find, place) && place <= |o| && AheadFits(b, 0, place)
    requires ValidIn([Change(place, place + |find|, replace)], 0, |o|)
    requires Separate(b, [Change(place, place + |find|, replace)])
    requires Count(Patch(o, b), find) == 1 && Find(Patch(o, b), find) == Some(|Ahead(o, 0, b, place)|)
    ensures ApplyExact(Patch(o, b), FileEdit(find, replace)) == Ok(ThreeWay(o, b, [Change(place, place + |find|, replace)]))
  {
    hide *;
    EditChangeIs(find, replace, place);
    ReplayOne(o, b, FileEdit(find, replace), place);
    MergeIs(o, b, [Change(place, place + |find|, replace)]);
  }

  lemma EditChangeIs(find: string, replace: string, place: nat)
    ensures EditChange(FileEdit(find, replace), place) == Change(place, place + |find|, replace)
  {
  }

  lemma MergeIs(o: string, s: Script, t: Script)
    requires ValidIn(s, 0, |o|) && ValidIn(t, 0, |o|) && Separate(s, t)
    ensures ValidIn(Merge(s, t), 0, |o|) && ThreeWay(o, s, t) == Patch(o, Merge(s, t))
  {
    hide Merge, PatchTo, Separate;
    MergeValid(s, t, 0, |o|);
  }

  lemma MovedToIs(o: string, s: Script, place: nat)
    requires ValidIn(s, 0, |o|) && place <= |o|
    ensures AheadFits(Busy(s), 0, place) && MovedTo(o, s, place) == |Ahead(o, 0, Busy(s), place)|
    ensures ValidIn(Busy(s), 0, |o|) && Patch(o, Busy(s)) == Patch(o, s)
  {
    BusyIsEnough(o, s, 0, |o|);
    ValidFits(Busy(s), place, 0, |o|);
  }

  lemma BusySeparate(o: string, s: Script, place: nat, len: nat, text: string)
    requires ValidIn(s, 0, |o|) && len > 0 && place + len <= |o| && Survives(s, place, place + len)
    ensures ValidIn([Change(place, place + len, text)], 0, |o|)
    ensures Separate(Busy(s), [Change(place, place + len, text)])
  {
    BusyIsEnough(o, s, 0, |o|);
    BusyElements(s);
    ValidProper(Busy(s), 0, |o|);
    hide Busy, PatchTo, Origins;
    SurvivesSeparate(Busy(s), place, len, text);
    assert [Change(place, place + len, text)][1..] == [];
  }

  /** An empty find-block names no block; it is taken only in an empty file. */
  lemma EmptyBlock(content: string, replace: string)
    ensures ApplyExact(content, FileEdit("", replace)).Ok? <==> content == ""
    ensures content == "" ==> ApplyExact(content, FileEdit("", replace)) == Ok(replace)
  {
    if content == "" {
      assert Count("", "") == 1 && Find("", "") == Some(0);
      assert content[..0] + replace + content[0..] == replace;
    }
  }
}
