/**
 The creation of the VM beside the protocol.  Creation holds no guard: when its host script returns it
 stores the manifest it began with, now as created, through the same pending file as everyone else.
 The status goes back exactly when that overtakes a retirement.
 */
module LiveCreation {
  import opened Wrappers
  import opened Preparation
  import opened PreparationSafety
  import opened PreparationProgress

  // ----- the creator -----

  /** `Stopped(left)`: it failed or died, and has `left` its pending file or not. */
  datatype Creator = Creating | Writing | Written | Returned | Stopped(left: bool)

  predicate Live(c: Creator) {
    c.Creating? || c.Writing? || c.Written?
  }

  /** The pending file in the directory is the creator's. */
  predicate Owns(c: Creator) {
    c.Writing? || c.Written? || c == Stopped(true)
  }

  /** The protocol's state, the creator, and the manifest that it stores. */
  datatype World = World(sys: System, creator: Creator, made: Manifest)

  datatype Act =
    | Other(step: Step) // a caller's or the operator's step
    | Make              // the host script has returned: create manifest.pending exclusively
    | Fill              // write and flush it
    | Put               // replace the manifest by it
    | Stop              // an exception or a crash

  function WithDir(w: World, d: Dir, c: Creator): World {
    w.(sys := w.sys.(dir := d), creator := c)
  }

  function Onward(w: World, act: Act): Option<World> {
    var d := w.sys.dir;
    match act
    case Other(step) =>
      (match Next(w.sys, step)
       case None => None
       case Some(s) => Some(w.(sys := s)))
    case Make =>
      if !w.creator.Creating? then None
      else if !d.pending.Absent? then Some(w.(creator := Stopped(false)))
      else Some(WithDir(w, d.(pending := Torn), Writing))
    case Fill =>
      if !w.creator.Writing? then None else Some(WithDir(w, d.(pending := Full(w.made)), Written))
    case Put =>
      if !w.creator.Written? || !d.pending.Full? then None
      else Some(WithDir(w, d.(manifest := d.pending.value, pending := Absent), Returned))
    case Stop => if Live(w.creator) then Some(w.(creator := Stopped(Owns(w.creator)))) else None
  }

  function Play(w: World, acts: seq<Act>): Option<World>
    decreases |acts|
  {
    if acts == [] then Some(w)
    else
      match Play(w, acts[..|acts| - 1])
      case None => None
      case Some(v) => Onward(v, acts[|acts| - 1])
  }

  /** The host script is running, and nobody else has begun. */
  predicate Begins(w: World) {
    && Init(w.sys) && w.sys.dir.manifest.status.ProvisioningUnknown?
    && w.creator.Creating? && w.made == w.sys.dir.manifest.(status := Created)
  }

  // ----- the invariant, as long as the status has not gone back -----

  /** The manifest creation began with. */
  function First(w: World): Manifest {
    w.made.(status := ProvisioningUnknown)
  }

  function WithManifest(s: System, m: Manifest): System {
    s.(dir := s.dir.(manifest := m))
  }

  function WithPending(s: System, p: File<Manifest>): System {
    s.(dir := s.dir.(pending := p))
  }

  /** Past reading the manifest and not yet past marking it. */
  predicate HasRead(pc: Pc) {
    || (pc.Probing? && pc.seen.Some?) || pc.ClaimMade?
    || ((pc.Ready? || pc.PendingMade? || pc.PendingFull?) && pc.phase.Before?)
  }

  /** The guard's holder retires what it read as still provisioning. */
  predicate Stale(s: System) {
    && s.dir.guard.Some? && s.dir.guard.value in s.callers
    && s.callers[s.dir.guard.value].kind == Retire(ProvisioningUnknown)
    && HasRead(s.callers[s.dir.guard.value].pc)
  }

  predicate Plain(w: World) {
    !Owns(w.creator) && Inv(w.sys)
  }

  /** The creator's pending file is in the way; without it everything is in order. */
  predicate Masked(w: World) {
    && Owns(w.creator) && Inv(WithPending(w.sys, Absent)) && !w.sys.dir.pending.Absent?
    && (w.creator.Written? ==> w.sys.dir.pending == Full(w.made))
  }

  /** Creation has returned behind the back of a retirement that will overwrite its manifest or give up. */
  predicate Shadowed(w: World) {
    && w.creator.Returned? && w.sys.dir.manifest == w.made && Stale(w.sys) && Inv(WithManifest(w.sys, First(w)))
  }

  predicate Early(s: Status) {
    s.ProvisioningUnknown? || s.RetireUnknown? || s.Retired?
  }

  predicate Unreturned(w: World) {
    !w.creator.Returned? ==>
      && Early(w.sys.dir.manifest.status) && OnlyRetires(w.sys.events)
      && (w.sys.dir.manifest.status.ProvisioningUnknown? ==> w.sys.dir.manifest == First(w))
      && (!w.sys.dir.manifest.status.ProvisioningUnknown? ==> w.sys.dir.retireClaim.Full?)
  }

  predicate OnlyRetires(events: seq<Event>) {
    forall k :: 0 <= k < |events| ==> events[k].RetireClaimed? || events[k].RetireRan?
  }

  predicate Sound(w: World) {
    w.made.status.Created? && Unreturned(w) && (Plain(w) || Masked(w) || Shadowed(w))
  }

  // ----- the callers' steps -----

  /** Only a retirement takes the manifest away from a VM whose creation has not returned. */
  lemma StatusMoves(d: Dir, id: nat, kind: Kind, pc: Pc, events: seq<Event>, move: Move)
    requires (Active(pc) ==> PcHolds(kind, pc, d, events)) && Perform(d, id, kind, pc, move).Some?
    requires Early(d.manifest.status) && (!d.manifest.status.ProvisioningUnknown? ==> d.retireClaim.Full?)
    ensures var o := Perform(d, id, kind, pc, move).value;
      && Early(o.dir.manifest.status) && OnlyRetires(Events([], o.event))
      && (o.dir.manifest.status.ProvisioningUnknown? ==> o.dir.manifest == d.manifest)
      && (!o.dir.manifest.status.ProvisioningUnknown? ==> o.dir.retireClaim.Full?)
      && (o.dir.manifest != d.manifest && d.manifest.status.ProvisioningUnknown? ==>
            kind == Retire(ProvisioningUnknown) && Active(pc))
  {
    hide NotRan, Bound, Passes;
  }

  /** Without the pending file in hand, a caller notices it in two places only. */
  predicate Notices(kind: Kind, pc: Pc, move: Move) {
    || (move.Check? && pc.Probing? && pc.checked < |Probes(kind)| && Probes(kind)[pc.checked].NoPending?)
    || (move.MakePending? && pc.Ready?)
  }

  lemma Unnoticed(d: Dir, p: File<Manifest>, id: nat, kind: Kind, pc: Pc, move: Move)
    requires !pc.PendingMade? && !pc.PendingFull? && !Notices(kind, pc, move)
    ensures Perform(d.(pending := p), id, kind, pc, move) ==
      match Perform(d, id, kind, pc, move)
      case None => None
      case Some(o) => Some(o.(dir := o.dir.(pending := p)))
  {
  }

  lemma Noticed(d: Dir, id: nat, kind: Kind, pc: Pc, move: Move)
    requires Notices(kind, pc, move) && !d.pending.Absent?
    ensures Perform(d, id, kind, pc, move) == Some(Outcome(d, Releasing, None)) && Active(pc) && !pc.Releasing?
  {
  }

  lemma PendingInHand(s: System, id: nat)
    requires Inv(s) && s.dir.pending.Absent? && id in s.callers
    ensures !s.callers[id].pc.PendingMade? && !s.callers[id].pc.PendingFull?
  {
    assert Active(s.callers[id].pc) ==> PcHolds(s.callers[id].kind, s.callers[id].pc, s.dir, s.events);
  }

  /** Behind the creator's pending file callers go on as without it, or give up. */
  lemma MaskedStep(w: World, id: nat, move: Move)
    requires Masked(w) && Next(w.sys, By(id, move)).Some?
    ensures var v := w.(sys := Next(w.sys, By(id, move)).value);
      && Masked(v) && w.sys.events <= v.sys.events
      && Rank(w.sys.dir.manifest.status) <= Rank(v.sys.dir.manifest.status)
  {
    var u := WithPending(w.sys, Absent);
    var c := w.sys.callers[id];
    PendingInHand(u, id);
    hide Inv, Perform;
    if Notices(c.kind, c.pc, move) {
      Noticed(w.sys.dir, id, c.kind, c.pc, move);
      FailIs(u.dir, id, c.kind, c.pc);
      NextKeeps(u, By(id, Move.Fail));
      assert Next(u, By(id, Move.Fail)).value == WithPending(Next(w.sys, By(id, move)).value, Absent);
    } else {
      Unnoticed(u.dir, w.sys.dir.pending, id, c.kind, c.pc, move);
      assert u.dir.(pending := w.sys.dir.pending) == w.sys.dir;
      Unnoticed(w.sys.dir, Absent, id, c.kind, c.pc, move);
      NextKeeps(u, By(id, move));
      assert Next(u, By(id, move)).value == WithPending(Next(w.sys, By(id, move)).value, Absent);
    }
  }

  lemma FailIs(d: Dir, id: nat, kind: Kind, pc: Pc)
    requires Active(pc) && !pc.Releasing?
    ensures Perform(d, id, kind, pc, Move.Fail) == Some(Outcome(d, Releasing, None))
  {
  }

  /** A manifest that creation has stored suits everyone who has not read the earlier one. */
  lemma Raised(s: System, m: Manifest)
    requires Inv(s) && s.dir.manifest.status.ProvisioningUnknown? && m.status.Created?
    requires forall id :: id in s.callers && Active(s.callers[id].pc) ==> Unread(s.callers[id].pc)
    ensures Inv(WithManifest(s, m))
  {
    var t := WithManifest(s, m);
    forall k | 0 <= k < |s.events|
      ensures Traced(s.events[k], t.dir)
    {
      assert Traced(s.events[k], s.dir);
    }
    forall id | id in t.callers && Active(t.callers[id].pc)
      ensures t.dir.guard == Some(id) && PcHolds(t.callers[id].kind, t.callers[id].pc, t.dir, t.events)
    {
      UnreadHolds(s.callers[id].kind, s.callers[id].pc, s.dir, m, s.events);
    }
  }

  predicate Unread(pc: Pc) {
    pc.Releasing? || (pc.Probing? && pc.seen.None?)
  }

  lemma UnreadHolds(kind: Kind, pc: Pc, d: Dir, m: Manifest, events: seq<Event>)
    requires Unread(pc) && PcHolds(kind, pc, d, events)
    ensures PcHolds(kind, pc, d.(manifest := m), events)
  {
    if pc.Probing? {
      forall k | 0 <= k < pc.checked
        ensures Passes(Probes(kind)[k], kind, pc.seen, d.(manifest := m))
      {
        assert Passes(Probes(kind)[k], kind, pc.seen, d);
      }
    }
  }

  /** Whoever has read the manifest while the status was unknown is a retirement. */
  lemma ReadersRetire(s: System, id: nat)
    requires Inv(s) && s.dir.manifest.status.ProvisioningUnknown? && id in s.callers && Active(s.callers[id].pc)
    ensures s.dir.guard == Some(id)
    ensures Unread(s.callers[id].pc) || Stale(s)
  {
    var c := s.callers[id];
    assert PcHolds(c.kind, c.pc, s.dir, s.events);
    if c.pc.Probing? && c.pc.seen.Some? {
      var k :| 0 <= k < c.pc.checked && Probes(c.kind)[k].ReadManifest?;
      assert Passes(Probes(c.kind)[k], c.kind, c.pc.seen, s.dir);
    }
  }

  /** What a stale retirement does depends on the manifest no more. */
  lemma StaleMoves(d: Dir, m: Manifest, id: nat, kind: Kind, pc: Pc, events: seq<Event>, move: Move)
    requires kind.Retire? && HasRead(pc) && PcHolds(kind, pc, d, events)
    requires Perform(d.(manifest := m), id, kind, pc, move).Some?
    ensures Perform(d, id, kind, pc, move).Some?
    ensures var o, shown := Perform(d, id, kind, pc, move).value, Perform(d.(manifest := m), id, kind, pc, move).value;
      && shown.pc == o.pc && shown.event == o.event
      && (if move.Replace? then shown.dir == o.dir && o.pc.Marked? && o.dir.manifest.status.RetireUnknown?
          else shown.dir == o.dir.(manifest := m) && o.dir.manifest == d.manifest)
      && o.dir.guard == d.guard
      && (HasRead(o.pc) || o.pc.Releasing? || o.pc.Dead? || move.Replace?)
  {
    hide Claims, NotRan;
    if move.Check? && pc.Probing? && pc.checked < |Probes(kind)| {
      var k :| 0 <= k < pc.checked && Probes(kind)[k].ReadManifest?;
      assert k == 1 && !Probes(kind)[pc.checked].ReadManifest?;
    }
  }

  lemma ShadowedHolder(w: World, move: Move)
    requires Shadowed(w) && w.made.status.Created? && Next(w.sys, By(w.sys.dir.guard.value, move)).Some?
    ensures var v := w.(sys := Next(w.sys, By(w.sys.dir.guard.value, move)).value);
      && (Shadowed(v) || Plain(v)) && w.sys.events <= v.sys.events
      && Rank(w.sys.dir.manifest.status) <= Rank(v.sys.dir.manifest.status)
  {
    var u, id := WithManifest(w.sys, First(w)), w.sys.dir.guard.value;
    var c := w.sys.callers[id];
    HolderHolds(u, id);
    StaleMoves(u.dir, w.made, id, c.kind, c.pc, u.events, move);
    assert u.dir.(manifest := w.made) == w.sys.dir;
    hide Perform, HasRead;
    NextKeeps(u, By(id, move));
    var x, v := Next(u, By(id, move)).value, w.(sys := Next(w.sys, By(id, move)).value);
    if move.Replace? {
      assert v.sys == x;
    } else {
      assert WithManifest(v.sys, First(w)) == x && v.sys == WithManifest(x, w.made);
      if HasRead(x.callers[id].pc) {
        assert Stale(v.sys);
      } else {
        OnlyHolder(x, id);
        Raised(x, w.made);
      }
    }
  }

  lemma HolderHolds(s: System, id: nat)
    requires Inv(s) && id in s.callers && HasRead(s.callers[id].pc)
    ensures PcHolds(s.callers[id].kind, s.callers[id].pc, s.dir, s.events)
  {
  }

  lemma OnlyHolder(s: System, id: nat)
    requires Inv(s) && s.dir.guard == Some(id) && id in s.callers
    requires s.callers[id].pc.Releasing? || s.callers[id].pc.Dead?
    ensures forall k :: k in s.callers && Active(s.callers[k].pc) ==> Unread(s.callers[k].pc)
  {
  }

  lemma ShadowedStep(w: World, id: nat, move: Move)
    requires Shadowed(w) && w.made.status.Created? && Next(w.sys, By(id, move)).Some?
    ensures var v := w.(sys := Next(w.sys, By(id, move)).value);
      && (Shadowed(v) || Plain(v)) && w.sys.events <= v.sys.events
      && Rank(w.sys.dir.manifest.status) <= Rank(v.sys.dir.manifest.status)
  {
    if w.sys.dir.guard == Some(id) {
      ShadowedHolder(w, move);
    } else {
      var u := WithManifest(w.sys, First(w));
      Outsider(u, w.made, id, move);
      hide Inv, Perform;
      NextKeeps(u, By(id, move));
      var v := w.(sys := Next(w.sys, By(id, move)).value);
      assert WithManifest(v.sys, First(w)) == Next(u, By(id, move)).value;
    }
  }

  /** Without the guard nothing is to be had. */
  lemma Outsider(s: System, m: Manifest, id: nat, move: Move)
    requires Inv(s) && s.dir.guard.Some? && s.dir.guard != Some(id) && id in s.callers
    ensures var c := s.callers[id];
      Perform(s.dir.(manifest := m), id, c.kind, c.pc, move) ==
        if move.Acquire? && c.pc.Idle? then Some(Outcome(s.dir.(manifest := m), Ended, None)) else None
    ensures var c := s.callers[id];
      Perform(s.dir, id, c.kind, c.pc, move) ==
        if move.Acquire? && c.pc.Idle? then Some(Outcome(s.dir, Ended, None)) else None
  {
    assert !Active(s.callers[id].pc);
  }

  // ----- every step -----

  /** The act puts the created manifest over one that a retirement has marked. */
  predicate Overtakes(w: World, act: Act) {
    act.Put? && w.creator.Written? && !w.sys.dir.manifest.status.ProvisioningUnknown?
  }

  lemma StaleIsActive(s: System)
    ensures Stale(s) ==> Next(s, OperatorUnlock).None?
  {
  }

  lemma UnlockKeeps(w: World)
    requires Sound(w) && Next(w.sys, OperatorUnlock).Some?
    ensures var v := w.(sys := Next(w.sys, OperatorUnlock).value);
      && (Plain(v) || Masked(v)) && v.sys.dir.manifest == w.sys.dir.manifest && v.sys.events == w.sys.events
  {
    StaleIsActive(w.sys);
    var t := Next(w.sys, OperatorUnlock).value;
    if Plain(w) {
      NextKeeps(w.sys, OperatorUnlock);
    } else if Masked(w) {
      var u := WithPending(w.sys, Absent);
      NextKeeps(u, OperatorUnlock);
      hide Inv;
      assert Next(u, OperatorUnlock).value == WithPending(t, Absent);
    }
  }

  lemma MovesEarly(w: World, id: nat, move: Move)
    requires (Plain(w) || Masked(w)) && Unreturned(w) && !w.creator.Returned? && Next(w.sys, By(id, move)).Some?
    ensures Unreturned(w.(sys := Next(w.sys, By(id, move)).value))
    ensures w.sys.dir.manifest.status.ProvisioningUnknown? ==>
      || Next(w.sys, By(id, move)).value.dir.manifest == w.sys.dir.manifest
      || (w.sys.callers[id].kind == Retire(ProvisioningUnknown) && Active(w.sys.callers[id].pc))
  {
    var c, d := w.sys.callers[id], w.sys.dir;
    if Masked(w) {
      var u := WithPending(w.sys, Absent);
      PendingInHand(u, id);
      ActiveHolds(u, id);
      assert d.(pending := Absent) == u.dir;
      hide Inv, PcHolds, Perform;
      if Notices(c.kind, c.pc, move) {
        Noticed(d, id, c.kind, c.pc, move);
      } else {
        Unnoticed(d, Absent, id, c.kind, c.pc, move);
        StatusMoves(u.dir, id, c.kind, c.pc, u.events, move);
      }
    } else {
      ActiveHolds(w.sys, id);
      hide Inv, PcHolds, Perform;
      StatusMoves(d, id, c.kind, c.pc, w.sys.events, move);
    }
  }

  lemma ActiveHolds(s: System, id: nat)
    requires Inv(s) && id in s.callers
    ensures Active(s.callers[id].pc) ==>
      s.dir.guard == Some(id) && PcHolds(s.callers[id].kind, s.callers[id].pc, s.dir, s.events)
  {
  }

  /** Steps of callers and of the operator. */
  lemma OtherKeeps(w: World, step: Step)
    requires Sound(w) && Next(w.sys, step).Some?
    ensures var v := w.(sys := Next(w.sys, step).value);
      && Sound(v) && w.sys.events <= v.sys.events
      && Rank(w.sys.dir.manifest.status) <= Rank(v.sys.dir.manifest.status)
  {
    match step
    case OperatorUnlock => UnlockKeeps(w);
    case By(id, move) =>
      if !w.creator.Returned? {
        MovesEarly(w, id, move);
      }
      hide Next, Unreturned;
      if w.creator.Returned? {
        UnreturnedStays(w, Next(w.sys, step).value);
      }
      if Plain(w) {
        NextKeeps(w.sys, step);
      } else if Masked(w) {
        MaskedStep(w, id, move);
      } else {
        ShadowedStep(w, id, move);
      }
  }

  lemma UnreturnedStays(w: World, s: System)
    requires w.creator.Returned?
    ensures Unreturned(w.(sys := s))
  {
  }

  lemma PutKeeps(w: World)
    requires Sound(w) && w.creator.Written? && w.sys.dir.manifest.status.ProvisioningUnknown?
    ensures Onward(w, Put).Some? && Sound(Onward(w, Put).value)
  {
    var u, v := WithPending(w.sys, Absent), Onward(w, Put).value;
    assert v.sys == WithManifest(u, w.made) && u == WithManifest(v.sys, First(w));
    if Stale(u) {
      assert Shadowed(v);
    } else {
      forall id | id in u.callers && Active(u.callers[id].pc)
        ensures Unread(u.callers[id].pc)
      {
        ReadersRetire(u, id);
      }
      hide Inv;
      Raised(u, w.made);
    }
  }

  /** Every act keeps the invariant and the status, unless creation overtakes a retirement. */
  lemma OnwardKeeps(w: World, act: Act)
    requires Sound(w) && Onward(w, act).Some?
    ensures w.sys.events <= Onward(w, act).value.sys.events
    ensures !Overtakes(w, act) ==> Sound(Onward(w, act).value)
    ensures Rank(Onward(w, act).value.sys.dir.manifest.status) < Rank(w.sys.dir.manifest.status) <==> Overtakes(w, act)
  {
    hide Inv, Next, Stale;
    match act
    case Other(step) => OtherKeeps(w, step);
    case Put =>
      if !Overtakes(w, act) {
        PutKeeps(w);
      }
    case _ => MaskingKeeps(w, act);
  }

  lemma MaskingKeeps(w: World, act: Act)
    requires Sound(w) && !act.Other? && !act.Put? && Onward(w, act).Some?
    ensures Sound(Onward(w, act).value)
    ensures Onward(w, act).value.sys.dir.manifest == w.sys.dir.manifest && Onward(w, act).value.sys.events == w.sys.events
  {
    hide Inv, Stale;
    var v := Onward(w, act).value;
    assert WithPending(v.sys, Absent) == WithPending(w.sys, Absent);
    if act.Make? && w.sys.dir.pending.Absent? {
      assert WithPending(w.sys, Absent) == w.sys;
    }
  }

  // ----- whole runs -----

  function StatusAt(w: World, acts: seq<Act>, n: nat): nat
    requires n <= |acts| && Play(w, acts[..n]).Some?
  {
    Rank(Play(w, acts[..n]).value.sys.dir.manifest.status)
  }

  predicate Playable(w: World, acts: seq<Act>) {
    forall n :: 0 <= n <= |acts| ==> Play(w, acts[..n]).Some?
  }

  /** The status never goes back. */
  predicate Steady(w: World, acts: seq<Act>)
    requires Playable(w, acts)
  {
    forall m, n :: 0 <= m <= n <= |acts| ==> StatusAt(w, acts, m) <= StatusAt(w, acts, n)
  }

  predicate Overtaken(w: World, acts: seq<Act>)
    requires Playable(w, acts)
  {
    exists k :: 0 <= k < |acts| && Overtakes(Play(w, acts[..k]).value, acts[k])
  }

  lemma {:induction false} PlayPrefix(w: World, acts: seq<Act>, n: nat)
    requires Play(w, acts).Some? && n <= |acts|
    ensures Play(w, acts[..n]).Some?
  {
    if n < |acts| {
      var front := acts[..|acts| - 1];
      PlayPrefix(w, front, n);
      assert front[..n] == acts[..n];
    } else {
      assert acts[..n] == acts;
    }
  }

  lemma AllPrefixes(w: World, acts: seq<Act>)
    requires Play(w, acts).Some?
    ensures Playable(w, acts)
  {
    forall n | 0 <= n <= |acts|
      ensures Play(w, acts[..n]).Some?
    {
      PlayPrefix(w, acts, n);
    }
  }

  lemma PlayStep(w: World, acts: seq<Act>, k: nat)
    requires Playable(w, acts) && k < |acts|
    ensures Onward(Play(w, acts[..k]).value, acts[k]) == Play(w, acts[..k + 1])
  {
    assert acts[..k + 1][..k] == acts[..k];
  }

  /** As long as nothing is overtaken, the invariant holds. */
  lemma {:induction false} PlayKeeps(w: World, acts: seq<Act>, n: nat)
    requires Begins(w) && Playable(w, acts) && n <= |acts|
    requires forall k :: 0 <= k < n ==> !Overtakes(Play(w, acts[..k]).value, acts[k])
    ensures Sound(Play(w, acts[..n]).value)
    decreases n
  {
    if n > 0 {
      PlayKeeps(w, acts, n - 1);
      PlayStep(w, acts, n - 1);
      hide Play, Sound, Onward, Overtakes, Begins;
      OnwardKeeps(Play(w, acts[..n - 1]).value, acts[n - 1]);
    }
  }

  /**
   Over a whole run the status goes back if and only if creation puts its manifest over one that a
   retirement has marked meanwhile.
   */
  lemma SteadyExactly(w: World, acts: seq<Act>)
    requires Begins(w) && Playable(w, acts)
    ensures Steady(w, acts) <==> !Overtaken(w, acts)
  {
    hide Play, Onward, Overtakes, Begins, Sound;
    if Overtaken(w, acts) {
      var k := FirstOvertaking(w, acts);
      PlayKeeps(w, acts, k);
      PlayStep(w, acts, k);
      OnwardKeeps(Play(w, acts[..k]).value, acts[k]);
      assert StatusAt(w, acts, k + 1) < StatusAt(w, acts, k);
    } else {
      forall m, n | 0 <= m <= n <= |acts|
        ensures StatusAt(w, acts, m) <= StatusAt(w, acts, n)
      {
        Climbs(w, acts, m, n);
      }
    }
  }

  lemma FirstOvertaking(w: World, acts: seq<Act>) returns (k: nat)
    requires Playable(w, acts) && Overtaken(w, acts)
    ensures k < |acts| && Overtakes(Play(w, acts[..k]).value, acts[k])
    ensures forall j :: 0 <= j < k ==> !Overtakes(Play(w, acts[..j]).value, acts[j])
  {
    hide Play, Overtakes;
    k := 0;
    while !Overtakes(Play(w, acts[..k]).value, acts[k])
      invariant k < |acts|
      invariant forall j :: 0 <= j < k ==> !Overtakes(Play(w, acts[..j]).value, acts[j])
      decreases |acts| - k
    {
      k := k + 1;
    }
  }

  lemma ClimbsOnce(w: World, acts: seq<Act>, n: nat)
    requires Begins(w) && Playable(w, acts) && !Overtaken(w, acts) && n < |acts|
    ensures StatusAt(w, acts, n) <= StatusAt(w, acts, n + 1)
  {
    assert forall k :: 0 <= k < |acts| ==> !Overtakes(Play(w, acts[..k]).value, acts[k]);
    hide Play, Onward, Overtakes, Begins, Sound;
    PlayKeeps(w, acts, n);
    PlayStep(w, acts, n);
    OnwardKeeps(Play(w, acts[..n]).value, acts[n]);
  }

  lemma {:induction false} Climbs(w: World, acts: seq<Act>, m: nat, n: nat)
    requires Begins(w) && Playable(w, acts) && !Overtaken(w, acts) && m <= n <= |acts|
    ensures StatusAt(w, acts, m) <= StatusAt(w, acts, n)
    decreases n
  {
    hide Play, Begins, Overtaken, StatusAt;
    if m < n {
      Climbs(w, acts, m, n - 1);
      ClimbsOnce(w, acts, n - 1);
    }
  }

  // ----- after creation has overtaken a retirement -----

  /**
   The retirement's claim is there for good, so that whatever the manifest says no script is called any
   more, except the retirement's own if that has not been called yet.
   */
  predicate Fallen(w: World) {
    && w.creator.Returned? && w.sys.dir.retireClaim.Full?
    && OnlyRetires(w.sys.events) && AtMostOnce(w.sys.events)
    && forall id :: id in w.sys.callers && Active(w.sys.callers[id].pc) ==>
      w.sys.dir.guard == Some(id) && Harmless(w.sys.callers[id].kind, w.sys.callers[id].pc, w.sys.events)
  }

  predicate Harmless(kind: Kind, pc: Pc, events: seq<Event>) {
    match pc
    case Probing(checked, _) =>
      checked <= |Probes(kind)| && forall k :: 0 <= k < checked ==> !Probes(kind)[k].NoRetireClaim?
    case ClaimMade(_) => false
    case Marked(_) => kind.Retire? && NotRan(kind, events)
    case Ready(phase, _) => kind.Retire? && phase.After?
    case PendingMade(phase, _) => kind.Retire? && phase.After?
    case PendingFull(phase, _) => kind.Retire? && phase.After?
    case _ => true
  }

  lemma HarmlessStays(d: Dir, id: nat, kind: Kind, pc: Pc, events: seq<Event>, move: Move)
    requires d.retireClaim.Full? && OnlyRetires(events) && AtMostOnce(events)
    requires (Active(pc) ==> d.guard == Some(id) && Harmless(kind, pc, events)) && Perform(d, id, kind, pc, move).Some?
    ensures var o := Perform(d, id, kind, pc, move).value;
      var after := Events(events, o.event);
      && o.dir.retireClaim.Full? && OnlyRetires(after) && AtMostOnce(after)
      && (Active(o.pc) ==> o.dir.guard == Some(id) && Harmless(kind, o.pc, after))
      && (o.dir.guard != d.guard ==> d.guard.None? || d.guard == Some(id))
      && (o.event.Some? ==> d.guard == Some(id))
  {
    if kind.Launch? {
      assert Probes(kind)[2].NoRetireClaim?;
    }
    if move.Invoke? && pc.Marked? {
      var after := events + [RanEvent(kind, pc.next)];
      assert forall k :: 0 <= k < |after| ==> after[k] == if k < |events| then events[k] else RanEvent(kind, pc.next);
      forall k | 0 <= k < |events|
        ensures !Ran(kind, events[k])
      {
      }
    }
  }

  lemma FallenStays(w: World, act: Act)
    requires Fallen(w) && Onward(w, act).Some?
    ensures Fallen(Onward(w, act).value)
  {
    match act
    case Other(By(id, move)) =>
      var c := w.sys.callers[id];
      HarmlessStays(w.sys.dir, id, c.kind, c.pc, w.sys.events, move);
      hide Perform, Harmless, OnlyRetires, AtMostOnce;
    case _ =>
      hide Perform, Harmless, OnlyRetires, AtMostOnce;
  }

  lemma OvertakingFalls(w: World)
    requires Sound(w) && Overtakes(w, Put) && Onward(w, Put).Some?
    ensures Fallen(Onward(w, Put).value)
  {
    var u := WithPending(w.sys, Absent);
    assert Early(u.dir.manifest.status);
    forall id | id in u.callers && Active(u.callers[id].pc)
      ensures u.dir.guard == Some(id) && Harmless(u.callers[id].kind, u.callers[id].pc, u.events)
    {
      ActiveHolds(u, id);
      RetiredHarmless(u.callers[id].kind, u.callers[id].pc, u.dir, u.events);
    }
  }

  lemma RetiredHarmless(kind: Kind, pc: Pc, d: Dir, events: seq<Event>)
    requires PcHolds(kind, pc, d, events) && d.retireClaim.Full? && (d.manifest.status.RetireUnknown? || d.manifest.status.Retired?)
    ensures Harmless(kind, pc, events)
  {
  }

  lemma {:induction false} PlaySound(w: World, acts: seq<Act>)
    requires Begins(w) && Play(w, acts).Some?
    ensures Sound(Play(w, acts).value) || Fallen(Play(w, acts).value)
  {
    if acts != [] {
      var n := |acts| - 1;
      PlaySound(w, acts[..n]);
      hide Play, Sound, Fallen, Begins, Onward;
      PlayLast(w, acts);
      SoundOrFallen(Play(w, acts[..n]).value, acts[n]);
    }
  }

  lemma PlayLast(w: World, acts: seq<Act>)
    requires acts != [] && Play(w, acts).Some?
    ensures Play(w, acts[..|acts| - 1]).Some?
    ensures Play(w, acts) == Onward(Play(w, acts[..|acts| - 1]).value, acts[|acts| - 1])
  {
  }

  lemma SoundOrFallen(w: World, act: Act)
    requires (Sound(w) || Fallen(w)) && Onward(w, act).Some?
    ensures Sound(Onward(w, act).value) || Fallen(Onward(w, act).value)
  {
    hide Sound, Fallen, Onward;
    if Fallen(w) {
      FallenStays(w, act);
    } else {
      OnwardKeeps(w, act);
      if Overtakes(w, act) {
        OvertakingFalls(w);
      }
    }
  }

  /**
   On every run beside a creation, overtaken or not, each host script is called at most once, none but
   the retirement after a retire claim, and a retirement after a launch names the launched VM.
   */
  lemma ScriptsAreSafeBesideCreation(w: World, acts: seq<Act>)
    requires Begins(w) && Play(w, acts).Some?
    ensures var events := Play(w, acts).value.sys.events;
      AtMostOnce(events) && RetireEnds(events) && RetireNamesLaunched(events)
  {
    PlaySound(w, acts);
    hide Play, Begins;
    SoundEvents(Play(w, acts).value);
  }

  lemma SoundEvents(w: World)
    requires Sound(w) || Fallen(w)
    ensures AtMostOnce(w.sys.events) && RetireEnds(w.sys.events) && RetireNamesLaunched(w.sys.events)
  {
    hide AtMostOnce, AllTraced, Exclusive, Stale;
    if Sound(w) {
      hide RetireEnds, RetireNamesLaunched;
    }
  }

  // ----- creation that is over before a retirement begins -----

  /** No retirement of a VM still provisioning begins while creation is going on. */
  predicate Patient(w: World, acts: seq<Act>)
    requires Playable(w, acts)
  {
    forall k :: 0 <= k < |acts| ==> !Hasty(Play(w, acts[..k]).value, acts[k])
  }

  predicate Hasty(w: World, act: Act) {
    && Live(w.creator) && act.Other? && act.step.By? && act.step.move.Acquire?
    && act.step.id in w.sys.callers && w.sys.callers[act.step.id].kind == Retire(ProvisioningUnknown)
  }

  predicate Undisturbed(w: World) {
    Live(w.creator) ==>
      && w.sys.dir.manifest.status.ProvisioningUnknown?
      && forall id :: id in w.sys.callers && w.sys.callers[id].kind == Retire(ProvisioningUnknown) ==>
        !Active(w.sys.callers[id].pc)
  }

  lemma UndisturbedStays(w: World, act: Act)
    requires Sound(w) && Undisturbed(w) && Onward(w, act).Some? && !Hasty(w, act)
    ensures Undisturbed(Onward(w, act).value) && !Overtakes(w, act)
  {
    if Live(w.creator) && act.Other? && act.step.By? {
      var id, move := act.step.id, act.step.move;
      var c := w.sys.callers[id];
      MovesEarly(w, id, move);
      if !move.Acquire? {
        Wakes(w.sys.dir, id, c.kind, c.pc, move);
      }
      hide Inv, Perform;
    } else {
      hide Inv, Perform;
    }
  }

  lemma Wakes(d: Dir, id: nat, kind: Kind, pc: Pc, move: Move)
    requires Perform(d, id, kind, pc, move).Some? && !move.Acquire?
    ensures Active(Perform(d, id, kind, pc, move).value.pc) ==> Active(pc)
  {
  }

  lemma {:induction false} PatientKeeps(w: World, acts: seq<Act>, n: nat)
    requires Begins(w) && Playable(w, acts) && n <= |acts| && Patient(w, acts)
    ensures Sound(Play(w, acts[..n]).value) && Undisturbed(Play(w, acts[..n]).value)
    decreases n
  {
    if n == 0 {
      BeginsSound(w);
    } else {
      PatientKeeps(w, acts, n - 1);
      PlayStep(w, acts, n - 1);
      var v := Play(w, acts[..n - 1]).value;
      assert !Hasty(v, acts[n - 1]);
      hide *;
      UndisturbedStays(v, acts[n - 1]);
      OnwardKeeps(v, acts[n - 1]);
    }
  }

  lemma BeginsSound(w: World)
    requires Begins(w)
    ensures Sound(w) && Undisturbed(w)
  {
  }

  lemma NotOvertaken(w: World, acts: seq<Act>, n: nat)
    requires Begins(w) && Playable(w, acts) && n < |acts| && Patient(w, acts)
    ensures !Overtakes(Play(w, acts[..n]).value, acts[n])
  {
    PatientKeeps(w, acts, n);
    PlayStep(w, acts, n);
    var v := Play(w, acts[..n]).value;
    assert !Hasty(v, acts[n]);
    hide *;
    UndisturbedStays(v, acts[n]);
  }

  /** Retirements that wait for creation to return or die are never overtaken. */
  lemma PatientIsSteady(w: World, acts: seq<Act>)
    requires Begins(w) && Playable(w, acts) && Patient(w, acts)
    ensures Steady(w, acts)
  {
    hide Play, Begins, Overtakes;
    forall k | 0 <= k < |acts|
      ensures !Overtakes(Play(w, acts[..k]).value, acts[k])
    {
      NotOvertaken(w, acts, k);
    }
    SteadyExactly(w, acts);
  }

  // ----- a run that goes back -----

  function Others(steps: seq<Step>): seq<Act> {
    if steps == [] then [] else Others(steps[..|steps| - 1]) + [Other(steps[|steps| - 1])]
  }

  lemma {:induction false} PlayOthers(w: World, steps: seq<Step>)
    requires Run(w.sys, steps).Some?
    ensures Play(w, Others(steps)) == Some(w.(sys := Run(w.sys, steps).value))
  {
    if steps != [] {
      var front := steps[..|steps| - 1];
      PlayOthers(w, front);
      assert Others(steps)[..|Others(steps)| - 1] == Others(front);
    }
  }

  lemma PlayMore(w: World, acts: seq<Act>, v: World, act: Act)
    requires Play(w, acts) == Some(v)
    ensures Play(w, acts + [act]) == Onward(v, act)
  {
    assert (acts + [act])[..|acts|] == acts;
  }

  /**
   From every beginning creation, with an operator who retires the VM as still provisioning, there is a
   run in which the retirement is carried out whole and the VM then counts as created.
   */
  lemma RetiredThenCreated(w: World, id: nat) returns (acts: seq<Act>, v: World)
    requires Begins(w) && id in w.sys.callers && w.sys.callers[id].kind == Retire(ProvisioningUnknown)
    ensures Play(w, acts) == Some(v) && |acts| >= 3
    ensures Play(w, acts[..|acts| - 3]).Some? && StatusAt(w, acts, |acts| - 3) == Rank(Retired)
    ensures v.creator.Returned? && v.sys.dir.manifest.status.Created? && v.sys.dir.guard.None?
    ensures v.sys.events == [RetireClaimed, RetireRan(w.sys.dir.manifest.vmId)]
  {
    var steps, t := Retirement(w.sys, id);
    PlayOthers(w, steps);
    var before, u := Others(steps), w.(sys := t);
    hide Play;
    PlayMore(w, before, u, Make);
    PlayMore(w, before + [Make], Onward(u, Make).value, Fill);
    PlayMore(w, before + [Make] + [Fill], Onward(Onward(u, Make).value, Fill).value, Put);
    acts := before + [Make] + [Fill] + [Put];
    v := Onward(Onward(Onward(u, Make).value, Fill).value, Put).value;
    assert acts[..|acts| - 3] == before;
  }

  lemma Retirement(s: System, id: nat) returns (steps: seq<Step>, t: System)
    requires Init(s) && s.dir.manifest.status.ProvisioningUnknown?
    requires id in s.callers && s.callers[id].kind == Retire(ProvisioningUnknown)
    ensures Run(s, steps) == Some(t)
    ensures t.dir.manifest.status.Retired? && t.dir.guard.None? && t.dir.pending.Absent?
    ensures t.events == [RetireClaimed, RetireRan(s.dir.manifest.vmId)]
  {
    steps, t := [], s;
    assert Reaches(s, steps, t);
    hide Reaches, Run;
    steps, t := CheckAll(s, steps, t, id);
    steps, t := TakeClaim(s, steps, t, id);
    steps, t := Finish(s, steps, t, id);
    ReachesMeans(s, steps, t);
  }
}
