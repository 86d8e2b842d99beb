/** The protocol does not achieve safety by standing still: a whole lifecycle can be run. */
module PreparationProgress {
  import opened Wrappers
  import opened Preparation
  import opened PreparationSafety

  /** What the rest of the system sees of a run so far. */
  predicate Reaches(s: System, steps: seq<Step>, t: System) {
    Run(s, steps) == Some(t)
  }

  lemma Extend(s: System, steps: seq<Step>, t: System, step: Step) returns (more: seq<Step>, u: System)
    requires Reaches(s, steps, t) && Next(t, step).Some?
    ensures more == steps + [step] && u == Next(t, step).value && Reaches(s, more, u)
  {
    more, u := steps + [step], Next(t, step).value;
    assert more[..|more| - 1] == steps;
  }

  /** The state with one caller at `pc`, the directory and the history as given. */
  function With(t: System, id: nat, pc: Pc, d: Dir, events: seq<Event>): System
    requires id in t.callers
  {
    System(d, t.callers[id := t.callers[id].(pc := pc)], events)
  }

  lemma Advance(s: System, steps: seq<Step>, t: System, id: nat, move: Move) returns (more: seq<Step>, u: System)
    requires Reaches(s, steps, t) && id in t.callers
    requires Perform(t.dir, id, t.callers[id].kind, t.callers[id].pc, move).Some?
    ensures var o := Perform(t.dir, id, t.callers[id].kind, t.callers[id].pc, move).value;
      u == With(t, id, o.pc, o.dir, if o.event.Some? then t.events + [o.event.value] else t.events)
    ensures Reaches(s, more, u)
  {
    hide Perform;
    more, u := Extend(s, steps, t, By(id, move));
  }

  /** Write the pending manifest and put it in place. */
  lemma Store(s: System, steps: seq<Step>, t: System, id: nat) returns (more: seq<Step>, u: System)
    requires Reaches(s, steps, t) && id in t.callers && t.callers[id].pc.Ready? && t.dir.pending.Absent?
    ensures var pc := t.callers[id].pc;
      u == With(t, id, if pc.phase.Before? then Marked(pc.next) else Releasing, t.dir.(manifest := pc.next), t.events)
    ensures Reaches(s, more, u)
  {
    hide Reaches;
    more, u := Advance(s, steps, t, id, MakePending);
    more, u := Advance(s, more, u, id, FillPending);
    more, u := Advance(s, more, u, id, Replace);
  }

  /** Mark the manifest, call the script, store the outcome and leave. */
  lemma Finish(s: System, steps: seq<Step>, t: System, id: nat) returns (more: seq<Step>, u: System)
    requires Reaches(s, steps, t) && id in t.callers && t.dir.pending.Absent? && t.dir.guard == Some(id)
    requires t.callers[id].pc.Ready? && t.callers[id].pc.phase.Before?
    ensures var kind, next := t.callers[id].kind, t.callers[id].pc.next;
      u == With(t, id, Ended, t.dir.(manifest := next.(status := FinalOf(kind)), guard := None),
                t.events + [RanEvent(kind, next)])
    ensures Reaches(s, more, u)
  {
    hide Reaches;
    more, u := Store(s, steps, t, id);
    more, u := Advance(s, more, u, id, Invoke(true));
    more, u := Store(s, more, u, id);
    more, u := Advance(s, more, u, id, Release);
  }

  /** The checks of a caller on a directory that passes them all. */
  lemma CheckAll(s: System, steps: seq<Step>, t: System, id: nat) returns (more: seq<Step>, u: System)
    requires Reaches(s, steps, t) && id in t.callers && t.callers[id].pc == Idle && t.dir.guard.None?
    requires t.dir.pending.Absent? && t.dir.retireClaim.Absent? && Startable(t.callers[id].kind, t.dir.manifest)
    requires if t.callers[id].kind.Retire? then Bound(t.dir.manifest, t.dir) else t.dir.launchClaim.Absent?
    ensures var kind, m := t.callers[id].kind, t.dir.manifest;
      u == With(t, id, if kind.Attach? then Ready(Before, Marking(kind, m)) else Probing(|Probes(kind)|, Some(m)),
                t.dir.(guard := Some(id)), t.events)
    ensures Reaches(s, more, u)
  {
    hide Reaches, Bound, Startable;
    var kind := t.callers[id].kind;
    more, u := Advance(s, steps, t, id, Acquire);
    more, u := Advance(s, more, u, id, Check);
    more, u := Advance(s, more, u, id, Check);
    assert kind.Retire? ==> u.callers[id].pc.seen == Some(t.dir.manifest);
    assert kind.Retire? ==> Bound(t.dir.manifest, u.dir) by { SameBound(t.dir, id); }
    more, u := Advance(s, more, u, id, Check);
    if !kind.Retire? {
      more, u := Advance(s, more, u, id, Check);
    }
  }

  lemma SameBound(d: Dir, id: nat)
    ensures Bound(d.manifest, d.(guard := Some(id))) == Bound(d.manifest, d)
  {
  }

  /** Make and fill the permanent claim. */
  lemma TakeClaim(s: System, steps: seq<Step>, t: System, id: nat) returns (more: seq<Step>, u: System)
    requires Reaches(s, steps, t) && id in t.callers && !t.callers[id].kind.Attach?
    requires t.callers[id].pc == Probing(|Probes(t.callers[id].kind)|, Some(t.dir.manifest))
    requires if t.callers[id].kind.Launch? then t.dir.launchClaim.Absent? else t.dir.retireClaim.Absent?
    ensures var kind := t.callers[id].kind;
      u == With(t, id, Ready(Before, Marking(kind, t.dir.manifest)),
                if kind.Launch? then t.dir.(launchClaim := Full(Claim(kind.vmId, kind.plan)))
                else t.dir.(retireClaim := Full(())),
                if kind.Launch? then t.events else t.events + [RetireClaimed])
    ensures Reaches(s, more, u)
  {
    hide Reaches;
    more, u := Advance(s, steps, t, id, MakeClaim);
    more, u := Advance(s, more, u, id, FillClaim);
  }

  /**
   From every created VM with an attach, a launch and a retire caller there is a run in which all
   three scripts are called, in that order, and the VM ends retired.
   */
  lemma LifecycleCompletes(s: System, a: nat, l: nat, r: nat) returns (steps: seq<Step>, t: System)
    requires Init(s) && s.dir.manifest.status.Created? && s.dir.manifest.vmId.None?
    requires a in s.callers && l in s.callers && r in s.callers && a != l && l != r && a != r
    requires s.callers[a].kind.Attach? && s.callers[l].kind.Launch? && s.callers[r].kind == Retire(Started)
    ensures Run(s, steps) == Some(t)
    ensures t.dir.manifest.status == Retired && t.dir.guard.None? && t.dir.pending.Absent?
    ensures var v, p := s.callers[l].kind.vmId, s.callers[l].kind.plan;
      t.events == [AttachRan, LaunchRan(v, p), RetireClaimed, RetireRan(Some(v))]
  {
    steps, t := [], s;
    assert Reaches(s, steps, t);
    hide Reaches, Run;
    steps, t := CheckAll(s, steps, t, a);
    steps, t := Finish(s, steps, t, a);
    steps, t := CheckAll(s, steps, t, l);
    steps, t := TakeClaim(s, steps, t, l);
    steps, t := Finish(s, steps, t, l);
    steps, t := CheckAll(s, steps, t, r);
    steps, t := TakeClaim(s, steps, t, r);
    steps, t := Finish(s, steps, t, r);
    ReachesMeans(s, steps, t);
  }

  lemma ReachesMeans(s: System, steps: seq<Step>, t: System)
    requires Reaches(s, steps, t)
    ensures Run(s, steps) == Some(t)
  {
  }

  // ----- retiring what a crash has left -----

  /** Nobody is at work, nothing is half written, and the VM is not yet being retired. */
  predicate AtRest(s: System) {
    && s.dir.guard.None? && s.dir.pending.Absent? && s.dir.retireClaim.Absent?
    && Rank(s.dir.manifest.status) < Rank(RetireUnknown)
  }

  /** A launch claim without a launch that was marked: the launch died between the two. */
  predicate LeftoverClaim(s: System) {
    !s.dir.launchClaim.Absent? && !Launched(s.dir.manifest.status)
  }

  /**
   From every state at rest that a run can reach, wherever earlier callers died, the VM can be retired,
   unless a launch claim is left over from a launch that was never marked.
   */
  lemma RetiresFromAnywhere(first: System, before: seq<Step>, s: System, id: nat)
    returns (steps: seq<Step>, t: System)
    requires Init(first) && Run(first, before) == Some(s)
    requires AtRest(s) && !LeftoverClaim(s)
    requires id in s.callers && s.callers[id] == Caller(Retire(s.dir.manifest.status), Idle)
    ensures Run(s, steps) == Some(t)
    ensures t.dir.manifest.status == Retired && t.dir.guard.None? && t.dir.pending.Absent?
    ensures t.events == s.events + [RetireClaimed, RetireRan(s.dir.manifest.vmId)]
  {
    RunKeeps(first, before);
    IsBound(s);
    steps, t := [], s;
    assert Reaches(s, steps, t);
    hide Reaches, Run, Inv;
    steps, t := CheckAll(s, steps, t, id);
    steps, t := TakeClaim(s, steps, t, id);
    steps, t := Finish(s, steps, t, id);
    ReachesMeans(s, steps, t);
  }

  lemma IsBound(s: System)
    requires Inv(s) && !LeftoverClaim(s)
    ensures Bound(s.dir.manifest, s.dir)
  {
    hide AtMostOnce, RetireEnds, RetireNamesLaunched, AllTraced, Exclusive;
  }

  /** What a left-over launch claim leaves a caller to do. */
  predicate OnlyChecks(pc: Pc, kind: Kind) {
    match pc
    case Probing(checked, seen) =>
      && checked <= |Probes(kind)|
      && forall k :: 0 <= k < checked ==> !Probes(kind)[k].NoLaunchClaim? && !Probes(kind)[k].LaunchBinding?
    case Releasing => true
    case _ => !Active(pc)
  }

  predicate Halted(s: System, m: Manifest, events: seq<Event>) {
    && LeftoverClaim(s) && s.dir.manifest == m && s.events == events
    && (forall id :: id in s.callers ==> OnlyChecks(s.callers[id].pc, s.callers[id].kind))
    && forall id :: id in s.callers && s.callers[id].pc.Probing? && s.callers[id].pc.seen.Some? ==>
      s.callers[id].pc.seen.value == m
  }

  lemma HaltedMove(d: Dir, id: nat, kind: Kind, pc: Pc, move: Move)
    requires !d.launchClaim.Absent? && !Launched(d.manifest.status) && OnlyChecks(pc, kind)
    requires pc.Probing? && pc.seen.Some? ==> pc.seen.value == d.manifest
    requires Perform(d, id, kind, pc, move).Some?
    ensures var o := Perform(d, id, kind, pc, move).value;
      && o.event.None? && OnlyChecks(o.pc, kind) && o.dir.(guard := d.guard) == d
      && (o.pc.Probing? && o.pc.seen.Some? ==> o.pc.seen.value == d.manifest)
  {
    assert kind.Attach? ==> Probes(kind)[2].NoLaunchClaim?;
    assert kind.Launch? ==> Probes(kind)[1].NoLaunchClaim?;
    assert kind.Retire? ==> Probes(kind)[2].LaunchBinding?;
  }

  lemma {:induction false} HaltedRun(s: System, steps: seq<Step>, m: Manifest, events: seq<Event>)
    requires Halted(s, m, events) && Run(s, steps).Some?
    ensures Halted(Run(s, steps).value, m, events)
  {
    if steps != [] {
      var n := |steps| - 1;
      HaltedRun(s, steps[..n], m, events);
      hide OnlyChecks, Perform;
      var u := Run(s, steps[..n]).value;
      if steps[n].By? {
        var id := steps[n].id;
        HaltedMove(u.dir, id, u.callers[id].kind, u.callers[id].pc, steps[n].move);
      }
    }
  }

  /**
   Such a claim ends everything: from then on no run changes the manifest or calls a script, so that the
   VM cannot be retired either, until the claim has been looked into.
   */
  lemma LeftoverClaimEnds(first: System, before: seq<Step>, s: System, steps: seq<Step>)
    requires Init(first) && Run(first, before) == Some(s) && AtRest(s) && LeftoverClaim(s)
    requires Run(s, steps).Some?
    ensures Run(s, steps).value.dir.manifest == s.dir.manifest && Run(s, steps).value.events == s.events
  {
    RunKeeps(first, before);
    NobodyActive(s);
    assert Halted(s, s.dir.manifest, s.events);
    HaltedRun(s, steps, s.dir.manifest, s.events);
  }

  lemma NobodyActive(s: System)
    requires Inv(s) && s.dir.guard.None?
    ensures forall id :: id in s.callers ==> !Active(s.callers[id].pc)
  {
  }

  /** And it does happen: a launch that dies right behind its claim. */
  lemma LaunchLeavesClaim(first: System, a: nat, l: nat) returns (steps: seq<Step>, t: System)
    requires Init(first) && first.dir.manifest.status.Created? && first.dir.manifest.vmId.None?
    requires a in first.callers && l in first.callers && a != l
    requires first.callers[a].kind.Attach? && first.callers[l].kind.Launch?
    ensures Run(first, steps) == Some(t) && AtRest(t) && LeftoverClaim(t)
  {
    steps, t := [], first;
    assert Reaches(first, steps, t);
    hide Reaches, Run;
    steps, t := CheckAll(first, steps, t, a);
    steps, t := Finish(first, steps, t, a);
    steps, t := CheckAll(first, steps, t, l);
    steps, t := TakeClaim(first, steps, t, l);
    steps, t := Advance(first, steps, t, l, Crash);
    hide Perform;
    steps, t := Extend(first, steps, t, OperatorUnlock);
    ReachesMeans(first, steps, t);
  }
}
