/** What every run of the preparation protocol keeps. */
module PreparationSafety {
  import opened Wrappers
  import opened Preparation

  // ----- the invariant -----

  predicate Ran(kind: Kind, e: Event) {
    match kind
    case Attach => e.AttachRan?
    case Launch(_, _) => e.LaunchRan?
    case Retire(_) => e.RetireRan?
  }

  predicate NotRan(kind: Kind, events: seq<Event>) {
    forall k :: 0 <= k < |events| ==> !Ran(kind, events[k])
  }

  /** The claim files as a caller past its checks has left them. */
  predicate Claims(kind: Kind, d: Dir) {
    match kind
    case Attach => d.launchClaim.Absent? && d.retireClaim.Absent?
    case Launch(vmId, plan) => d.launchClaim == Full(Claim(vmId, plan)) && d.retireClaim.Absent?
    case Retire(_) => d.retireClaim.Full?
  }

  /** A caller that has checked everything but not yet marked the manifest. */
  predicate Cleared(kind: Kind, d: Dir, events: seq<Event>) {
    Startable(kind, d.manifest) && NotRan(kind, events) && (kind.Retire? ==> Bound(d.manifest, d))
  }

  predicate PcHolds(kind: Kind, pc: Pc, d: Dir, events: seq<Event>) {
    match pc
    case Probing(checked, seen) =>
      && checked <= |Probes(kind)|
      && (seen.Some? ==> seen.value == d.manifest)
      && (seen.Some? <==> exists k :: 0 <= k < checked && Probes(kind)[k].ReadManifest?)
      && forall k :: 0 <= k < checked ==> Passes(Probes(kind)[k], kind, seen, d)
    case ClaimMade(source) =>
      && source == d.manifest && d.pending.Absent? && Cleared(kind, d, events)
      && (match kind
          case Attach => false
          case Launch(_, _) => d.launchClaim.Torn? && d.retireClaim.Absent?
          case Retire(_) => d.retireClaim.Torn?)
    case Ready(Before, next) =>
      next == Marking(kind, d.manifest) && d.pending.Absent? && Cleared(kind, d, events) && Claims(kind, d)
    case PendingMade(Before, next) =>
      next == Marking(kind, d.manifest) && d.pending.Torn? && Cleared(kind, d, events) && Claims(kind, d)
    case PendingFull(Before, next) =>
      next == Marking(kind, d.manifest) && d.pending == Full(next) && Cleared(kind, d, events) && Claims(kind, d)
    case Marked(next) =>
      && next == d.manifest && next.status == UnknownOf(kind) && d.pending.Absent?
      && NotRan(kind, events) && Claims(kind, d)
      && (kind.Launch? ==> next.vmId == Some(kind.vmId) && next.plan == Some(kind.plan))
    case Ready(After, next) =>
      && d.manifest.status == UnknownOf(kind) && next == d.manifest.(status := FinalOf(kind)) && d.pending.Absent?
      && Claims(kind, d)
    case PendingMade(After, next) =>
      && d.manifest.status == UnknownOf(kind) && next == d.manifest.(status := FinalOf(kind)) && d.pending.Torn?
      && Claims(kind, d)
    case PendingFull(After, next) =>
      && d.manifest.status == UnknownOf(kind) && next == d.manifest.(status := FinalOf(kind)) && d.pending == Full(next)
      && Claims(kind, d)
    case _ => true
  }

  /** Each host script has been called at most once. */
  predicate AtMostOnce(events: seq<Event>) {
    forall i, j :: 0 <= i < j < |events| ==>
      && !(events[i].AttachRan? && events[j].AttachRan?)
      && !(events[i].LaunchRan? && events[j].LaunchRan?)
      && !(events[i].RetireRan? && events[j].RetireRan?)
  }

  /** Once a retirement is claimed, neither attach nor launch runs. */
  predicate RetireEnds(events: seq<Event>) {
    forall i, j :: 0 <= i < j < |events| && events[i].RetireClaimed? ==> !events[j].AttachRan? && !events[j].LaunchRan?
  }

  /** A retirement that follows a launch names the very VM that was launched. */
  predicate RetireNamesLaunched(events: seq<Event>) {
    forall i, j :: 0 <= i < j < |events| && events[i].LaunchRan? && events[j].RetireRan? ==>
      events[j].expectedVmId == Some(events[i].vmId)
  }

  /** A script that has run left its trace in the durable manifest and claims. */
  predicate Traced(e: Event, d: Dir) {
    match e
    case AttachRan => Rank(d.manifest.status) >= Rank(AttachUnknown)
    case LaunchRan(vmId, plan) =>
      && Rank(d.manifest.status) >= Rank(LaunchUnknown)
      && d.launchClaim == Full(Claim(vmId, plan))
      && d.manifest.vmId == Some(vmId) && d.manifest.plan == Some(plan)
    case RetireClaimed => !d.retireClaim.Absent?
    case RetireRan(_) => Rank(d.manifest.status) >= Rank(RetireUnknown) && !d.retireClaim.Absent?
  }

  predicate AllTraced(events: seq<Event>, d: Dir) {
    forall k :: 0 <= k < |events| ==> Traced(events[k], d)
  }

  predicate History(events: seq<Event>, d: Dir) {
    && AtMostOnce(events) && RetireEnds(events) && RetireNamesLaunched(events)
    && AllTraced(events, d)
    && (Launched(d.manifest.status) ==> Bound(d.manifest, d))
  }

  /** Only the guard's holder is past the guard, and it sees what it has checked. */
  predicate Exclusive(s: System) {
    forall id :: id in s.callers && Active(s.callers[id].pc) ==>
      s.dir.guard == Some(id) && PcHolds(s.callers[id].kind, s.callers[id].pc, s.dir, s.events)
  }

  predicate Inv(s: System) {
    Exclusive(s) && History(s.events, s.dir)
  }

  // ----- every step keeps it -----

  function Events(events: seq<Event>, e: Option<Event>): seq<Event> {
    if e.Some? then events + [e.value] else events
  }

  predicate Kept(d: Dir, id: nat, kind: Kind, events: seq<Event>, o: Outcome) {
    && History(Events(events, o.event), o.dir)
    && (Active(o.pc) ==> o.dir.guard == Some(id) && PcHolds(kind, o.pc, o.dir, Events(events, o.event)))
    && Rank(d.manifest.status) <= Rank(o.dir.manifest.status)
  }

  lemma CheckKeeps(d: Dir, id: nat, kind: Kind, pc: Pc, events: seq<Event>)
    requires pc.Probing? && d.guard == Some(id) && PcHolds(kind, pc, d, events) && History(events, d)
    requires Check1(d, kind, pc).Some?
    ensures Kept(d, id, kind, events, Check1(d, kind, pc).value)
  {
    hide History;
    var probes := Probes(kind);
    var p := probes[pc.checked];
    if Passes(p, kind, pc.seen, d) {
      var seen := if p.ReadManifest? then Some(d.manifest) else pc.seen;
      if kind.Attach? && pc.checked + 1 == |probes| && seen.Some? {
        assert probes[0].NoPending? && probes[1].ReadManifest? && probes[2].NoLaunchClaim?;
        assert Passes(probes[0], kind, pc.seen, d) && Passes(probes[1], kind, pc.seen, d) && Passes(probes[2], kind, pc.seen, d);
        NotYetAttached(d, events);
      } else {
        var next := pc.checked + 1;
        forall k | 0 <= k < next
          ensures Passes(probes[k], kind, seen, d)
        {
          assert k < pc.checked ==> Passes(probes[k], kind, pc.seen, d);
        }
        ReadAmong(kind, pc.checked);
      }
    }
  }

  lemma ReadAmong(kind: Kind, checked: nat)
    requires checked < |Probes(kind)|
    ensures (exists k :: 0 <= k < checked + 1 && Probes(kind)[k].ReadManifest?)
       <==> Probes(kind)[checked].ReadManifest? || exists k :: 0 <= k < checked && Probes(kind)[k].ReadManifest?
  {
  }

  lemma NotYetAttached(d: Dir, events: seq<Event>)
    requires History(events, d) && d.manifest.status.Created?
    ensures NotRan(Attach, events)
  {
    assert forall k :: 0 <= k < |events| ==> Traced(events[k], d);
  }

  lemma NotYet(kind: Kind, d: Dir, events: seq<Event>)
    requires History(events, d) && !kind.Attach?
    requires kind.Launch? ==> d.launchClaim.Absent?
    requires kind.Retire? ==> d.retireClaim.Absent?
    ensures NotRan(kind, events)
    ensures kind.Retire? ==> forall k :: 0 <= k < |events| ==> !events[k].RetireClaimed?
  {
    assert forall k :: 0 <= k < |events| ==> Traced(events[k], d);
  }

  lemma MakeClaimKeeps(d: Dir, id: nat, kind: Kind, pc: Pc, events: seq<Event>)
    requires pc.Probing? && d.guard == Some(id) && PcHolds(kind, pc, d, events) && History(events, d)
    requires MakeClaim1(d, kind, pc).Some?
    ensures Kept(d, id, kind, events, MakeClaim1(d, kind, pc).value)
  {
    var probes := Probes(kind);
    assert forall k :: 0 <= k < |probes| ==> Passes(probes[k], kind, pc.seen, d);
    match kind
    case Attach =>
    case Launch(_, _) =>
      assert probes[0].NoPending? && probes[1].NoLaunchClaim? && probes[2].NoRetireClaim? && probes[3].ReadManifest?;
      NotYet(kind, d, events);
    case Retire(_) =>
      assert probes[0].NoPending? && probes[1].ReadManifest? && probes[2].LaunchBinding?;
      if d.retireClaim.Absent? {
        NotYet(kind, d, events);
      }
  }

  lemma FillClaimKeeps(d: Dir, id: nat, kind: Kind, pc: Pc, events: seq<Event>)
    requires pc.ClaimMade? && d.guard == Some(id) && PcHolds(kind, pc, d, events) && History(events, d)
    requires FillClaim1(d, kind, pc).Some?
    ensures Kept(d, id, kind, events, FillClaim1(d, kind, pc).value)
  {
  }

  lemma ReplaceKeeps(d: Dir, id: nat, kind: Kind, pc: Pc, events: seq<Event>)
    requires pc.PendingFull? && d.guard == Some(id) && PcHolds(kind, pc, d, events) && History(events, d)
    ensures Perform(d, id, kind, pc, Replace).Some? && Kept(d, id, kind, events, Perform(d, id, kind, pc, Replace).value)
  {
    forall k | 0 <= k < |events|
      ensures Traced(events[k], d.(manifest := pc.next, pending := Absent))
    {
      assert Traced(events[k], d) && !(pc.phase.Before? && Ran(kind, events[k]));
    }
  }

  lemma InvokeKeeps(d: Dir, id: nat, kind: Kind, pc: Pc, events: seq<Event>, good: bool)
    requires pc.Marked? && d.guard == Some(id) && PcHolds(kind, pc, d, events) && History(events, d)
    ensures Perform(d, id, kind, pc, Invoke(good)).Some?
    ensures Kept(d, id, kind, events, Perform(d, id, kind, pc, Invoke(good)).value)
  {
    var e := RanEvent(kind, pc.next);
    var after := events + [e];
    assert Traced(e, d);
    forall k | 0 <= k < |events|
      ensures !Ran(kind, events[k])
      ensures events[k].RetireClaimed? ==> kind.Retire?
      ensures events[k].LaunchRan? && kind.Retire? ==> pc.next.vmId == Some(events[k].vmId)
    {
      assert Traced(events[k], d);
    }
    assert forall k :: 0 <= k < |after| ==> after[k] == if k < |events| then events[k] else e;
  }

  lemma PerformKeeps(d: Dir, id: nat, kind: Kind, pc: Pc, events: seq<Event>, move: Move)
    requires History(events, d) && Perform(d, id, kind, pc, move).Some?
    requires Active(pc) ==> d.guard == Some(id) && PcHolds(kind, pc, d, events)
    ensures Kept(d, id, kind, events, Perform(d, id, kind, pc, move).value)
    ensures Perform(d, id, kind, pc, move).value.dir.guard != d.guard ==>
      d.guard.None? || (d.guard == Some(id) && !Active(Perform(d, id, kind, pc, move).value.pc))
    ensures Active(pc) || Active(Perform(d, id, kind, pc, move).value.pc) || Perform(d, id, kind, pc, move).value.dir.(guard := d.guard) == d
    ensures !Active(pc) ==> Perform(d, id, kind, pc, move).value.event.None?
  {
    hide Kept, Check1, MakeClaim1, FillClaim1;
    match move
    case Check => CheckKeeps(d, id, kind, pc, events); CheckGuard(d, kind, pc);
    case MakeClaim => MakeClaimKeeps(d, id, kind, pc, events); CheckGuard(d, kind, pc);
    case FillClaim => FillClaimKeeps(d, id, kind, pc, events); CheckGuard(d, kind, pc);
    case Replace => ReplaceKeeps(d, id, kind, pc, events);
    case Invoke(good) => InvokeKeeps(d, id, kind, pc, events, good);
    case _ => PlainKeeps(d, id, kind, pc, events, move);
  }

  lemma CheckGuard(d: Dir, kind: Kind, pc: Pc)
    ensures pc.Probing? && Check1(d, kind, pc).Some? ==> Check1(d, kind, pc).value.dir == d
    ensures pc.Probing? && MakeClaim1(d, kind, pc).Some? ==> MakeClaim1(d, kind, pc).value.dir.guard == d.guard
    ensures pc.ClaimMade? && FillClaim1(d, kind, pc).Some? ==> FillClaim1(d, kind, pc).value.dir.guard == d.guard
  {
  }

  lemma PlainKeeps(d: Dir, id: nat, kind: Kind, pc: Pc, events: seq<Event>, move: Move)
    requires History(events, d) && Perform(d, id, kind, pc, move).Some?
    requires Active(pc) ==> d.guard == Some(id) && PcHolds(kind, pc, d, events)
    requires !(move.Check? || move.MakeClaim? || move.FillClaim? || move.Replace? || move.Invoke?)
    ensures Kept(d, id, kind, events, Perform(d, id, kind, pc, move).value)
  {
    var o := Perform(d, id, kind, pc, move).value;
    assert o.event.None?;
    assert o.dir.manifest == d.manifest && o.dir.launchClaim == d.launchClaim && o.dir.retireClaim == d.retireClaim;
    SameHistory(events, d, o.dir);
    hide History, Cleared, Claims, Passes;
  }

  lemma SameHistory(events: seq<Event>, d: Dir, e: Dir)
    requires History(events, d)
    requires e.manifest == d.manifest && e.launchClaim == d.launchClaim && e.retireClaim == d.retireClaim
    ensures History(events, e)
  {
    forall k | 0 <= k < |events|
      ensures Traced(events[k], e)
    {
      assert Traced(events[k], d);
    }
  }

  /** Every step of every caller, every crash and every unlock keeps the invariant. */
  lemma NextKeeps(s: System, step: Step)
    requires Inv(s) && Next(s, step).Some?
    ensures Inv(Next(s, step).value)
    ensures Rank(s.dir.manifest.status) <= Rank(Next(s, step).value.dir.manifest.status)
    ensures s.events <= Next(s, step).value.events
  {
    hide History, PcHolds, Perform;
    match step
    case OperatorUnlock =>
      SameHistory(s.events, s.dir, s.dir.(guard := None));
    case By(id, move) =>
      var c := s.callers[id];
      PerformKeeps(s.dir, id, c.kind, c.pc, s.events, move);
  }

  lemma {:induction false} RunKeeps(s: System, steps: seq<Step>)
    requires Init(s) && Run(s, steps).Some?
    ensures Inv(Run(s, steps).value)
  {
    if steps != [] {
      var n := |steps| - 1;
      RunKeeps(s, steps[..n]);
      hide Inv, Next;
      NextKeeps(Run(s, steps[..n]).value, steps[n]);
    }
  }

  lemma {:induction false} RunPrefix(s: System, steps: seq<Step>, n: nat)
    requires Init(s) && Run(s, steps).Some? && n <= |steps|
    ensures Run(s, steps[..n]).Some?
    ensures Rank(Run(s, steps[..n]).value.dir.manifest.status) <= Rank(Run(s, steps).value.dir.manifest.status)
    ensures Run(s, steps[..n]).value.events <= Run(s, steps).value.events
  {
    if n < |steps| {
      var front := steps[..|steps| - 1];
      RunPrefix(s, front, n);
      assert front[..n] == steps[..n];
      RunKeeps(s, front);
      hide Inv, Next, Init;
      NextKeeps(Run(s, front).value, steps[|steps| - 1]);
    } else {
      assert steps[..n] == steps;
    }
  }

  // ----- the main results -----

  /**
   On every run, whatever the interleaving and wherever callers crash: each host script is called at
   most once, none but the retirement after a retire claim, and a retirement after a launch passes
   the launched VM's GUID.
   */
  lemma ScriptsAreSafe(s: System, steps: seq<Step>)
    requires Init(s) && Run(s, steps).Some?
    ensures AtMostOnce(Run(s, steps).value.events)
    ensures RetireEnds(Run(s, steps).value.events)
    ensures RetireNamesLaunched(Run(s, steps).value.events)
  {
    RunKeeps(s, steps);
    hide Run, AtMostOnce, RetireEnds, RetireNamesLaunched, AllTraced, Exclusive;
  }

  /** The durable manifest's status never goes back. */
  lemma RankNeverFalls(s: System, steps: seq<Step>, m: nat, n: nat)
    requires Init(s) && Run(s, steps).Some? && m <= n <= |steps|
    ensures Run(s, steps[..m]).Some? && Run(s, steps[..n]).Some?
    ensures Rank(Run(s, steps[..m]).value.dir.manifest.status) <= Rank(Run(s, steps[..n]).value.dir.manifest.status)
  {
    RunPrefix(s, steps, n);
    assert steps[..n][..m] == steps[..m];
    RunPrefix(s, steps[..n], m);
  }

  /**
   At every point of every run, a script that has been called has its unknown status, or a later
   one, already in the durable manifest; a launch's GUID and plan digest are those of its claim.
   */
  lemma CalledMeansRecorded(s: System, steps: seq<Step>, n: nat, k: nat)
    requires Init(s) && Run(s, steps).Some? && n <= |steps|
    requires Run(s, steps[..n]).Some? && k < |Run(s, steps[..n]).value.events|
    ensures Traced(Run(s, steps[..n]).value.events[k], Run(s, steps[..n]).value.dir)
  {
    RunKeeps(s, steps[..n]);
    hide Run, AtMostOnce, RetireEnds, RetireNamesLaunched, Exclusive, Traced;
  }

  /** No two callers are ever past the guard at the same time. */
  lemma OneAtATime(s: System, steps: seq<Step>, a: nat, b: nat)
    requires Init(s) && Run(s, steps).Some?
    requires a in Run(s, steps).value.callers && Active(Run(s, steps).value.callers[a].pc)
    requires b in Run(s, steps).value.callers && Active(Run(s, steps).value.callers[b].pc)
    ensures a == b
  {
    RunKeeps(s, steps);
    hide Run, History, PcHolds;
  }

  /** The changes of the manifest that a caller may make: from what its record or its order demands, to the next status. */
  predicate Transition(kind: Kind, d: Dir, m: Manifest) {
    var was := d.manifest;
    match kind
    case Attach =>
      || (was.status == Created && d.launchClaim.Absent? && d.retireClaim.Absent? && m == was.(status := AttachUnknown))
      || (was.status == AttachUnknown && m == was.(status := SeedAttached))
    case Launch(vmId, plan) =>
      || (was.status == SeedAttached && (was.vmId == None || was.vmId == Some(vmId)) && d.retireClaim.Absent?
          && d.launchClaim == Full(Claim(vmId, plan)) && m == Manifest(LaunchUnknown, Some(vmId), Some(plan)))
      || (was.status == LaunchUnknown && m == was.(status := Started))
    case Retire(record) =>
      || (was.status == record && record !in {RetireUnknown, Retired} && d.retireClaim.Full?
          && (if record in {LaunchUnknown, Started} then
                was.vmId.Some? && was.plan.Some? && d.launchClaim == Full(Claim(was.vmId.value, was.plan.value))
              else d.launchClaim.Absent?)
          && m == was.(status := RetireUnknown))
      || (was.status == RetireUnknown && m == was.(status := Retired))
  }

  /** On every run, each change of the manifest is one of these, made by a caller of that kind. */
  lemma ChangesAreTransitions(s: System, steps: seq<Step>, step: Step)
    requires Init(s) && Run(s, steps).Some? && Next(Run(s, steps).value, step).Some?
    ensures var t, u := Run(s, steps).value, Next(Run(s, steps).value, step).value;
      u.dir.manifest != t.dir.manifest ==>
        step.By? && step.id in t.callers && Transition(t.callers[step.id].kind, t.dir, u.dir.manifest)
  {
    RunKeeps(s, steps);
    hide Run, Init;
    var t := Run(s, steps).value;
    if step.By? {
      var c := t.callers[step.id];
      ReplaceTransits(t.dir, step.id, c.kind, c.pc, t.events, step.move);
    }
  }

  lemma ReplaceTransits(d: Dir, id: nat, kind: Kind, pc: Pc, events: seq<Event>, move: Move)
    requires (Active(pc) ==> PcHolds(kind, pc, d, events)) && Perform(d, id, kind, pc, move).Some?
    ensures var m := Perform(d, id, kind, pc, move).value.dir.manifest;
      m != d.manifest ==> Transition(kind, d, m)
  {
    hide NotRan, Passes;
  }
}
