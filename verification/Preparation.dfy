/**
 The preparation VM protocol: any number of attach, launch and retire callers sharing one control
 directory through a guard file, permanent claim files and an atomically replaced manifest.

 Every file operation is one step; a caller may crash between any two of them, and an operator may
 remove the guard of a caller that is no longer running.
 */
module Preparation {
  import opened Wrappers

  // ----- the shared directory -----

  datatype Status =
    | ProvisioningUnknown | Created | AttachUnknown | SeedAttached
    | LaunchUnknown | Started | RetireUnknown | Retired

  function Rank(s: Status): nat {
    match s
    case ProvisioningUnknown => 0
    case Created => 1
    case AttachUnknown => 2
    case SeedAttached => 3
    case LaunchUnknown => 4
    case Started => 5
    case RetireUnknown => 6
    case Retired => 7
  }

  /** The manifest's fields that change: its status, the VM's GUID and the launched plan's digest. */
  datatype Manifest = Manifest(status: Status, vmId: Option<string>, plan: Option<string>)

  datatype Claim = Claim(vmId: string, plan: string)

  /** A file created exclusively is torn until its contents are written and flushed. */
  datatype File<T> = Absent | Torn | Full(value: T)

  datatype Dir = Dir(
    manifest: Manifest,
    pending: File<Manifest>,
    guard: Option<nat>,
    launchClaim: File<Claim>,
    retireClaim: File<()>)

  // ----- callers -----

  datatype Kind = Attach | Launch(vmId: string, plan: string) | Retire(record: Status)

  datatype Phase = Before | After

  datatype Pc =
    | Idle
    | Probing(checked: nat, seen: Option<Manifest>)
    | ClaimMade(source: Manifest)
    | Ready(phase: Phase, next: Manifest)
    | PendingMade(phase: Phase, next: Manifest)
    | PendingFull(phase: Phase, next: Manifest)
    | Marked(next: Manifest)
    | Releasing
    | Ended
    | Dead

  datatype Caller = Caller(kind: Kind, pc: Pc)

  datatype Event =
    | AttachRan
    | LaunchRan(vmId: string, plan: string)
    | RetireClaimed
    | RetireRan(expectedVmId: Option<string>)

  datatype System = System(dir: Dir, callers: map<nat, Caller>, events: seq<Event>)

  // ----- what a caller checks under the guard -----

  datatype Probe = NoPending | NoLaunchClaim | NoRetireClaim | ReadManifest | LaunchBinding

  /** The checks of each caller in its own order. */
  function Probes(kind: Kind): seq<Probe> {
    match kind
    case Attach => [NoPending, ReadManifest, NoLaunchClaim, NoRetireClaim]
    case Launch(_, _) => [NoPending, NoLaunchClaim, NoRetireClaim, ReadManifest]
    case Retire(_) => [NoPending, ReadManifest, LaunchBinding]
  }

  predicate Launched(s: Status) { s.LaunchUnknown? || s.Started? }

  /** The manifest a caller may start from. */
  predicate Startable(kind: Kind, m: Manifest) {
    match kind
    case Attach => m.status.Created?
    case Launch(vmId, _) => m.status.SeedAttached? && (m.vmId.Some? ==> m.vmId.value == vmId)
    case Retire(record) => m.status == record && Rank(record) < Rank(RetireUnknown)
  }

  /** A launched VM must match its claim; otherwise there must be no launch claim at all. */
  predicate Bound(m: Manifest, d: Dir) {
    if Launched(m.status) then
      m.vmId.Some? && m.plan.Some? && d.launchClaim == Full(Claim(m.vmId.value, m.plan.value))
    else d.launchClaim.Absent?
  }

  predicate Passes(p: Probe, kind: Kind, seen: Option<Manifest>, d: Dir) {
    match p
    case NoPending => d.pending.Absent?
    case NoLaunchClaim => d.launchClaim.Absent?
    case NoRetireClaim => d.retireClaim.Absent?
    case ReadManifest => Startable(kind, d.manifest)
    case LaunchBinding => seen.Some? && Bound(seen.value, d)
  }

  function UnknownOf(kind: Kind): Status {
    match kind
    case Attach => AttachUnknown
    case Launch(_, _) => LaunchUnknown
    case Retire(_) => RetireUnknown
  }

  function FinalOf(kind: Kind): Status {
    match kind
    case Attach => SeedAttached
    case Launch(_, _) => Started
    case Retire(_) => Retired
  }

  /** The manifest stored before the host script is called. */
  function Marking(kind: Kind, m: Manifest): Manifest {
    match kind
    case Launch(vmId, plan) => Manifest(LaunchUnknown, Some(vmId), Some(plan))
    case _ => m.(status := UnknownOf(kind))
  }

  function RanEvent(kind: Kind, m: Manifest): Event {
    match kind
    case Attach => AttachRan
    case Launch(vmId, plan) => LaunchRan(vmId, plan)
    case Retire(_) => RetireRan(m.vmId)
  }

  // ----- steps -----

  datatype Move =
    | Acquire            // create the guard file exclusively and write the token
    | AcquireTorn        // create it, then fail to write the token: it stays behind
    | Check              // perform the next check under the guard
    | MakeClaim          // create the permanent claim exclusively
    | FillClaim          // write and flush the claim
    | MakePending        // create manifest.pending exclusively
    | FillPending        // write and flush it
    | Replace            // replace the manifest by it
    | Invoke(good: bool) // call the host script; a bad outcome or receipt is an exception
    | Fail               // any other exception
    | Release            // remove the guard
    | ReleaseFail        // fail to remove it
    | Crash

  datatype Step = By(id: nat, move: Move) | OperatorUnlock

  predicate Active(pc: Pc) {
    !(pc.Idle? || pc.Ended? || pc.Dead?)
  }

  datatype Outcome = Outcome(dir: Dir, pc: Pc, event: Option<Event>)

  function Check1(d: Dir, kind: Kind, pc: Pc): Option<Outcome>
    requires pc.Probing?
  {
    var probes := Probes(kind);
    if pc.checked >= |probes| then None
    else
      var p := probes[pc.checked];
      if !Passes(p, kind, pc.seen, d) then Some(Outcome(d, Releasing, None))
      else
        var seen := if p.ReadManifest? then Some(d.manifest) else pc.seen;
        if kind.Attach? && pc.checked + 1 == |probes| && seen.Some? then
          Some(Outcome(d, Ready(Before, Marking(kind, seen.value)), None))
        else Some(Outcome(d, Probing(pc.checked + 1, seen), None))
  }

  function MakeClaim1(d: Dir, kind: Kind, pc: Pc): Option<Outcome>
    requires pc.Probing?
  {
    if pc.checked != |Probes(kind)| || pc.seen.None? then None
    else
      match kind
      case Attach => None
      case Launch(_, _) =>
        if !d.launchClaim.Absent? then Some(Outcome(d, Releasing, None))
        else Some(Outcome(d.(launchClaim := Torn), ClaimMade(pc.seen.value), None))
      case Retire(_) =>
        if !d.retireClaim.Absent? then Some(Outcome(d, Releasing, None))
        else Some(Outcome(d.(retireClaim := Torn), ClaimMade(pc.seen.value), Some(RetireClaimed)))
  }

  function FillClaim1(d: Dir, kind: Kind, pc: Pc): Option<Outcome>
    requires pc.ClaimMade?
  {
    var ready := Ready(Before, Marking(kind, pc.source));
    match kind
    case Attach => None
    case Launch(vmId, plan) => Some(Outcome(d.(launchClaim := Full(Claim(vmId, plan))), ready, None))
    case Retire(_) => Some(Outcome(d.(retireClaim := Full(())), ready, None))
  }

  /** What one move of a caller does to the directory and to itself; `None` when it cannot be made. */
  function Perform(d: Dir, id: nat, kind: Kind, pc: Pc, move: Move): Option<Outcome> {
    match move
    case Acquire =>
      if !pc.Idle? then None
      else if d.guard.Some? then Some(Outcome(d, Ended, None))
      else Some(Outcome(d.(guard := Some(id)), Probing(0, None), None))
    case AcquireTorn =>
      if !pc.Idle? || d.guard.Some? then None else Some(Outcome(d.(guard := Some(id)), Ended, None))
    case Check => if pc.Probing? then Check1(d, kind, pc) else None
    case MakeClaim => if pc.Probing? then MakeClaim1(d, kind, pc) else None
    case FillClaim => if pc.ClaimMade? then FillClaim1(d, kind, pc) else None
    case MakePending =>
      if !pc.Ready? then None
      else if !d.pending.Absent? then Some(Outcome(d, Releasing, None))
      else Some(Outcome(d.(pending := Torn), PendingMade(pc.phase, pc.next), None))
    case FillPending =>
      if !pc.PendingMade? then None
      else Some(Outcome(d.(pending := Full(pc.next)), PendingFull(pc.phase, pc.next), None))
    case Replace =>
      if !pc.PendingFull? || !d.pending.Full? then None
      else
        Some(Outcome(d.(manifest := d.pending.value, pending := Absent),
                     if pc.phase.Before? then Marked(pc.next) else Releasing, None))
    case Invoke(good) =>
      if !pc.Marked? then None
      else
        Some(Outcome(d, if good then Ready(After, pc.next.(status := FinalOf(kind))) else Releasing,
                     Some(RanEvent(kind, pc.next))))
    case Fail => if Active(pc) && !pc.Releasing? then Some(Outcome(d, Releasing, None)) else None
    case Release =>
      if !pc.Releasing? then None
      else Some(Outcome(if d.guard == Some(id) then d.(guard := None) else d, Ended, None))
    case ReleaseFail => if pc.Releasing? then Some(Outcome(d, Ended, None)) else None
    case Crash => if Active(pc) then Some(Outcome(d, Dead, None)) else None
  }

  function Next(s: System, step: Step): Option<System> {
    match step
    case By(id, move) =>
      if id !in s.callers then None
      else
        var c := s.callers[id];
        (match Perform(s.dir, id, c.kind, c.pc, move)
         case None => None
         case Some(o) =>
           Some(System(o.dir, s.callers[id := c.(pc := o.pc)],
                       if o.event.Some? then s.events + [o.event.value] else s.events)))
    case OperatorUnlock =>
      if s.dir.guard.Some? && (s.dir.guard.value in s.callers ==> !Active(s.callers[s.dir.guard.value].pc))
      then Some(s.(dir := s.dir.(guard := None))) else None
  }

  /** The state after a run; `None` when some step of it cannot be made. */
  function Run(s: System, steps: seq<Step>): Option<System>
    decreases |steps|
  {
    if steps == [] then Some(s)
    else
      match Run(s, steps[..|steps| - 1])
      case None => None
      case Some(t) => Next(t, steps[|steps| - 1])
  }

  /** A created VM, with any number of callers that have not begun. */
  predicate Init(s: System) {
    && (s.dir.manifest.status.ProvisioningUnknown? || s.dir.manifest.status.Created?)
    && s.dir.pending.Absent? && s.dir.guard.None? && s.dir.launchClaim.Absent? && s.dir.retireClaim.Absent?
    && s.events == []
    && forall id :: id in s.callers ==> s.callers[id].pc.Idle?
  }
}
