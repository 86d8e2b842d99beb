/**
 The owner of one native child: two pipes, a pid descriptor, and the one wait that may consume it.

 What the host must never be asked - to wait or signal after a consuming wait was tried, to close a
 descriptor twice, to write the gate twice or before the reports are drained - stands as the
 preconditions of its methods.  Every call may also fault, having had its effect or not.
 */
module NativeWorker {
  import opened Wrappers
  import WorkerReports

  /** An observed exit. */
  datatype Wait = Wait(exited: bool, pid: int, status: nat)

  datatype ReadOutcome = Bytes(data: string) | Blocked | EndOfPipe | ReadFault

  datatype WaitOutcome = Running | Seen(wait: Wait) | WaitFault

  function Brought(r: ReadOutcome): seq<string> {
    if r.Bytes? then [r.data] else []
  }

  class Host {
    /** Descriptors handed out and not yet given to close; no number is handed out twice. */
    var open: set<nat>
    var next: nat
    ghost var spawned: bool
    /** The spawned child's number. */
    ghost var child: int
    ghost var consuming: bool
    ghost var gateWritten: bool
    /** The last look at the report pipe found nothing in it. */
    ghost var drained: bool
    /** What each successful read of the report pipe brought. */
    ghost var brought: seq<string>
    /** What every look at the child saw, how often it was signalled, and what the consuming wait told. */
    ghost var seen: seq<WaitOutcome>
    ghost var signals: nat
    ghost var consumed: Option<Wait>
    var looks: nat

    ghost predicate Fresh()
      reads this`open, this`next
    {
      forall fd :: fd in open ==> fd < next
    }

    constructor (looks: nat)
      ensures Fresh() && open == {} && !spawned && !consuming && !gateWritten && brought == []
    {
      open, next, spawned, consuming, gateWritten, drained, this.looks := {}, 0, false, false, false, false, looks;
      brought, seen, signals, consumed := [], [], 0, None;
    }

    /** Time left to go on; every look uses some. */
    method Time() returns (left: bool)
      modifies this`looks
      ensures left ==> looks < old(looks)
      ensures looks <= old(looks)
    {
      var stopped: bool := *;
      left := looks > 0 && !stopped;
      if looks > 0 {
        looks := looks - 1;
      }
    }

    /** A new descriptor, or none. */
    method NewDescriptor() returns (fd: Option<nat>)
      requires Fresh()
      modifies this`open, this`next
      ensures Fresh() && open == old(open) + (if fd.Some? then {fd.value} else {})
      ensures fd.Some? ==> fd.value !in old(open)
    {
      var failed: bool, n: nat := *, *;
      if failed {
        return None;
      }
      fd := Some(n);
      if n < next {
        fd := None;
      } else {
        open, next := open + {n}, n + 1;
      }
    }

    /** One attempt at closing a descriptor, whatever comes of it. */
    method Close(fd: nat) returns (ok: bool)
      requires fd in open
      modifies this`open
      ensures open == old(open) - {fd}
    {
      open := open - {fd};
      ok := *;
    }

    method Spawn() returns (pid: Option<int>)
      requires !spawned
      modifies this`spawned, this`child
      ensures spawned == pid.Some? && (pid.Some? ==> child == pid.value)
    {
      pid := *;
      if pid.Some? {
        child := pid.value;
      }
      spawned := pid.Some?;
    }

    method Read(fd: nat) returns (r: ReadOutcome)
      requires fd in open
      modifies this`drained, this`brought
      ensures drained == r.Blocked? && brought == old(brought) + Brought(r)
    {
      r := *;
      drained := r.Blocked?;
      brought := brought + Brought(r);
    }

    method WriteGate(fd: nat) returns (ok: bool)
      requires fd in open && !gateWritten && drained
      modifies this`gateWritten
      ensures gateWritten
    {
      gateWritten := true;
      ok := *;
    }

    /** Look at the child without reaping it. */
    method Peek() returns (r: WaitOutcome)
      requires spawned && !consuming
      modifies this`seen
      ensures seen == old(seen) + [r]
    {
      r := *;
      seen := seen + [r];
    }

    /** Signal the child through its own descriptor. */
    method Kill(fd: nat) returns (ok: bool)
      requires fd in open && spawned && !consuming
      modifies this`signals
      ensures signals == old(signals) + 1
    {
      signals := signals + 1;
      ok := *;
    }

    /** The wait that reaps; it may have reaped even when it faults. */
    method Consume() returns (r: Option<Wait>)
      requires spawned && !consuming
      modifies this`consuming, this`consumed
      ensures consuming && consumed == r
    {
      consuming := true;
      r := *;
      consumed := r;
    }

    method Pause() returns (ok: bool)
    {
      ok := *;
    }
  }

  datatype Phase = Acquiring | Started | Ready | Released | AtEof | Held | Closed | CleanupUnknown

  datatype Failure =
    | Terminal | Order | Budget | PipeRefused | SpawnUnknown | PidfdUnknown | GateOrder | GateWriteUnknown
    | DescriptorCleanup | ExitIdentity | AbnormalExit | ReapUnknown | SessionRefused | ReadRefused | Paused
    | AlreadyCleaned | CleanupFailed

  class NativeWorkerOwner {
    const host: Host
    var fds: set<nat>
    var process: bool
    /** Kept alive so that nothing else reaps the child. */
    ghost var retained: bool
    /** The child was reaped, and the reaping told what had been observed. */
    ghost var reaped: bool
    var pidfd: Option<nat>
    var report: nat
    var gate: nat
    var phase: Phase
    var failed: bool
    var closeUnknown: bool
    var cleanupAttempted: bool
    var lifetimeUnknown: bool
    var observed: Option<Wait>
    var session: WorkerReports.WorkerReportSession?

    /** Descriptors and child: what is owned is what is open, and an unreaped child is kept. */
    ghost predicate Owns()
      reads this`fds, this`process, this`retained, this`reaped, this`pidfd, this`report, this`gate,
        this`lifetimeUnknown, host`open, host`next, host`spawned, host`consuming
    {
      && host.Fresh() && fds == host.open
      && (pidfd.Some? && process ==> pidfd.value in fds)
      && (pidfd.Some? ==> report != pidfd.value && gate != pidfd.value) && report != gate
      && process == (host.spawned && !reaped) && retained == process
      && (host.consuming ==> lifetimeUnknown || reaped) && (reaped ==> host.consuming && !lifetimeUnknown)
    }

    /** The session is in order, and has been handed exactly what was read, read by read. */
    ghost predicate InSession()
      reads this`session, session, host`brought
    {
      session != null && session.Valid() && session.fed == host.brought
    }

    /** What each phase still holds, while nothing has failed. */
    ghost predicate InPhase()
      reads this`phase, this`fds, this`report, this`gate, this`observed, this`process, this`session, host`gateWritten, session
    {
      && (phase in {Started, Ready} ==> report in fds && gate in fds && !host.gateWritten)
      && (phase in {Started, Ready} ==> session != null && !session.released)
      && (phase in {Released, AtEof} ==> report in fds)
      && (phase.Held? ==> observed.Some?)
      && (phase in {Started, Ready, Released, AtEof, Held} ==> process)
    }

    ghost predicate Valid()
      reads this, host, session
    {
      && Owns() && (!failed ==> InPhase() && !phase.Acquiring?)
      && (phase in {Started, Ready, Released, AtEof, Held} ==> InSession())
      && (cleanupAttempted ==> phase in {Closed, CleanupUnknown}) && (phase.CleanupUnknown? ==> cleanupAttempted)
      && (phase in {Closed, CleanupUnknown} ==> fds == {})
      && (phase.Closed? ==> !process)
    }

    /** What holds in the middle of an operation, before it is known to have failed. */
    ghost predicate Recoverable()
      reads this, host, session
    {
      && Owns() && (phase in {Started, Ready, Released, AtEof, Held} ==> InSession())
      && (phase in {Closed, CleanupUnknown} ==> Valid())
      && (cleanupAttempted ==> phase in {Closed, CleanupUnknown})
    }

    constructor (host: Host)
      requires host.Fresh() && host.open == {} && !host.spawned && !host.consuming && !host.gateWritten
      ensures Owns() && this.host == host && fresh(this) && session == null
      ensures !process && pidfd.None? && fds == {} && phase.Acquiring? && !failed && !cleanupAttempted && !lifetimeUnknown && !closeUnknown
    {
      this.host := host;
      fds, process, retained, reaped, pidfd, report, gate := {}, false, false, false, None, 0, 1;
      phase, failed, closeUnknown, cleanupAttempted, lifetimeUnknown := Acquiring, false, false, false, false;
      observed, session := None, null;
    }

    method Check() returns (why: Option<Failure>)
      modifies host`looks
      ensures why.None? ==> !failed && phase !in {Closed, CleanupUnknown} && host.looks < old(host.looks)
      ensures host.looks <= old(host.looks)
    {
      if failed || phase in {Closed, CleanupUnknown} {
        return Some(Terminal);
      }
      var left := host.Time();
      why := if left then None else Some(Budget);
    }

    /** Let go of a descriptor; it is given up before the close, whose outcome may be unknown. */
    method Close(fd: nat) returns (why: Option<Failure>)
      requires Owns() && (pidfd == Some(fd) ==> !process)
      modifies this`fds, this`closeUnknown, host`open
      ensures Owns() && fds == old(fds) - {fd}
      ensures why.Some? ==> closeUnknown
    {
      if fd !in fds {
        return None;
      }
      fds := fds - {fd};
      var ok := host.Close(fd);
      if !ok {
        closeUnknown := true;
        return Some(DescriptorCleanup);
      }
      why := None;
    }

    /** Close everything left, once each, faults notwithstanding. */
    method CloseAll() returns (clean: bool)
      requires Owns()
      modifies this`fds, this`closeUnknown, this`pidfd, host`open
      ensures Owns() && fds == {} && pidfd.None?
    {
      clean := true;
      pidfd := None;
      while fds != {}
        invariant Owns() && pidfd.None?
        decreases fds
      {
        var fd :| fd in fds;
        var why := Close(fd);
        clean := clean && why.None?;
      }
    }

    /** Look at the child without reaping it; a fault leaves its lifetime unknown for good. */
    method PeekAtChild() returns (r: Result<Option<Wait>, Failure>)
      requires Owns()
      modifies this`lifetimeUnknown, host`seen
      ensures Owns()
      ensures r.Err? ==> host.seen == old(host.seen) || host.seen == old(host.seen) + [WaitFault]
      ensures r.Ok? ==>
        host.seen == old(host.seen) + if !process then [] else if r.value.Some? then [Seen(r.value.value)] else [Running]
      ensures r.Ok? ==> !lifetimeUnknown && lifetimeUnknown == old(lifetimeUnknown)
      ensures r.Ok? && r.value.Some? ==> process
      ensures r.Ok? && process ==> !host.consuming
    {
      if lifetimeUnknown {
        return Err(ExitIdentity);
      }
      if !process {
        return Ok(None);
      }
      var seen := host.Peek();
      match seen {
        case Running => return Ok(None);
        case Seen(wait) => return Ok(Some(wait));
        case WaitFault =>
          lifetimeUnknown := true;
          return Err(ExitIdentity);
      }
    }

    /** Reap the child whose exit was observed: tried at most once in its lifetime. */
    method Reap(expected: Wait) returns (why: Option<Failure>)
      requires Owns() && process
      modifies this`lifetimeUnknown, this`process, this`retained, this`reaped, host`consuming, host`consumed
      ensures Owns()
      ensures why.None? ==> reaped && !process && !lifetimeUnknown && host.consuming && host.consumed == Some(expected)
      ensures why.Some? ==> lifetimeUnknown && retained
    {
      if lifetimeUnknown {
        return Some(ReapUnknown);
      }
      lifetimeUnknown := true;
      var result := host.Consume();
      if result != Some(expected) {
        return Some(ReapUnknown);
      }
      process, retained, reaped, lifetimeUnknown := false, false, true, false;
      return None;
    }

    /**
     The one clean-up after a failure: kill by the pid descriptor, wait, reap, and close everything.
     It succeeds only with the child reaped (or never spawned) and nothing closed in doubt.
     */
    method Abort() returns (why: Option<Failure>)
      requires Valid() || (Owns() && phase.Acquiring? && !cleanupAttempted && session == null)
      modifies this`fds, this`closeUnknown, this`pidfd, this`lifetimeUnknown, this`process, this`retained, this`reaped,
        this`failed, this`cleanupAttempted, this`phase, host`open, host`looks, host`consuming, host`consumed, host`seen,
        host`signals
      ensures Valid()
      ensures old(phase.Closed?) ==> why.None? && unchanged(host) && unchanged(this)
      ensures !old(phase.Closed?) && old(cleanupAttempted) ==> why == Some(AlreadyCleaned) && unchanged(host) && unchanged(this)
      ensures phase in {Closed, CleanupUnknown} && fds == {}
      ensures why.None? <==> phase.Closed?
      ensures why.None? ==> !process && (host.spawned ==> reaped)
      ensures process ==> retained
      ensures host.signals == old(host.signals) + if SignalDue(old(host.seen), old(pidfd)) then 1 else 0
      ensures why.None? && old(process) ==> Told(old(host.seen))
    {
      if phase.Closed? {
        return None;
      }
      if cleanupAttempted {
        return Some(AlreadyCleaned);
      }
      cleanupAttempted, failed := true, true;
      var unknown := closeUnknown;
      var stuck := KillAndReap();
      var clean := CloseAll();
      unknown := unknown || stuck.Some? || !clean;
      phase := if unknown then CleanupUnknown else Closed;
      why := if unknown then Some(CleanupFailed) else None;
    }

    /** The first look since then found the child running, and it could be signalled. */
    ghost predicate SignalDue(before: seq<WaitOutcome>, pidfd: Option<nat>)
      reads host`seen
    {
      |host.seen| > |before| && before <= host.seen && host.seen[|before|].Running? && pidfd.Some?
    }

    /** The last look since then saw the exit that the consuming wait told of. */
    ghost predicate Told(before: seq<WaitOutcome>)
      reads host`seen, host`consumed
    {
      && before < host.seen && host.seen[|host.seen| - 1].Seen?
      && host.consumed == Some(host.seen[|host.seen| - 1].wait)
    }

    /** The part of Abort that can leave the child behind. */
    method KillAndReap() returns (why: Option<Failure>)
      requires Owns()
      modifies this`lifetimeUnknown, this`process, this`retained, this`reaped, host`looks, host`consuming, host`consumed,
        host`seen, host`signals
      ensures Owns() && (why.None? ==> !process)
      ensures old(host.seen) <= host.seen
      ensures host.signals == old(host.signals) + if SignalDue(old(host.seen), pidfd) then 1 else 0
      ensures why.None? && old(process) ==> Told(old(host.seen))
    {
      var left := host.Time();
      if !left || lifetimeUnknown {
        return Some(CleanupFailed);
      }
      if !process {
        return None;
      }
      var seen := PeekAtChild();
      if seen.Err? {
        return Some(seen.error);
      }
      if seen.value.None? {
        if pidfd.None? {
          return Some(CleanupFailed);
        }
        var killed := host.Kill(pidfd.value);
        if !killed {
          return Some(CleanupFailed);
        }
        while seen.value.None?
          invariant Owns() && process && !lifetimeUnknown && seen.Ok?
          invariant pidfd == old(pidfd) && SignalDue(old(host.seen), pidfd) && host.signals == old(host.signals) + 1
          invariant seen.value.Some? ==> host.seen[|host.seen| - 1] == Seen(seen.value.value)
          decreases host.looks, seen.value.None?
        {
          left := host.Time();
          if !left {
            return Some(CleanupFailed);
          }
          seen := PeekAtChild();
          if seen.Err? {
            return Some(seen.error);
          }
          if seen.value.None? {
            var paused := host.Pause();
            if !paused {
              return Some(CleanupFailed);
            }
          }
        }
      }
      why := Reap(seen.value.value);
    }

    /** What every failed operation leaves behind; only Abort remains. */
    method GiveUp(why: Failure) returns (e: Failure)
      requires Recoverable()
      modifies this`failed
      ensures Valid() && failed && e == why
    {
      failed := true;
      e := why;
    }

    /** Read the report pipe once, feeding the session; `more` when there was something. */
    method ReadReports() returns (why: Option<Failure>, more: bool)
      requires Valid() && !failed && phase in {Started, Ready, Released}
      modifies this`phase, host`looks, host`drained, host`brought, session
      ensures Valid() && (phase == old(phase) || (phase.AtEof? && old(phase.Released?) && more))
      ensures host.looks <= old(host.looks)
      ensures why.None? ==> host.looks < old(host.looks) && host.drained == !more
    {
      more := false;
      why := Check();
      if why.Some? {
        return;
      }
      var read := host.Read(report);
      why := Hear(read);
      more := !read.Blocked?;
    }

    /** Pass on to the session what one read brought. */
    method Hear(read: ReadOutcome) returns (why: Option<Failure>)
      requires Owns() && InPhase() && !failed && phase in {Started, Ready, Released} && !cleanupAttempted
      requires session != null && session.Valid() && host.brought == session.fed + Brought(read)
      modifies this`phase, session
      ensures Valid() && (phase == old(phase) || (phase.AtEof? && old(phase.Released?) && !read.Blocked?))
    {
      hide Owns;
      why := None;
      match read {
        case Blocked =>
        case ReadFault =>
          why := Some(ReadRefused);
        case EndOfPipe =>
          var ended := session.EndOfReports();
          if ended.Err? {
            why := Some(SessionRefused);
          } else {
            phase := AtEof;
          }
        case Bytes(data) =>
          var fed := session.Feed(data);
          if fed.Err? {
            why := Some(SessionRefused);
          }
      }
    }

    /** An operation begins in its own phase, with time left. */
    method Begin(expected: Phase) returns (why: Option<Failure>)
      modifies host`looks
      ensures why.None? ==> !failed && phase == expected
      ensures host.looks <= old(host.looks)
    {
      why := Check();
      if why.None? && phase != expected {
        why := Some(Order);
      }
    }

    method AwaitReady() returns (why: Option<Failure>)
      requires Valid()
      modifies this`failed, this`phase, host`looks, host`drained, host`brought, session
      ensures Valid()
      ensures why.Some? ==> failed
      ensures why.None? ==> old(phase.Started?) && phase.Ready? && !failed
    {
      hide Owns, WorkerReports.WorkerReportSession.Valid;
      why := Begin(Started);
      if why.Some? {
        var e := GiveUp(why.value);
        return;
      }
      var ready := false;
      while !ready
        invariant Valid() && !failed && phase.Started?
        decreases host.looks, !ready
      {
        var said := session.ReadyForRelease();
        if said.Err? {
          var e := GiveUp(SessionRefused);
          return Some(e);
        }
        ready := said.value;
        if !ready {
          var more;
          why, more := ReadReports();
          if why.None? && !more {
            var paused := host.Pause();
            why := if paused then None else Some(Paused);
          }
          if why.Some? {
            var e := GiveUp(why.value);
            return;
          }
        }
      }
      phase := Ready;
      why := Check();
      if why.Some? {
        var e := GiveUp(why.value);
      }
    }

    /** Read whatever is queued in the report pipe, until a read finds nothing. */
    method ReadQueued() returns (why: Option<Failure>)
      requires Valid() && !failed && phase.Ready?
      modifies this`phase, host`looks, host`drained, host`brought, session
      ensures Valid() && phase.Ready?
      ensures why.None? ==> host.drained
    {
      hide Owns, WorkerReports.WorkerReportSession.Valid;
      why := None;
      var more := true;
      while why.None? && more
        invariant Valid() && phase.Ready?
        invariant why.None? && !more ==> host.drained
        decreases why.None?, host.looks
      {
        why, more := ReadReports();
      }
    }

    /** Write the gate byte, once, with nothing queued in the report pipe and the session ready. */
    method ReleaseGate() returns (why: Option<Failure>)
      requires Valid()
      modifies this`failed, this`phase, this`fds, this`closeUnknown, host`looks, host`drained, host`brought, host`gateWritten, host`open, session
      ensures Valid()
      ensures why.Some? ==> failed
      ensures why.None? ==> old(phase.Ready?) && phase.Released? && !failed && host.gateWritten && gate !in fds
      ensures host.gateWritten && !old(host.gateWritten) ==> old(phase.Ready?) && !old(failed)
    {
      hide Owns, WorkerReports.WorkerReportSession.Valid, WorkerReports.ENVIRONMENTAL;
      why := Begin(Ready);
      if why.None? {
        why := ReadQueued();
      }
      if why.None? {
        why := GateWhenReady();
      }
      if why.Some? {
        var e := GiveUp(why.value);
      }
    }

    method GateWhenReady() returns (why: Option<Failure>)
      requires Valid() && !failed && phase.Ready? && host.drained
      modifies this`phase, this`fds, this`closeUnknown, host`looks, host`gateWritten, host`open, session
      ensures Recoverable()
      ensures why.None? ==> Valid() && phase.Released? && host.gateWritten && gate !in fds
    {
      hide Owns, WorkerReports.WorkerReportSession.Valid;
      var said := session.ReadyForRelease();
      if said.Err? || !said.value {
        return Some(if said.Err? then SessionRefused else GateOrder);
      }
      why := Check();
      if why.None? {
        why := OpenGate();
      }
      if why.None? {
        phase := Released;
        why := Check();
      }
    }

    method OpenGate() returns (why: Option<Failure>)
      requires Valid() && !failed && phase.Ready? && host.drained
      modifies this`fds, this`closeUnknown, host`gateWritten, host`open, session
      ensures Owns() && InSession() && host.gateWritten && report in fds
      ensures why.None? ==> gate !in fds
    {
      var written := host.WriteGate(gate);
      if !written {
        return Some(GateWriteUnknown);
      }
      why := Close(gate);
      if why.None? {
        var marked := session.MarkGateReleased();
        why := if marked.Ok? then None else Some(SessionRefused);
      }
    }

    /** Read the reports to their end and close the pipe. */
    method FinishReports() returns (why: Option<Failure>)
      requires Valid() && !failed && phase.Released?
      modifies this`phase, this`fds, this`closeUnknown, host`looks, host`drained, host`brought, host`open, session
      ensures Recoverable() && process && phase in {Released, AtEof}
      ensures why.None? ==> phase.AtEof?
    {
      why := None;
      while why.None? && phase.Released?
        invariant Valid() && !failed && phase in {Released, AtEof}
        decreases why.None?, host.looks
      {
        var more;
        why, more := ReadReports();
        if why.None? && !more {
          var paused := host.Pause();
          why := if paused then None else Some(Paused);
        }
      }
      if why.None? {
        why := Close(report);
      }
    }

    /** The last look at the child saw this exit. */
    ghost predicate LastSeen(wait: Wait)
      reads host`seen
    {
      host.seen != [] && host.seen[|host.seen| - 1] == Seen(wait)
    }

    method AwaitExit() returns (why: Option<Failure>, seen: Option<Wait>)
      requires Owns() && !failed && process
      modifies this`lifetimeUnknown, host`looks, host`seen
      ensures Owns()
      ensures why.None? ==> seen.Some? && !host.consuming && LastSeen(seen.value)
    {
      hide Owns;
      seen := None;
      why := None;
      while why.None? && seen.None?
        invariant Owns() && (seen.Some? ==> !host.consuming && LastSeen(seen.value))
        decreases why.None?, host.looks
      {
        why, seen := LookOnce();
      }
    }

    /** Wait for the reports to end and the child to exit; it stays unreaped. */
    method ObserveExit() returns (r: Result<WorkerReports.Observation, Failure>)
      requires Valid()
      modifies this`failed, this`phase, this`fds, this`closeUnknown, this`lifetimeUnknown, this`observed,
        host`looks, host`drained, host`brought, host`open, host`seen, session
      ensures Valid()
      ensures r.Err? ==> failed
      ensures r.Ok? ==> old(phase.Released?) && phase.Held? && !failed
      ensures r.Ok? ==> observed.Some? && observed.value.exited && r.value.exitCode == observed.value.status
      ensures r.Ok? ==> process && !host.consuming && session.finished && LastSeen(observed.value)
    {
      hide Owns, WorkerReports.WorkerReportSession.Valid;
      var why := Begin(Released);
      var seen: Option<Wait> := None;
      if why.None? {
        why, seen := ReportsThenExit();
      }
      if why.Some? {
        var e := GiveUp(why.value);
        return Err(e);
      }
      observed := seen;
      r := JudgeExit(seen.value);
      if r.Err? {
        var e := GiveUp(r.error);
        return Err(e);
      }
    }

    method ReportsThenExit() returns (why: Option<Failure>, seen: Option<Wait>)
      requires Valid() && !failed && phase.Released?
      modifies this`phase, this`fds, this`closeUnknown, this`lifetimeUnknown,
        host`looks, host`drained, host`brought, host`open, host`seen, session
      ensures Recoverable() && process
      ensures why.None? ==> seen.Some? && !host.consuming && phase.AtEof? && LastSeen(seen.value)
    {
      hide Owns, WorkerReports.WorkerReportSession.Valid;
      seen := None;
      why := FinishReports();
      if why.None? {
        why, seen := AwaitExit();
      }
    }

    /** Judge the exit that was seen against the reports. */
    method JudgeExit(seen: Wait) returns (r: Result<WorkerReports.Observation, Failure>)
      requires Recoverable() && !failed && process && phase.AtEof? && !host.consuming && observed.Some?
      modifies this`phase, host`looks, session
      ensures Recoverable() && process && !host.consuming
      ensures r.Ok? ==> Valid() && phase.Held? && seen.exited && r.value.exitCode == seen.status && session.finished
    {
      hide Owns, WorkerReports.WorkerReportSession.Valid;
      if !seen.exited {
        return Err(AbnormalExit);
      }
      var judged := session.FinishExit(seen.pid, seen.status);
      if judged.Err? {
        return Err(SessionRefused);
      }
      phase := Held;
      var why := Check();
      r := if why.Some? then Err(why.value) else Ok(judged.value);
    }

    /** One look at the child, with time left before it and a pause after it. */
    method LookOnce() returns (why: Option<Failure>, seen: Option<Wait>)
      requires Owns() && !failed && process
      modifies this`lifetimeUnknown, host`looks, host`seen
      ensures Owns() && (why.None? ==> host.looks < old(host.looks))
      ensures seen.Some? ==> !host.consuming && LastSeen(seen.value)
    {
      seen := None;
      why := Check();
      if why.Some? {
        return;
      }
      var looked := PeekAtChild();
      if looked.Err? {
        return Some(looked.error), None;
      }
      seen := looked.value;
      if seen.None? {
        var paused := host.Pause();
        why := if paused then None else Some(Paused);
      }
    }

    /** Reap the held child and close what is left. */
    method ReapAfterCapture() returns (why: Option<Failure>)
      requires Valid()
      modifies this`failed, this`phase, this`fds, this`closeUnknown, this`lifetimeUnknown, this`process, this`retained,
        this`reaped, host`looks, host`open, host`consuming, host`consumed
      ensures Valid()
      ensures why.Some? ==> failed
      ensures why.None? ==> host.consumed == old(observed)
      ensures why.None? ==> old(phase.Held?) && phase.Closed? && reaped && fds == {} && host.open == {}
      ensures process ==> retained
    {
      hide WorkerReports.WorkerReportSession.Valid;
      why := Begin(Held);
      if why.None? {
        why := Reap(observed.value);
      }
      if why.None? {
        why := CloseRest();
      }
      if why.Some? {
        var e := GiveUp(why.value);
        return;
      }
      phase := Closed;
    }

    /** Close what the reaped child leaves. */
    method CloseRest() returns (why: Option<Failure>)
      requires Recoverable() && reaped && !process && !failed && phase.Held?
      modifies this`fds, this`closeUnknown, host`looks, host`open
      ensures Recoverable() && (why.None? ==> fds == {})
    {
      hide WorkerReports.WorkerReportSession.Valid;
      why := None;
      while why.None? && fds != {}
        invariant Recoverable()
        decreases fds
      {
        var fd :| fd in fds;
        why := Close(fd);
      }
      if why.None? {
        why := Check();
      }
    }

    /**
     Open the pipes, spawn the child and take hold of it.  A failed acquisition has already cleaned up:
     no descriptor is left open, and a child that could not be reaped is kept.
     */
    static method Acquire(host: Host, expected: WorkerReports.Expected, deadline: real)
      returns (owner: NativeWorkerOwner, why: Option<Failure>)
      requires host.Fresh() && host.open == {} && !host.spawned && !host.consuming && !host.gateWritten && host.brought == []
      requires expected.case_.AllowedPools? ==> expected.mode.Confined?
      modifies host
      ensures fresh(owner) && owner.host == host && owner.Valid()
      ensures why.None? ==> owner.phase.Started? && !owner.failed && owner.process
      ensures why.None? ==> owner.session != null && owner.session.expected == expected.(pid := host.child)
      ensures why.Some? ==> owner.phase in {Closed, CleanupUnknown} && host.open == {}
      ensures owner.process ==> owner.retained
    {
      owner := new NativeWorkerOwner(host);
      var childReport, childGate, pid := 0, 0, 0;
      why, childReport, childGate := owner.OpenPipes();
      if why.None? {
        why, pid := owner.TakeChild(childReport, childGate);
      }
      if why.None? {
        why := owner.BeginSession(expected.(pid := pid), deadline);
      }
      if why.Some? {
        owner.failed := true;
        var unclean := owner.Abort();
        return owner, Some(if unclean.Some? then CleanupFailed else why.value);
      }
    }

    /** A descriptor of one's own, unlike any held. */
    method Hold() returns (fd: Option<nat>)
      requires Owns()
      modifies this`fds, host`open, host`next
      ensures Owns() && fds == old(fds) + (if fd.Some? then {fd.value} else {})
      ensures fd.Some? ==> fd.value !in old(fds)
    {
      fd := host.NewDescriptor();
      if fd.Some? {
        fds := fds + {fd.value};
      }
    }

    /** Two pipes: the parent's ends, and the child's, which are returned. */
    method OpenPipes() returns (why: Option<Failure>, childReport: nat, childGate: nat)
      requires Owns() && phase.Acquiring? && pidfd.None?
      modifies this`fds, this`report, this`gate, host`looks, host`open, host`next
      ensures Owns()
      ensures why.None? ==> {report, gate, childReport, childGate} <= fds
      ensures why.None? ==> childReport !in {report, gate} && childGate !in {report, gate}
    {
      childReport, childGate := 0, 0;
      why := Check();
      if why.Some? {
        return;
      }
      var a := Hold();
      var b := Hold();
      var c := Hold();
      var d := Hold();
      if a.None? || b.None? || c.None? || d.None? {
        return Some(PipeRefused), 0, 0;
      }
      report, childReport, childGate, gate := a.value, b.value, c.value, d.value;
    }

    /** Spawn the child, hold it by a descriptor and give up its pipe ends. */
    method TakeChild(childReport: nat, childGate: nat) returns (why: Option<Failure>, pid: int)
      requires Owns() && pidfd.None? && !process && !host.spawned && !host.consuming
      requires {report, gate, childReport, childGate} <= fds && childReport !in {report, gate} && childGate !in {report, gate}
      modifies this`fds, this`process, this`retained, this`lifetimeUnknown, this`pidfd, this`closeUnknown,
        host`looks, host`open, host`next, host`spawned, host`child
      ensures Owns()
      ensures why.None? ==> process && report in fds && gate in fds && 1 <= pid <= WorkerReports.MAX_PID && pid == host.child
    {
      var child := host.Spawn();
      if child.None? {
        return Some(SpawnUnknown), 0;
      }
      process, retained, pid := true, true, child.value;
      if !(1 <= pid <= WorkerReports.MAX_PID) {
        lifetimeUnknown := true;
        return Some(SpawnUnknown), pid;
      }
      var hold := Hold();
      if hold.None? {
        return Some(PidfdUnknown), pid;
      }
      pidfd := hold;
      why := CloseChildEnds(childReport, childGate);
      if why.None? {
        why := Check();
      }
    }

    method CloseChildEnds(childReport: nat, childGate: nat) returns (why: Option<Failure>)
      requires Owns() && pidfd.Some? && pidfd.value !in {childReport, childGate}
      requires report in fds && gate in fds && childReport !in {report, gate} && childGate !in {report, gate}
      modifies this`fds, this`closeUnknown, host`open
      ensures Owns() && report in fds && gate in fds
    {
      why := Close(childReport);
      if why.None? {
        why := Close(childGate);
      }
    }

    method BeginSession(expected: WorkerReports.Expected, deadline: real) returns (why: Option<Failure>)
      requires Owns() && process && report in fds && gate in fds && !host.gateWritten && !cleanupAttempted && !failed
      requires host.brought == []
      requires expected.case_.AllowedPools? ==> expected.mode.Confined?
      requires 1 <= expected.pid <= WorkerReports.MAX_PID
      modifies this`session, this`phase
      ensures why.None? ==> Valid() && phase.Started? && session != null && session.expected == expected
      ensures why.Some? ==> phase == old(phase) && session == old(session)
    {
      var now: real := *;
      if !(0.0 < deadline - now <= WorkerReports.MAX_SECONDS) {
        return Some(SessionRefused);
      }
      session := new WorkerReports.WorkerReportSession(expected, now, deadline);
      phase := Started;
      why := None;
    }
  }
}
