/**
 Overlapped pipe I/O under uncertainty: one outstanding operation, a buffer the kernel may still be
 using, and a quarantine for whatever could not be released for certain.

 The native calls are a `Kernel` whose every outcome is arbitrary.  What Windows demands of its
 callers - no event, handle or buffer may be let go while an operation is in flight - stands as the
 preconditions of its methods, so verifying the pipe proves that it meets them under every fault.
 */
module SerialPipe {
  import opened Wrappers
  import opened Text

  const MAX_TRANSFER_BYTES: nat := 64 * 1024
  const MAX_WRITE_BYTES: nat := 4 * 1024 * 1024

  /** Errors that mean the end of the stream, and open errors worth retrying. */
  const EOF_CODES: set<nat> := {38, 109, 232, 233}
  const RETRYABLE_OPEN: set<nat> := {2, 231}

  datatype PipeError =
    | WrongThread | Closed | InvalidSize | BudgetSpent | ConnectFailed | EventFailed | NativeIo
    | CompletionFailed | InvalidCompletion | ZeroWrite | Interrupted | CleanupUnknown

  /** How a native call can go: it succeeds, fails with a code, or raises something else. */
  datatype Call = Success | NativeFailure(code: nat) | OtherFault

  datatype Poll = Incomplete | Completed(count: int, code: nat, data: string) | PollFailure | PollFault

  // ----- what a pipe has told -----

  /** How a read came out on the kernel's side: it put bytes into the buffer, ended with a code, or made no sense. */
  datatype Answer = Piece(bytes: string) | Stopped(code: nat) | Garbled

  /** The bytes of the stream so far. */
  function Heard(answers: seq<Answer>): string {
    if answers == [] then ""
    else
      var last := answers[|answers| - 1];
      Heard(answers[..|answers| - 1]) + if last.Piece? then last.bytes else ""
  }

  /** What a read may return for an answer: its bytes, or nothing at the end of the stream. */
  predicate Told(a: Answer, value: string) {
    match a
    case Piece(bytes) => value == bytes
    case Stopped(code) => value == "" && (code == 38 || code == 109 || code == 232 || code == 233)
    case Garbled => false
  }

  /** A read took exactly the next answer and returned it. */
  ghost predicate NextTold(before: seq<Answer>, after: seq<Answer>, value: string) {
    exists a :: after == before + [a] && Told(a, value)
  }

  /** Over any number of normal reads, what they return is the stream: nothing lost, repeated or reordered. */
  lemma {:induction false} ReadsAreStream(answers: seq<seq<Answer>>, values: seq<string>)
    requires |answers| == |values| + 1 && AllTold(answers, values)
    ensures Heard(answers[|values|]) == Heard(answers[0]) + Join(values)
    ensures |answers[|values|]| == |answers[0]| + |values| && answers[0] <= answers[|values|]
    decreases |values|
  {
    hide Heard, NextTold, AllTold;
    if values != [] {
      FirstTold(answers, values);
      ToldHeard(answers[0], answers[1], values[0]);
      ReadsAreStream(answers[1..], values[1..]);
      assert (Heard(answers[0]) + values[0]) + Join(values[1..]) == Heard(answers[0]) + (values[0] + Join(values[1..]));
    } else {
      assert Heard(answers[0]) + "" == Heard(answers[0]);
    }
  }

  ghost predicate AllTold(answers: seq<seq<Answer>>, values: seq<string>)
    requires |answers| == |values| + 1
  {
    forall k :: 0 <= k < |values| ==> NextTold(answers[k], answers[k + 1], values[k])
  }

  lemma FirstTold(answers: seq<seq<Answer>>, values: seq<string>)
    requires values != [] && |answers| == |values| + 1 && AllTold(answers, values)
    ensures NextTold(answers[0], answers[1], values[0]) && AllTold(answers[1..], values[1..])
  {
    hide NextTold;
    forall k | 0 <= k < |values[1..]|
      ensures NextTold(answers[1..][k], answers[1..][k + 1], values[1..][k])
    {
      assert NextTold(answers[k + 1], answers[k + 2], values[k + 1]);
    }
  }

  lemma ToldHeard(before: seq<Answer>, after: seq<Answer>, value: string)
    requires NextTold(before, after, value)
    ensures Heard(after) == Heard(before) + value && |after| == |before| + 1 && before <= after
  {
    assert after[..|after| - 1] == before;
  }

  /** The other end is missing or busy. */
  predicate Retriable(c: Call) {
    c.NativeFailure? && (c.code == 2 || c.code == 231)
  }

  predicate AllRetriable(opens: seq<Call>) {
    forall k :: 0 <= k < |opens| ==> Retriable(opens[k])
  }

  /** Only a missing or busy other end was tried again, and the last attempt tells how connecting ended. */
  predicate Tried(opens: seq<Call>, r: Result<(), PipeError>) {
    && (forall k :: 0 <= k < |opens| - 1 ==> Retriable(opens[k]))
    && (r.Ok? ==> opens != [] && opens[|opens| - 1].Success?)
    && (r == Err(ConnectFailed) ==> opens != [] && opens[|opens| - 1].NativeFailure? && !Retriable(opens[|opens| - 1]))
    && (r == Err(Interrupted) ==> opens != [] && opens[|opens| - 1].OtherFault?)
  }

  // ----- the environment -----

  /** The shared session budget: how many more looks at the clock find time left is arbitrary. */
  class Budget {
    var left: nat

    /** True while neither cancelled nor expired; every look uses some of the time. */
    method Remaining() returns (ok: bool)
      modifies this
      ensures ok ==> left < old(left)
      ensures left <= old(left)
    {
      var stopped: bool := *;
      ok := left > 0 && !stopped;
      if left > 0 {
        left := left - 1;
      }
    }
  }

  /** What a completed read put into a buffer of `size` bytes. */
  function AnswerOf(size: nat, p: Poll): Answer
    requires p.Completed?
  {
    if p.code != 0 then Stopped(p.code) else if 0 <= p.count <= size then Piece(p.data) else Garbled
  }

  class Kernel {
    /** The kernel may still touch the submitted buffer. */
    var owns: bool
    /** The bytes of the write in flight; none for a read. */
    var payload: Option<string>
    /** What the kernel has confirmed writing, completion by completion. */
    var pieces: seq<string>
    /** How its reads came out, one after the other. */
    ghost var answers: seq<Answer>

    /** How the attempts to open went, and how often an operation was cancelled. */
    ghost var opens: seq<Call>
    ghost var cancels: nat

    method Open() returns (r: Call)
      modifies this`opens
      ensures opens == old(opens) + [r]
    {
      r := *;
      opens := opens + [r];
    }

    method CreateEvent() returns (r: Call)
    {
      r := *;
    }

    /** Submit an operation.  A reported failure queued nothing; an interruption may or may not have. */
    method Begin(bytes: Option<string>) returns (r: Call)
      requires !owns
      modifies this`owns, this`payload, this`answers
      ensures answers == if r.NativeFailure? && bytes.None? then old(answers) + [Stopped(r.code)] else old(answers)
      ensures r.Success? ==> owns
      ensures r.NativeFailure? ==> !owns
      ensures owns ==> payload == bytes
    {
      r := *;
      payload := bytes;
      var taken: bool := *;
      owns := r.Success? || (r.OtherFault? && taken);
      if r.NativeFailure? && bytes.None? {
        answers := answers + [Stopped(r.code)];
      }
    }

    /** Look for completion.  Only a completion ends the kernel's use of the buffer. */
    method Look(size: nat) returns (r: Poll)
      modifies this`owns, this`pieces, this`answers
      ensures !r.Completed? ==> owns == old(owns) && pieces == old(pieces) && answers == old(answers)
      ensures r.Completed? ==>
        answers == if old(owns) && payload.None? then old(answers) + [AnswerOf(size, r)] else old(answers)
      ensures r.Completed? ==> !owns
      ensures r.Completed? ==>
        pieces == if old(owns) && payload.Some? && r.code == 0 && 0 <= r.count <= |payload.value|
                  then old(pieces) + [payload.value[..r.count]] else old(pieces)
      ensures r.Completed? && 0 <= r.count <= size ==> |r.data| == r.count
    {
      r := *;
      if r.Completed? {
        if 0 <= r.count <= size && |r.data| != r.count {
          r := Completed(r.count, r.code, seq(r.count, _ => '\0'));
        }
        if owns && payload.None? {
          answers := answers + [AnswerOf(size, r)];
        }
        if owns && payload.Some? && r.code == 0 && 0 <= r.count <= |payload.value| {
          pieces := pieces + [payload.value[..r.count]];
        }
        owns := false;
      }
    }

    method Cancel() returns (r: Call)
      modifies this`cancels
      ensures cancels == old(cancels) + 1
    {
      r := *;
      cancels := cancels + 1;
    }

    method CloseEvent() returns (r: Call)
      requires !owns
    {
      r := *;
    }

    method CloseHandle() returns (r: Call)
      requires !owns
    {
      r := *;
    }
  }

  /** Strong references to pipes whose resources could not be released for certain. */
  class Quarantine {
    var members: set<BoundedPipe>
  }

  // ----- the pipe -----

  /** A kernel-visible buffer and event; `submitted` includes an interrupted submission. */
  datatype Pending = Pending(size: nat, submitted: bool)

  class BoundedPipe {
    const budget: Budget
    const kernel: Kernel
    const quarantine: Quarantine
    const owner: nat
    var hasHandle: bool
    var pending: Option<Pending>
    var closed: bool
    var unknown: bool

    /** A buffer the kernel may touch is held, and marked as submitted. */
    ghost predicate Holds()
      reads this, kernel
    {
      kernel.owns ==> pending.Some? && pending.value.submitted
    }

    predicate InFlight()
      reads this`pending
    {
      pending.Some? && pending.value.submitted
    }

    ghost predicate IsOpen()
      reads this, kernel, quarantine
    {
      !closed && hasHandle && pending.None? && !unknown && !kernel.owns && this !in quarantine.members
    }

    ghost predicate IsReleased()
      reads this, kernel, quarantine
    {
      closed && !hasHandle && pending.None? && !unknown && !kernel.owns && this !in quarantine.members
    }

    ghost predicate IsQuarantined()
      reads this, kernel, quarantine
    {
      closed && unknown && this in quarantine.members && Holds()
    }

    /** Between public calls a pipe is open and idle, fully released, or quarantined. */
    ghost predicate Settled()
      reads this, kernel, quarantine
    {
      IsOpen() || IsReleased() || IsQuarantined()
    }

    /** In the middle of an operation. */
    ghost predicate Working()
      reads this, kernel, quarantine
    {
      !closed && !unknown && this !in quarantine.members && Holds() && (pending.Some? ==> hasHandle)
    }

    constructor Unconnected(budget: Budget, kernel: Kernel, quarantine: Quarantine, owner: nat)
      requires !kernel.owns
      ensures this.budget == budget && this.kernel == kernel && this.quarantine == quarantine && this.owner == owner
      ensures !hasHandle && pending.None? && !closed && !unknown
    {
      this.budget := budget;
      this.kernel := kernel;
      this.quarantine := quarantine;
      this.owner := owner;
      hasHandle, pending, closed, unknown := false, None, false, false;
    }

    /** Open the pipe, retrying while its other end is missing or busy. */
    static method Connect(budget: Budget, kernel: Kernel, quarantine: Quarantine, owner: nat)
      returns (pipe: BoundedPipe, r: Result<(), PipeError>)
      requires !kernel.owns
      modifies budget, kernel, quarantine
      ensures fresh(pipe) && pipe.kernel == kernel && pipe.quarantine == quarantine && pipe.budget == budget
      ensures pipe.Settled()
      ensures r.Ok? <==> pipe.IsOpen()
      ensures r == Err(CleanupUnknown) <==> pipe.IsQuarantined()
      ensures kernel.pieces == old(kernel.pieces) && kernel.answers == old(kernel.answers)
      ensures old(kernel.opens) <= kernel.opens && Tried(kernel.opens[|old(kernel.opens)|..], r)
      ensures quarantine.members == old(quarantine.members) + (if pipe.IsQuarantined() then {pipe} else {})
    {
      pipe := new BoundedPipe.Unconnected(budget, kernel, quarantine, owner);
      ghost var before := kernel.opens;
      assert kernel.opens[|before|..] == [];
      var error := BudgetSpent;
      var trying := budget.Remaining();
      while trying
        invariant pipe.Working() && !pipe.hasHandle && pipe.pending.None? && !kernel.owns && error == BudgetSpent
        invariant kernel.pieces == old(kernel.pieces) && kernel.answers == old(kernel.answers)
        invariant quarantine.members == old(quarantine.members)
        invariant before <= kernel.opens && AllRetriable(kernel.opens[|before|..])
        decreases budget.left, trying
      {
        var ok := budget.Remaining();
        if !ok {
          break;
        }
        ghost var tried := kernel.opens[|before|..];
        var call := kernel.Open();
        assert kernel.opens[|before|..] == tried + [call];
        match call {
          case Success =>
            pipe.hasHandle := true;
            ok := budget.Remaining();
            if ok {
              return pipe, Ok(());
            }
            break;
          case NativeFailure(code) =>
            if code !in RETRYABLE_OPEN {
              error := ConnectFailed;
              break;
            }
            ok := budget.Remaining();
            if !ok {
              break;
            }
          case OtherFault =>
            error := Interrupted;
            break;
        }
      }
      ghost var all := kernel.opens[|before|..];
      var released := pipe.Dispose();
      assert kernel.opens[|before|..] == all;
      r := Err(if released then error else CleanupUnknown);
    }

    method MarkUnknown()
      requires Holds()
      modifies this`closed, this`unknown, quarantine
      ensures IsQuarantined()
      ensures quarantine.members == old(quarantine.members) + {this}
    {
      closed := true;
      unknown := true;
      quarantine.members := quarantine.members + {this};
    }

    /** Close the event of a finished operation and let its buffer go. */
    method ReleaseEvent() returns (released: bool)
      requires pending.Some? && !pending.value.submitted && !kernel.owns
      modifies this`pending, this`closed, this`unknown, quarantine
      ensures released ==> pending.None? && closed == old(closed) && unknown == old(unknown)
      ensures released ==> quarantine.members == old(quarantine.members)
      ensures !released ==> IsQuarantined() && pending == old(pending)
      ensures !released ==> quarantine.members == old(quarantine.members) + {this}
    {
      var call := kernel.CloseEvent();
      released := call.Success?;
      if !released {
        MarkUnknown();
        return;
      }
      pending := None;
    }

    /** Submit one operation and wait for it within the budget. */
    method Transfer(payload: Option<string>, size: nat) returns (r: Result<string, PipeError>)
      requires Working() && hasHandle && pending.None? && !kernel.owns
      requires payload.Some? ==> size == |payload.value|
      modifies this, budget, kernel, quarantine
      ensures budget.left <= old(budget.left)
      ensures r.Ok? ==> Working() && hasHandle && pending.None? && !kernel.owns && |r.value| <= size
      ensures r.Err? && r.error != CleanupUnknown ==> Working() && hasHandle
      ensures r == Err(CleanupUnknown) ==> IsQuarantined() && !kernel.owns
      ensures quarantine.members == old(quarantine.members) + (if r == Err(CleanupUnknown) then {this} else {})
      ensures kernel.owns ==> kernel.payload == payload && kernel.pieces == old(kernel.pieces)
      ensures payload.Some? && r.Ok? ==> kernel.pieces == old(kernel.pieces) + [payload.value[..|r.value|]]
      ensures kernel.pieces == old(kernel.pieces)
           || (payload.Some? && exists k :: 0 <= k <= size && kernel.pieces == old(kernel.pieces) + [payload.value[..k]])
      ensures payload.None? ==> kernel.pieces == old(kernel.pieces)
      ensures payload.Some? || kernel.owns ==> kernel.answers == old(kernel.answers)
      ensures payload.None? && r.Ok? ==> NextTold(old(kernel.answers), kernel.answers, r.value)
    {
      var ok := budget.Remaining();
      if !ok {
        return Err(BudgetSpent);
      }
      var event := kernel.CreateEvent();
      if !event.Success? {
        return Err(if event.NativeFailure? then EventFailed else Interrupted);
      }
      pending := Some(Pending(size, false));
      ok := budget.Remaining();
      if !ok {
        return Err(BudgetSpent);
      }
      pending := Some(Pending(size, true));
      var begun := kernel.Begin(payload);
      if begun.OtherFault? {
        return Err(Interrupted);
      }
      if begun.NativeFailure? {
        pending := Some(Pending(size, false));
        var released := ReleaseEvent();
        if !released {
          return Err(CleanupUnknown);
        }
        if payload.None? && begun.code in EOF_CODES {
          assert Told(Stopped(begun.code), "");
          ok := budget.Remaining();
          return if ok then Ok("") else Err(BudgetSpent);
        }
        return Err(NativeIo);
      }
      while true
        invariant Working() && hasHandle && pending == Some(Pending(size, true)) && kernel.owns
        invariant kernel.payload == payload && kernel.pieces == old(kernel.pieces) && kernel.answers == old(kernel.answers)
        invariant quarantine.members == old(quarantine.members)
        invariant budget.left <= old(budget.left)
        decreases budget.left
      {
        ok := budget.Remaining();
        if !ok {
          return Err(BudgetSpent);
        }
        var seen := kernel.Look(size);
        match seen {
          case PollFailure => return Err(CompletionFailed);
          case PollFault => return Err(Interrupted);
          case Completed(_, _, _) =>
            r := Complete(payload.None?, size, seen);
            return;
          case Incomplete =>
            var again := budget.Remaining();
            if !again {
              return Err(BudgetSpent);
            }
        }
      }
    }

    /** Act on a completion: let event and buffer go, then tell what came of the operation. */
    method Complete(reading: bool, size: nat, seen: Poll) returns (r: Result<string, PipeError>)
      requires Working() && hasHandle && pending == Some(Pending(size, true)) && !kernel.owns
      requires seen.Completed? && (0 <= seen.count <= size ==> |seen.data| == seen.count)
      modifies this, budget, quarantine
      ensures budget.left <= old(budget.left)
      ensures r.Ok? ==> Working() && hasHandle && pending.None? && |r.value| <= size
      ensures r.Err? && r.error != CleanupUnknown ==> Working() && hasHandle
      ensures r == Err(CleanupUnknown) ==> IsQuarantined()
      ensures quarantine.members == old(quarantine.members) + (if r == Err(CleanupUnknown) then {this} else {})
      ensures r.Ok? && reading ==> Told(AnswerOf(size, seen), r.value)
      ensures r.Ok? && !reading ==> seen.code == 0 && seen.count == |r.value|
    {
      pending := Some(Pending(size, false));
      var released := ReleaseEvent();
      if !released {
        return Err(CleanupUnknown);
      }
      var ok := budget.Remaining();
      if !ok {
        return Err(BudgetSpent);
      }
      if seen.code != 0 {
        return if reading && seen.code in EOF_CODES then Ok("") else Err(NativeIo);
      }
      if !(0 <= seen.count <= size) {
        return Err(InvalidCompletion);
      }
      return Ok(seen.data);
    }

    /** Cancel and drain what is in flight, then release event, buffer and handle, or quarantine. */
    method Dispose() returns (released: bool)
      requires Holds()
      modifies this, kernel, quarantine
      ensures released ==> IsReleased()
      ensures !released ==> IsQuarantined()
      ensures quarantine.members
           == if released then old(quarantine.members) - {this} else old(quarantine.members) + {this}
      ensures !(old(kernel.owns) && kernel.payload.None?) ==> kernel.answers == old(kernel.answers)
      ensures kernel.payload == old(kernel.payload) && kernel.opens == old(kernel.opens)
      ensures kernel.cancels == old(kernel.cancels) + if old(hasHandle) && old(InFlight()) then 1 else 0
      ensures kernel.pieces == old(kernel.pieces)
           || (old(kernel.owns) && old(kernel.payload).Some?
               && exists k :: 0 <= k <= |old(kernel.payload).value|
                    && kernel.pieces == old(kernel.pieces) + [old(kernel.payload).value[..k]])
    {
      closed := true;
      if pending.Some? && pending.value.submitted {
        if !hasHandle {
          MarkUnknown();
          return false;
        }
        var cancelled := kernel.Cancel();
        if cancelled.OtherFault? {
          MarkUnknown();
          return false;
        }
        var looks: nat := *;
        while true
          invariant closed && pending == old(pending) && Holds() && hasHandle == old(hasHandle) && unknown == old(unknown)
          invariant kernel.owns == old(kernel.owns) && kernel.pieces == old(kernel.pieces)
          invariant kernel.answers == old(kernel.answers) && kernel.opens == old(kernel.opens)
          invariant kernel.cancels == old(kernel.cancels) + 1
          invariant kernel.payload == old(kernel.payload)
          invariant quarantine.members == old(quarantine.members)
          decreases looks
        {
          var seen := kernel.Look(pending.value.size);
          if seen.Completed? {
            assert kernel.pieces != old(kernel.pieces) ==>
              0 <= seen.count <= |old(kernel.payload).value|
              && kernel.pieces == old(kernel.pieces) + [old(kernel.payload).value[..seen.count]];
            pending := Some(pending.value.(submitted := false));
            break;
          }
          if !seen.Incomplete? {
            MarkUnknown();
            return false;
          }
          if looks == 0 {
            MarkUnknown();
            return false;
          }
          looks := looks - 1;
          var interrupted: bool := *;
          if interrupted {
            MarkUnknown();
            return false;
          }
        }
      }
      if pending.Some? {
        released := ReleaseEvent();
        if !released {
          return;
        }
      }
      if hasHandle {
        var call := kernel.CloseHandle();
        if !call.Success? {
          MarkUnknown();
          return false;
        }
        hasHandle := false;
      }
      unknown := false;
      quarantine.members := quarantine.members - {this};
      return true;
    }

    /** Read up to `size` bytes; "" at the end of the stream. */
    method Read(thread: nat, size: int) returns (r: Result<string, PipeError>)
      requires Settled()
      modifies this, budget, kernel, quarantine
      ensures Settled()
      ensures !(1 <= size <= MAX_TRANSFER_BYTES) ==> r == Err(InvalidSize)
      ensures r.Ok? ==> old(IsOpen()) && IsOpen() && |r.value| <= size
      ensures r.Err? && r.error !in {InvalidSize, WrongThread} ==> closed
      ensures kernel.pieces == old(kernel.pieces)
      ensures r.Ok? ==> NextTold(old(kernel.answers), kernel.answers, r.value)
      ensures quarantine.members - {this} == old(quarantine.members) - {this}
    {
      if !(1 <= size <= MAX_TRANSFER_BYTES) {
        return Err(InvalidSize);
      }
      if thread != owner {
        return Err(WrongThread);
      }
      if closed || !hasHandle {
        return Err(Closed);
      }
      var ok := budget.Remaining();
      if ok {
        r := Transfer(None, size);
      } else {
        r := Err(BudgetSpent);
      }
      if r.Err? && r.error != CleanupUnknown {
        var released := Dispose();
        r := if released then r else Err(CleanupUnknown);
      }
    }

    /** Write all of `data` in pieces of at most 64 KiB, or close. */
    method WriteAll(thread: nat, data: string) returns (r: Result<(), PipeError>)
      requires Settled()
      modifies this, budget, kernel, quarantine
      ensures Settled()
      ensures |data| > MAX_WRITE_BYTES ==> r == Err(InvalidSize)
      ensures r.Ok? ==> old(IsOpen()) && IsOpen()
      ensures r.Err? && r.error !in {InvalidSize, WrongThread} ==> closed
      ensures old(kernel.pieces) <= kernel.pieces
      ensures forall k :: |old(kernel.pieces)| <= k < |kernel.pieces| ==> |kernel.pieces[k]| <= MAX_TRANSFER_BYTES
      ensures Join(kernel.pieces[|old(kernel.pieces)|..]) <= data
      ensures r.Ok? ==> Join(kernel.pieces[|old(kernel.pieces)|..]) == data
      ensures old(IsOpen()) ==> kernel.answers == old(kernel.answers)
      ensures quarantine.members - {this} == old(quarantine.members) - {this}
    {
      ghost var before := kernel.pieces;
      assert before[|before|..] == [];
      if |data| > MAX_WRITE_BYTES {
        return Err(InvalidSize);
      }
      if thread != owner {
        return Err(WrongThread);
      }
      if closed || !hasHandle {
        return Err(Closed);
      }
      var error := BudgetSpent;
      var going := budget.Remaining();
      var offset := 0;
      while going && offset < |data|
        invariant 0 <= offset <= |data| && IsOpen()
        invariant Confirmed(before, kernel.pieces, data, offset) && kernel.answers == old(kernel.answers)
        invariant quarantine.members == old(quarantine.members)
        decreases budget.left, going
      {
        going := budget.Remaining();
        if !going {
          break;
        }
        ghost var sofar := kernel.pieces;
        var chunk := data[offset..if offset + MAX_TRANSFER_BYTES < |data| then offset + MAX_TRANSFER_BYTES else |data|];
        var moved := Transfer(Some(chunk), |chunk|);
        forall k | 0 <= k <= |chunk|
          ensures Confirmed(before, sofar + [chunk[..k]], data, offset + k)
        {
          ConfirmedNext(before, sofar, data, offset, chunk, k);
        }
        if moved == Err(CleanupUnknown) {
          assert exists n :: 0 <= n <= |data| && Confirmed(before, kernel.pieces, data, n);
          return Err(CleanupUnknown);
        }
        if moved.Err? || moved.value == "" {
          error := if moved.Err? then moved.error else ZeroWrite;
          assert exists n :: 0 <= n <= |data| && Confirmed(before, kernel.pieces, data, n);
          var released := Dispose();
          assert exists n :: 0 <= n <= |data| && Confirmed(before, kernel.pieces, data, n);
          return Err(if released then error else CleanupUnknown);
        }
        offset := offset + |moved.value|;
      }
      if going {
        going := budget.Remaining();
      }
      if going {
        return Ok(());
      }
      var released := Dispose();
      return Err(if released then error else CleanupUnknown);
    }

    /** Observe and release again, from the owning thread only; also retries a quarantined pipe. */
    method Close(thread: nat) returns (r: Result<(), PipeError>)
      requires Settled()
      modifies this, kernel, quarantine
      ensures Settled()
      ensures r == Err(WrongThread) <==> thread != owner
      ensures r.Ok? ==> IsReleased()
      ensures r == Err(CleanupUnknown) ==> IsQuarantined()
      ensures quarantine.members - {this} == old(quarantine.members) - {this}
    {
      if thread != owner {
        return Err(WrongThread);
      }
      var released := Dispose();
      r := if released then Ok(()) else Err(CleanupUnknown);
    }
  }

  /** The first `n` bytes of `data` have been confirmed since `before`, in order, in bounded pieces. */
  ghost predicate Confirmed(before: seq<string>, pieces: seq<string>, data: string, n: nat) {
    && n <= |data| && before <= pieces
    && Join(pieces[|before|..]) == data[..n]
    && forall k :: |before| <= k < |pieces| ==> |pieces[k]| <= MAX_TRANSFER_BYTES
  }

  lemma ConfirmedNext(before: seq<string>, pieces: seq<string>, data: string, n: nat, chunk: string, k: nat)
    requires Confirmed(before, pieces, data, n)
    requires n + |chunk| <= |data| && chunk == data[n..n + |chunk|] && |chunk| <= MAX_TRANSFER_BYTES && k <= |chunk|
    ensures Confirmed(before, pieces + [chunk[..k]], data, n + k)
  {
    var next := pieces + [chunk[..k]];
    assert next[|before|..] == pieces[|before|..] + [chunk[..k]];
    JoinConcat(pieces[|before|..], [chunk[..k]]);
    assert [chunk[..k]][1..] == [] && Join([chunk[..k]]) == chunk[..k];
    SliceOfSlice(data, n, n + |chunk|, 0, k);
    assert data[..n] + data[n..n + k] == data[..n + k];
  }
}
