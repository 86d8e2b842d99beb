/**
 A worker's report stream: two short lines of JSON around a gate, then the end of the stream and the
 worker's exit.  How the bytes are cut into reads must not matter.
 */
module WorkerReports {
  import opened Wrappers
  import opened Text
  import opened JsonBounds

  const MAX_LINE: nat := 256
  const MAX_REPORT: nat := 512
  const MAX_SECONDS: real := 5.0
  const MAX_PID: int := 0x3F_FFFF
  const EACCES: int := 13

  datatype Mode = Control | Confined {
    function Name(): string { if this == Control then "control" else "confined" }
  }

  datatype Case = RuntimeWrite | PoolSiblingWrite | OutsideExec | AllowedPools {
    function Name(): string {
      match this
      case RuntimeWrite => "runtime_write"
      case PoolSiblingWrite => "pool_sibling_write"
      case OutsideExec => "outside_exec"
      case AllowedPools => "allowed_pools"
    }
  }

  /** What one session expects; `loads` is the JSON parser, none for what it refuses. */
  datatype Expected = Expected(loads: string -> Option<Json>, case_: Case, mode: Mode, pid: int)

  datatype Label =
    | Terminal | BudgetCheck | Cancelled | Deadline | AfterEof | ReportBound | ReportShape | ReportIdentity
    | ReportOrder | PoolControlFailed | ResultSemantics | GateOrder | EofOrder | ReportTruncated | ExitIdentity
    | ExitIncomplete | NegativeAllowed | ResultMissing | ExitStatus | ControlFailed | SyscallNotEacces

  const ENVIRONMENTAL: set<Label> := {BudgetCheck, Cancelled, Deadline}

  datatype Outcome = Outcome(kind: string, number: int)

  /** What a session remembers of the bytes fed so far. */
  datatype State = State(buffer: string, total: nat, frames: nat, ready: bool, released: bool, result: Option<Outcome>)

  // ----- one line -----

  const COMMON: set<string> := {"phase", "case_id", "mode", "pid"}

  predicate Identifies(e: Expected, v: Json)
    requires v.Dict?
  {
    && COMMON <= KeySet(v)
    && Field(v, "case_id") == Some(Str(e.case_.Name())) && Field(v, "mode") == Some(Str(e.mode.Name()))
    && Field(v, "pid") == Some(Int(e.pid))
  }

  /** Whether a worker of this kind may report this outcome. */
  function Judge(e: Expected, kind: Option<Json>, number: Option<Json>): Result<Outcome, Label> {
    if e.case_.AllowedPools? then
      if kind == Some(Str("pools_checked")) && number == Some(Int(0)) then Ok(Outcome("pools_checked", 0))
      else Err(PoolControlFailed)
    else if kind == Some(Str("syscall_error")) && number.Some? && number.value.Int? && 1 <= number.value.n <= 4095 then
      Ok(Outcome("syscall_error", number.value.n))
    else
      var allowed := if e.mode.Control? then "control_written" else "unexpected_open";
      if !e.case_.OutsideExec? && number == Some(Int(0)) && kind == Some(Str(allowed)) then Ok(Outcome(allowed, 0))
      else Err(ResultSemantics)
  }

  /** Take one line, its newline removed. */
  function Line(e: Expected, s: State, raw: string): Result<State, Label> {
    var v := e.loads(raw);
    if v.None? || !v.value.Dict? then Err(ReportShape)
    else if !Identifies(e, v.value) then Err(ReportIdentity)
    else if Field(v.value, "phase") == Some(Str("ready")) then
      if KeySet(v.value) != COMMON || s.ready || s.released then Err(ReportOrder) else Ok(s.(ready := true))
    else if Field(v.value, "phase") != Some(Str("result")) || KeySet(v.value) != COMMON + {"observation", "errno"} then
      Err(ReportShape)
    else if !s.ready || !s.released || s.result.Some? then Err(ReportOrder)
    else
      match Judge(e, Field(v.value, "observation"), Field(v.value, "errno"))
      case Err(why) => Err(why)
      case Ok(outcome) => Ok(s.(result := Some(outcome)))
  }

  /** The outcomes a worker of this kind can report at all. */
  predicate Reportable(e: Expected, o: Outcome) {
    if e.case_.AllowedPools? then o == Outcome("pools_checked", 0)
    else
      || (o.kind == "syscall_error" && 1 <= o.number <= 4095)
      || (!e.case_.OutsideExec? && o == Outcome(if e.mode.Control? then "control_written" else "unexpected_open", 0))
  }

  lemma JudgeReportable(e: Expected, kind: Option<Json>, number: Option<Json>)
    ensures Judge(e, kind, number).Ok? ==> Reportable(e, Judge(e, kind, number).value)
  {
  }

  // ----- what an accepted line says -----

  /** The line says ready, for this case, mode and process, and nothing else. */
  predicate TellsReady(e: Expected, v: Option<Json>) {
    && v.Some? && v.value.Dict? && KeySet(v.value) == {"phase", "case_id", "mode", "pid"}
    && Field(v.value, "phase") == Some(Str("ready")) && Field(v.value, "case_id") == Some(Str(e.case_.Name()))
    && Field(v.value, "mode") == Some(Str(e.mode.Name())) && Field(v.value, "pid") == Some(Int(e.pid))
  }

  /** The line reports this outcome, for this case, mode and process, and nothing else. */
  predicate TellsResult(e: Expected, v: Option<Json>, o: Outcome) {
    && v.Some? && v.value.Dict? && KeySet(v.value) == {"phase", "case_id", "mode", "pid", "observation", "errno"}
    && Field(v.value, "phase") == Some(Str("result")) && Field(v.value, "case_id") == Some(Str(e.case_.Name()))
    && Field(v.value, "mode") == Some(Str(e.mode.Name())) && Field(v.value, "pid") == Some(Int(e.pid))
    && Field(v.value, "observation") == Some(Str(o.kind)) && Field(v.value, "errno") == Some(Int(o.number))
  }

  /** The line is taken for `o`: a reportable outcome, told after the gate and for the first time. */
  predicate TakenFor(e: Expected, s: State, raw: string, o: Outcome) {
    s.ready && s.released && s.result.None? && Reportable(e, o) && TellsResult(e, e.loads(raw), o)
  }

  /**
   Exactly two kinds of line are accepted: ready, first and before the gate, and a reportable outcome,
   after both; what is recorded is what the line tells.
   */
  lemma LineExactly(e: Expected, s: State, raw: string, t: State)
    ensures Line(e, s, raw) == Ok(t) <==>
      || (TellsReady(e, e.loads(raw)) && !s.ready && !s.released && t == s.(ready := true))
      || (t.result.Some? && t == s.(result := t.result) && TakenFor(e, s, raw, t.result.value))
  {
    hide Field, KeySet, Reportable, Judge;
    var v := e.loads(raw);
    if v.Some? && v.value.Dict? {
      JudgeExactly(e, Field(v.value, "observation"), Field(v.value, "errno"));
      if t.result.Some? {
        JudgedAs(e, Field(v.value, "observation"), Field(v.value, "errno"), t.result.value);
      }
    }
  }

  /** Why any other line is refused, and in which order. */
  lemma LineRefused(e: Expected, s: State, raw: string)
    requires Line(e, s, raw).Err?
    ensures var v := e.loads(raw);
      Line(e, s, raw).error ==
        if v.None? || !v.value.Dict? then ReportShape
        else if !({"phase", "case_id", "mode", "pid"} <= KeySet(v.value) && Field(v.value, "case_id") == Some(Str(e.case_.Name()))
                  && Field(v.value, "mode") == Some(Str(e.mode.Name())) && Field(v.value, "pid") == Some(Int(e.pid)))
        then ReportIdentity
        else if Field(v.value, "phase") == Some(Str("ready")) then ReportOrder
        else if Field(v.value, "phase") != Some(Str("result"))
             || KeySet(v.value) != {"phase", "case_id", "mode", "pid", "observation", "errno"} then ReportShape
        else if !s.ready || !s.released || s.result.Some? then ReportOrder
        else if e.case_ == AllowedPools then PoolControlFailed else ResultSemantics
  {
    hide Field, KeySet, Reportable;
  }

  lemma JudgeExactly(e: Expected, kind: Option<Json>, number: Option<Json>)
    ensures Judge(e, kind, number).Ok? ==>
      var o := Judge(e, kind, number).value;
      Reportable(e, o) && kind == Some(Str(o.kind)) && number == Some(Int(o.number))
  {
  }

  lemma JudgedAs(e: Expected, kind: Option<Json>, number: Option<Json>, o: Outcome)
    ensures Reportable(e, o) && kind == Some(Str(o.kind)) && number == Some(Int(o.number)) ==>
      Judge(e, kind, number) == Ok(o)
  {
  }

  /** A line either says ready, before the gate, or gives the one result, after it. */
  predicate Steps(e: Expected, s: State, t: State) {
    && t.buffer == s.buffer && t.total == s.total && t.frames == s.frames && t.released == s.released
    && (t.result == s.result || (s.ready && s.released && s.result.None? && t.result.Some? && t.ready))
    && (t.result.Some? && t.result != s.result ==> Reportable(e, t.result.value))
    && (t.result != s.result || (!s.ready && !s.released && t == s.(ready := true)))
  }

  lemma LineKeeps(e: Expected, s: State, raw: string)
    ensures Line(e, s, raw).Ok? ==> Steps(e, s, Line(e, s, raw).value)
  {
    hide Judge, Field, KeySet, Reportable;
    if e.loads(raw).Some? && e.loads(raw).value.Dict? {
      JudgeReportable(e, Field(e.loads(raw).value, "observation"), Field(e.loads(raw).value, "errno"));
    }
  }

  // ----- the stream -----

  function LineEnd(s: string): (n: nat)
    requires '\n' in s
    ensures n < |s| && s[n] == '\n' && '\n' !in s[..n]
  {
    assert s[..|s|] == s;
    IndexOf(s, '\n')
  }

  /** Take every whole line off the front of the buffer. */
  function Drain(e: Expected, s: State): (r: Result<State, Label>)
    decreases |s.buffer|
  {
    if '\n' !in s.buffer then
      if |s.buffer| >= MAX_LINE then Err(ReportBound) else Ok(s)
    else
      var n := LineEnd(s.buffer);
      if n + 1 > MAX_LINE || s.frames >= 2 then Err(ReportBound)
      else
        var taken := Line(e, s.(buffer := s.buffer[n + 1..], frames := s.frames + 1), s.buffer[..n]);
        if taken.Err? then taken
        else
          LineKeeps(e, s.(buffer := s.buffer[n + 1..], frames := s.frames + 1), s.buffer[..n]);
          Drain(e, taken.value)
  }

  function Fed(e: Expected, s: State, data: string): Result<State, Label> {
    if !(0 < |data| <= MAX_REPORT) || s.total + |data| > MAX_REPORT then Err(ReportBound)
    else Drain(e, s.(buffer := s.buffer + data, total := s.total + |data|))
  }

  function FedAll(e: Expected, s: State, chunks: seq<string>): Result<State, Label>
    decreases |chunks|
  {
    if chunks == [] then Ok(s)
    else
      var first := Fed(e, s, chunks[0]);
      if first.Err? then first else FedAll(e, first.value, chunks[1..])
  }

  /** What is left between feeds: too short a piece to refuse, and no line end in it. */
  predicate Resting(s: State) {
    '\n' !in s.buffer && |s.buffer| < MAX_LINE && s.total <= MAX_REPORT
  }

  lemma {:induction false} DrainRests(e: Expected, s: State)
    ensures Drain(e, s).Ok? ==> '\n' !in Drain(e, s).value.buffer && |Drain(e, s).value.buffer| < MAX_LINE
    ensures Drain(e, s).Ok? ==> Drain(e, s).value.total == s.total && Drain(e, s).value.released == s.released
    decreases |s.buffer|
  {
    hide Line;
    if '\n' in s.buffer {
      var n := LineEnd(s.buffer);
      var t := s.(buffer := s.buffer[n + 1..], frames := s.frames + 1);
      var taken := Line(e, t, s.buffer[..n]);
      LineKeeps(e, t, s.buffer[..n]);
      if taken.Ok? {
        DrainRests(e, taken.value);
      }
    }
  }

  lemma LineEndOfLonger(s: string, more: string)
    requires '\n' in s
    ensures '\n' in s + more && LineEnd(s + more) == LineEnd(s)
  {
    var n := LineEnd(s);
    assert (s + more)[..n] == s[..n];
    IndexOfUnique(s + more, '\n', n);
  }

  /** A total that differs only matters to the bound on the whole report. */
  function Plus(s: State, more: string): State {
    s.(buffer := s.buffer + more, total := s.total + |more|)
  }

  lemma LinePlus(e: Expected, s: State, raw: string, more: string)
    ensures var r, q := Line(e, s, raw), Line(e, Plus(s, more), raw);
      if r.Ok? then q == Ok(Plus(r.value, more)) else q == r
  {
    hide Judge, Field, KeySet, Identifies;
  }

  /** The state in which the first line of the buffer is judged. */
  function Cut(s: State): State
    requires '\n' in s.buffer
  {
    s.(buffer := s.buffer[LineEnd(s.buffer) + 1..], frames := s.frames + 1)
  }

  lemma CutPlus(s: State, more: string)
    requires '\n' in s.buffer
    ensures '\n' in Plus(s, more).buffer && LineEnd(s.buffer + more) == LineEnd(s.buffer)
    ensures Cut(Plus(s, more)) == Plus(Cut(s), more)
    ensures (s.buffer + more)[..LineEnd(s.buffer)] == s.buffer[..LineEnd(s.buffer)]
  {
    hide LineEnd;
    LineEndOfLonger(s.buffer, more);
    var n := LineEnd(s.buffer);
    assert (s.buffer + more)[n + 1..] == s.buffer[n + 1..] + more;
    assert (s.buffer + more)[..n] == s.buffer[..n];
  }

  lemma DrainCut(e: Expected, s: State)
    requires '\n' in s.buffer
    ensures var n := LineEnd(s.buffer);
      Drain(e, s) == if n + 1 > MAX_LINE || s.frames >= 2 then Err(ReportBound)
        else if Line(e, Cut(s), s.buffer[..n]).Err? then Line(e, Cut(s), s.buffer[..n])
        else Drain(e, Line(e, Cut(s), s.buffer[..n]).value)
  {
    hide Line, LineEnd;
  }

  lemma {:induction false} LongLine(buffer: string, more: string)
    requires '\n' !in buffer
    ensures IndexOf(buffer + more, '\n') >= |buffer|
  {
    if buffer != "" {
      assert (buffer + more)[0] == buffer[0] && (buffer + more)[1..] == buffer[1..] + more;
      LongLine(buffer[1..], more);
    }
  }

  lemma DrainLong(e: Expected, s: State, more: string)
    requires '\n' !in s.buffer && |s.buffer| >= MAX_LINE
    ensures Drain(e, Plus(s, more)).Err?
  {
    hide Line, IndexOf;
    if '\n' in s.buffer + more {
      LongLine(s.buffer, more);
    }
  }

  lemma DrainShort(e: Expected, s: State)
    requires '\n' !in s.buffer
    ensures Drain(e, s) == if |s.buffer| >= MAX_LINE then Err(ReportBound) else Ok(s)
  {
  }

  /** Draining early or late is the same: bytes behind the buffer change nothing before them. */
  lemma {:induction false} DrainPlus(e: Expected, s: State, more: string)
    ensures var r, q := Drain(e, s), Drain(e, Plus(s, more));
      if r.Ok? then q == Drain(e, Plus(r.value, more)) else q.Err?
    decreases |s.buffer|
  {
    hide Line, LineEnd, Drain, Plus, Cut;
    if '\n' in s.buffer {
      DrainCut(e, s);
      CutPlus(s, more);
      DrainCut(e, Plus(s, more));
      PlusKeeps(s, more);
      var raw := s.buffer[..LineEnd(s.buffer)];
      LinePlus(e, Cut(s), raw, more);
      LineKeeps(e, Cut(s), raw);
      CutShorter(s);
      if Line(e, Cut(s), raw).Ok? {
        DrainPlus(e, Line(e, Cut(s), raw).value, more);
      }
    } else {
      DrainShort(e, s);
      if |s.buffer| >= MAX_LINE {
        DrainLong(e, s, more);
      }
    }
  }

  lemma PlusKeeps(s: State, more: string)
    ensures Plus(s, more).frames == s.frames && Plus(s, more).buffer == s.buffer + more
  {
  }

  lemma CutShorter(s: State)
    requires '\n' in s.buffer
    ensures |Cut(s).buffer| < |s.buffer|
  {
  }

  lemma FeedTwice(e: Expected, s: State, a: string, b: string)
    requires a != "" && b != "" && s.total <= MAX_REPORT
    ensures var first, whole := Fed(e, s, a), Fed(e, s, a + b);
      if first.Ok? && first.value.total + |b| <= MAX_REPORT then whole == Fed(e, first.value, b) else whole.Err?
  {
    hide Line, Drain;
    if s.total + |a| <= MAX_REPORT {
      var one := s.(buffer := s.buffer + a, total := s.total + |a|);
      DrainPlus(e, one, b);
      DrainRests(e, one);
      assert (s.buffer + a) + b == s.buffer + (a + b);
      assert Plus(one, b) == s.(buffer := s.buffer + (a + b), total := s.total + |a + b|);
    }
  }

  /**
   However a report is cut into non-empty pieces, it is accepted exactly when it is accepted whole,
   and leaves the same state.
   */
  lemma {:induction false} CutsDoNotMatter(e: Expected, s: State, chunks: seq<string>)
    requires s.total <= MAX_REPORT && chunks != []
    requires forall k :: 0 <= k < |chunks| ==> chunks[k] != ""
    ensures var cut, whole := FedAll(e, s, chunks), Fed(e, s, Join(chunks));
      cut.Ok? <==> whole.Ok?
    ensures FedAll(e, s, chunks).Ok? ==> FedAll(e, s, chunks) == Fed(e, s, Join(chunks))
    decreases |chunks|
  {
    hide Fed;
    var rest := chunks[1..];
    if rest == [] {
      assert Join(chunks) == chunks[0] + "" == chunks[0];
      assert FedAll(e, s, chunks) == Fed(e, s, chunks[0]);
    } else {
      var first := Fed(e, s, chunks[0]);
      assert rest[0] != "";
      FeedTwice(e, s, chunks[0], Join(rest));
      FeedBounds(e, s, chunks[0]);
      if first.Ok? {
        CutsDoNotMatter(e, first.value, rest);
        FeedBounds(e, first.value, Join(rest));
      }
    }
  }

  lemma FeedBounds(e: Expected, s: State, data: string)
    ensures Fed(e, s, data).Ok? ==>
      data != "" && Fed(e, s, data).value.total == s.total + |data| <= MAX_REPORT && Resting(Fed(e, s, data).value)
  {
    hide Line, Drain;
    DrainRests(e, s.(buffer := s.buffer + data, total := s.total + |data|));
  }

  // ----- a worker that does as it should -----

  /** A line of a report, short enough and all on one line. */
  predicate Writable(raw: string) {
    '\n' !in raw && |raw| < MAX_LINE
  }

  lemma OneLine(e: Expected, s: State, raw: string)
    requires Writable(raw) && s.buffer == "" && s.frames < 2 && s.total + |raw| + 1 <= MAX_REPORT
    requires Line(e, State("", s.total + |raw| + 1, s.frames + 1, s.ready, s.released, s.result), raw).Ok?
    ensures Fed(e, s, raw + "\n")
         == Line(e, State("", s.total + |raw| + 1, s.frames + 1, s.ready, s.released, s.result), raw)
  {
    hide *;
    var t := State(raw + "\n", s.total + |raw| + 1, s.frames, s.ready, s.released, s.result);
    FedWhole(e, s, raw, t);
    Short(raw);
    CutOne(t, raw);
    DrainCut(e, t);
    LineKeeps(e, Cut(t), raw);
    var u := Line(e, Cut(t), raw).value;
    KeptBuffer(e, Cut(t), u);
    DrainShort(e, u);
  }

  lemma FedWhole(e: Expected, s: State, raw: string, t: State)
    requires s.buffer == "" && s.total + |raw| + 1 <= MAX_REPORT
    requires t == State(raw + "\n", s.total + |raw| + 1, s.frames, s.ready, s.released, s.result)
    ensures Fed(e, s, raw + "\n") == Drain(e, t)
  {
    hide Drain;
    assert s.buffer + (raw + "\n") == t.buffer;
  }

  lemma CutOne(t: State, raw: string)
    requires '\n' !in raw && t.buffer == raw + "\n"
    ensures '\n' in t.buffer && LineEnd(t.buffer) == |raw| && t.buffer[..|raw|] == raw
    ensures Cut(t) == State("", t.total, t.frames + 1, t.ready, t.released, t.result)
  {
    EndOfOne(raw);
    hide LineEnd;
    assert t.buffer[|raw| + 1..] == "" && t.buffer[..|raw|] == raw;
  }

  lemma KeptBuffer(e: Expected, s: State, t: State)
    requires Steps(e, s, t) && s.buffer == ""
    ensures '\n' !in t.buffer && |t.buffer| < MAX_LINE
  {
  }

  lemma EndOfOne(raw: string)
    requires '\n' !in raw
    ensures '\n' in raw + "\n" && LineEnd(raw + "\n") == |raw|
  {
    var s := raw + "\n";
    assert s[|raw|] == '\n' && s[..|raw|] == raw;
    IndexOfUnique(s, '\n', |raw|);
  }

  /**
   An honest worker's two lines, however they are cut into reads, leave the session ready for the gate
   and then with exactly the outcome it told.
   */
  lemma HonestReport(e: Expected, first: string, second: string, o: Outcome, before: seq<string>, after: seq<string>)
    requires Writable(first) && Writable(second) && Reportable(e, o)
    requires TellsReady(e, e.loads(first)) && TellsResult(e, e.loads(second), o)
    requires before != [] && (forall k :: 0 <= k < |before| ==> before[k] != "") && Join(before) == first + "\n"
    requires after != [] && (forall k :: 0 <= k < |after| ==> after[k] != "") && Join(after) == second + "\n"
    ensures var ready := State("", |first| + 1, 1, true, false, None);
      && FedAll(e, State("", 0, 0, false, false, None), before) == Ok(ready)
      && FedAll(e, ready.(released := true), after)
         == Ok(State("", |first| + |second| + 2, 2, true, true, Some(o)))
  {
    hide *;
    HonestReady(e, first, before);
    HonestResult(e, first, second, o, after);
  }

  lemma HonestReady(e: Expected, first: string, before: seq<string>)
    requires Writable(first) && TellsReady(e, e.loads(first))
    requires before != [] && (forall k :: 0 <= k < |before| ==> before[k] != "") && Join(before) == first + "\n"
    ensures FedAll(e, State("", 0, 0, false, false, None), before) == Ok(State("", |first| + 1, 1, true, false, None))
  {
    hide *;
    var start, ready := State("", 0, 0, false, false, None), State("", |first| + 1, 1, true, false, None);
    Short(first);
    LineExactly(e, State("", |first| + 1, 1, false, false, None), first, ready);
    OneLine(e, start, first);
    CutsDoNotMatter(e, start, before);
  }

  lemma HonestResult(e: Expected, first: string, second: string, o: Outcome, after: seq<string>)
    requires Writable(first) && Writable(second) && Reportable(e, o) && TellsResult(e, e.loads(second), o)
    requires after != [] && (forall k :: 0 <= k < |after| ==> after[k] != "") && Join(after) == second + "\n"
    ensures FedAll(e, State("", |first| + 1, 1, true, true, None), after)
         == Ok(State("", |first| + |second| + 2, 2, true, true, Some(o)))
  {
    hide *;
    var open, told := State("", |first| + 1, 1, true, true, None), State("", |first| + |second| + 2, 2, true, true, Some(o));
    Short(first);
    Short(second);
    IsTaken(e, told, second, o);
    LineExactly(e, told.(result := None), second, told);
    OneLine(e, open, second);
    CutsDoNotMatter(e, open, after);
  }

  lemma Short(raw: string)
    requires Writable(raw)
    ensures '\n' !in raw && |raw| < 256 == MAX_LINE && MAX_REPORT == 512
  {
  }

  lemma IsTaken(e: Expected, t: State, raw: string, o: Outcome)
    requires Reportable(e, o) && TellsResult(e, e.loads(raw), o) && t.ready && t.released
    ensures TakenFor(e, t.(result := None), raw, o)
  {
  }

  // ----- the session -----

  datatype Event = SaidReady | GateReleased | SaidResult | StreamEnded | Exited

  /** The only order in which the events of a session may come. */
  function InOrder(ready: bool, released: bool, result: bool, eof: bool, finished: bool): seq<Event> {
    (if ready then [SaidReady] else []) + (if released then [GateReleased] else [])
      + (if result then [SaidResult] else []) + (if eof then [StreamEnded] else []) + (if finished then [Exited] else [])
  }

  datatype Observation =
    Observation(case_: Case, mode: Mode, pid: int, kind: string, number: int, exitCode: int, started: real, finished: real)

  /** What the pairing of three workers later demands of each of them. */
  predicate ValidLocal(o: Observation) {
    && !o.case_.AllowedPools? && 1 <= o.pid <= MAX_PID
    && 0.0 <= o.finished - o.started <= MAX_SECONDS
    && if o.mode.Confined? then o.kind == "syscall_error" && o.number == EACCES && o.exitCode == 0
       else if o.case_.OutsideExec? then o.kind == "control_exec" && o.number == 0 && o.exitCode == 37
       else o.kind == "control_written" && o.number == 0 && o.exitCode == 0
  }

  /** The one result and exit code that prove each kind of worker did what it should. */
  predicate Conclusive(e: Expected, result: Option<Outcome>, exitCode: int) {
    if e.case_.AllowedPools? then result == Some(Outcome("pools_checked", 0)) && exitCode == 0
    else if e.mode.Confined? then result == Some(Outcome("syscall_error", EACCES)) && exitCode == 0
    else if e.case_.OutsideExec? then result.None? && exitCode == 37
    else result == Some(Outcome("control_written", 0)) && exitCode == 0
  }

  /** A confined worker that got through: it opened the file, or its program ran. */
  predicate ShownAllowed(e: Expected, result: Option<Outcome>, exitCode: int) {
    && e.mode.Confined?
    && (if e.case_.OutsideExec? then result.None? && exitCode == 37
        else result == Some(Outcome("unexpected_open", 0)) && exitCode == 0)
  }

  /** What a conclusive worker yields is what the pairing of workers accepts. */
  lemma ConclusiveIsValid(e: Expected, result: Option<Outcome>, exitCode: int, started: real, last: real)
    requires Conclusive(e, result, exitCode) && 1 <= e.pid <= MAX_PID && 0.0 <= last - started <= MAX_SECONDS
    ensures var o := if result.Some? then result.value else Outcome("control_exec", 0);
      var seen := Observation(e.case_, e.mode, e.pid, o.kind, o.number, exitCode, started, last);
      ValidLocal(seen) <==> !e.case_.AllowedPools?
  {
  }

  /** And the pairing accepts nothing that no session could have concluded. */
  lemma ValidLocalExactly(o: Observation, loads: string -> Option<Json>)
    ensures ValidLocal(o) <==>
      var e := Expected(loads, o.case_, o.mode, o.pid);
      var result := if o.kind == "control_exec" then None else Some(Outcome(o.kind, o.number));
      && o.case_ != AllowedPools && 1 <= o.pid <= 4194303 && 0.0 <= o.finished - o.started <= 5.0
      && Conclusive(e, result, o.exitCode) && (o.kind == "control_exec" ==> o.number == 0)
  {
  }

  class WorkerReportSession {
    const expected: Expected
    const started: real
    const deadline: real
    var last: real
    var buffer: string
    var total: nat
    var frames: nat
    var ready: bool
    var released: bool
    var eof: bool
    var finished: bool
    var result: Option<Outcome>
    var failure: Option<Label>
    ghost var trace: seq<Event>
    /** Everything handed to Feed, in order. */
    ghost var fed: seq<string>

    function Now(): State
      reads this
    {
      State(buffer, total, frames, ready, released, result)
    }

    ghost predicate Core()
      reads this
    {
      && total <= MAX_REPORT && started <= last && 0.0 < deadline - started <= MAX_SECONDS && (failure.None? ==> last < deadline)
      && 1 <= expected.pid <= MAX_PID
      && (expected.case_.AllowedPools? ==> expected.mode.Confined?)
      && trace == InOrder(ready, released, result.Some?, eof, finished)
      && (released ==> ready) && (result.Some? ==> released && Reportable(expected, result.value))
      && (eof ==> released && buffer == "") && (finished ==> eof && failure.None?)
    }

    ghost predicate Valid()
      reads this
    {
      Core() && Resting(Now())
    }

    constructor (expected: Expected, started: real, deadline: real)
      requires 0.0 < deadline - started <= MAX_SECONDS && 1 <= expected.pid <= MAX_PID
      requires expected.case_.AllowedPools? ==> expected.mode.Confined?
      ensures Valid() && failure.None? && trace == [] && fed == [] && this.expected == expected
    {
      this.expected, this.started, this.deadline, last := expected, started, deadline, started;
      buffer, total, frames, ready, released, eof, finished := "", 0, 0, false, false, false, false;
      result, failure, trace, fed := None, None, [], [];
    }

    /** Record the first failure for good; the buffer is dropped. */
    method Stop(code: Label) returns (why: Label)
      requires Core() && !finished
      modifies this`failure, this`buffer
      ensures Core() && buffer == "" && failure == Some(why)
      ensures why == if old(failure).Some? then old(failure).value else code
    {
      if failure.None? {
        failure := Some(code);
      }
      buffer := "";
      why := failure.value;
    }

    /** Every operation looks at the flag and the clock, and any look may be the last. */
    method Guard() returns (stop: Option<Label>)
      requires Core()
      modifies this`failure, this`buffer, this`last
      ensures Core() && (stop.None? <==> failure.None? && !finished)
      ensures stop.None? ==> buffer == old(buffer) && old(failure).None?
      ensures stop.Some? ==> stop.value == if finished then Terminal else failure.value
      ensures finished ==> failure == old(failure) && buffer == old(buffer)
      ensures old(failure).Some? ==> failure == old(failure) && buffer == ""
      ensures old(failure).None? && failure.Some? ==> failure.value in ENVIRONMENTAL && buffer == ""
    {
      if finished {
        return Some(Terminal);
      }
      var why: Label;
      if failure.Some? {
        why := Stop(failure.value);
        return Some(why);
      }
      var stopped: bool, now: real, broken: bool := *, *, *;
      if broken || now < last {
        why := Stop(BudgetCheck);
        return Some(why);
      }
      if stopped {
        why := Stop(Cancelled);
        return Some(why);
      }
      if now >= deadline {
        last, failure := now, Some(Deadline);
        buffer := "";
        return Some(Deadline);
      }
      last := now;
      return None;
    }

    /** Act on the buffer's first line and take it off. */
    method TakeLine() returns (stop: Option<Label>)
      requires Core() && failure.None? && !eof && !finished && '\n' in buffer
      modifies this`ready, this`result, this`trace, this`failure, this`buffer, this`frames, this`last
      ensures Core() && stop == failure && old(trace) <= trace
      ensures stop.None? ==> Drain(expected, Now()) == Drain(expected, old(Now())) && |buffer| < old(|buffer|)
      ensures stop.Some? ==> buffer == ""
      ensures stop.Some? && stop.value !in ENVIRONMENTAL ==> Drain(expected, old(Now())) == Err(stop.value)
    {
      hide Drain, Line, Reportable, InOrder, LineEnd;
      DrainCut(expected, Now());
      var n := LineEnd(buffer);
      if n + 1 > MAX_LINE || frames >= 2 {
        var why := Stop(ReportBound);
        return Some(why);
      }
      var raw := buffer[..n];
      ghost var cut := Cut(Now());
      buffer, frames := buffer[n + 1..], frames + 1;
      assert Now() == cut;
      stop := Take(raw);
      if stop.None? {
        stop := Guard();
      }
    }

    /** Whether the session takes this many more bytes now. */
    method Admit(data: string) returns (stop: Option<Label>)
      requires Valid()
      modifies this`failure, this`buffer, this`last
      ensures Valid()
      ensures stop.None? ==> old(failure).None? && failure.None? && !eof && !finished && Now() == old(Now())
      ensures stop.None? ==> 0 < |data| && total + |data| <= MAX_REPORT
      ensures stop.Some? ==> stop.value == if finished then Terminal else if failure.Some? then failure.value else AfterEof
      ensures stop.Some? && !finished ==> failure.Some?
      ensures old(failure).Some? ==> failure == old(failure)
      ensures stop.Some? && old(failure).None? && stop.value !in ENVIRONMENTAL ==>
        (finished || (eof && stop.value == AfterEof) || Fed(expected, old(Now()), data) == Err(stop.value))
    {
      hide Drain, Line, Reportable, InOrder, LineEnd;
      stop := Guard();
      if stop.Some? {
        return;
      }
      var why: Label;
      if eof {
        why := Stop(AfterEof);
        return Some(why);
      }
      if !(0 < |data| <= MAX_REPORT) || total + |data| > MAX_REPORT {
        why := Stop(ReportBound);
        return Some(why);
      }
    }

    method TakeLines() returns (stop: Option<Label>)
      requires Core() && failure.None? && !eof && !finished
      modifies this`ready, this`result, this`trace, this`failure, this`buffer, this`frames, this`last
      ensures Core() && stop == failure && old(trace) <= trace
      ensures stop.None? ==> '\n' !in buffer && Drain(expected, Now()) == Drain(expected, old(Now()))
      ensures stop.Some? ==> buffer == ""
      ensures stop.Some? && stop.value !in ENVIRONMENTAL ==> Drain(expected, old(Now())) == Err(stop.value)
    {
      hide Drain, Line, Reportable, InOrder, LineEnd;
      stop := None;
      while '\n' in buffer
        invariant Core() && stop.None? && failure.None? && old(trace) <= trace
        invariant Drain(expected, Now()) == Drain(expected, old(Now()))
        decreases |buffer|
      {
        stop := TakeLine();
        if stop.Some? {
          return;
        }
      }
    }

    /** Take any number of bytes; what the session becomes is the pure `Fed`. */
    method Feed(data: string) returns (r: Result<(), Label>)
      requires Valid()
      modifies this`total, this`buffer, this`frames, this`ready, this`result, this`failure, this`last, this`trace, this`fed
      ensures Valid() && old(trace) <= trace && fed == old(fed) + [data]
      ensures r.Ok? ==> old(failure).None? && failure.None? && !eof && !finished
      ensures r.Ok? ==> Fed(expected, old(Now()), data) == Ok(Now())
      ensures r.Err? ==> r.error == if finished then Terminal else if failure.Some? then failure.value else AfterEof
      ensures r.Err? && !finished ==> failure.Some?
      ensures old(failure).Some? ==> failure == old(failure)
      ensures r.Err? && old(failure).None? && r.error !in ENVIRONMENTAL ==>
        (old(finished) || (old(eof) && r.error == AfterEof) || Fed(expected, old(Now()), data) == Err(r.error))
    {
      hide Drain, Line, Reportable, InOrder, LineEnd;
      fed := fed + [data];
      var stop := Admit(data);
      if stop.Some? {
        return Err(stop.value);
      }
      total, buffer := total + |data|, buffer + data;
      stop := TakeLines();
      if stop.Some? {
        return Err(stop.value);
      }
      r := Settle();
    }

    /** No line is left: what remains may not be too long for one. */
    method Settle() returns (r: Result<(), Label>)
      requires Core() && failure.None? && !eof && !finished && '\n' !in buffer
      modifies this`failure, this`buffer, this`last
      ensures Valid()
      ensures r.Ok? ==> failure.None? && Now() == old(Now()) && Drain(expected, Now()) == Ok(Now())
      ensures r.Err? ==> failure == Some(r.error)
      ensures r.Err? && r.error !in ENVIRONMENTAL ==> Drain(expected, old(Now())) == Err(r.error)
    {
      hide Drain, Line, Reportable, InOrder, LineEnd;
      DrainShort(expected, Now());
      if |buffer| >= MAX_LINE {
        var why := Stop(ReportBound);
        return Err(why);
      }
      var stop := Guard();
      r := if stop.Some? then Err(stop.value) else Ok(());
    }

    /** Act on one line. */
    method Take(raw: string) returns (stop: Option<Label>)
      requires Core() && failure.None? && !eof && !finished
      modifies this`ready, this`result, this`trace, this`failure, this`buffer
      ensures Core() && stop == failure && old(trace) <= trace
      ensures stop.None? ==> Line(expected, old(Now()), raw) == Ok(Now()) && buffer == old(buffer)
      ensures stop.Some? ==> Line(expected, old(Now()), raw) == Err(stop.value) && buffer == ""
    {
      hide Line, Reportable;
      LineKeeps(expected, Now(), raw);
      var taken := Line(expected, Now(), raw);
      if taken.Err? {
        var why := Stop(taken.error);
        return Some(why);
      }
      trace := trace + (if ready then [SaidResult] else [SaidReady]);
      ready, result := taken.value.ready, taken.value.result;
      return None;
    }

    /** Whether the worker has said ready and nothing more, and the gate is still shut. */
    method ReadyForRelease() returns (r: Result<bool, Label>)
      requires Valid()
      modifies this`failure, this`buffer, this`last
      ensures Valid()
      ensures old(failure).Some? ==> failure == old(failure)
      ensures r.Ok? ==> failure.None? && buffer == old(buffer)
      ensures r.Ok? ==> r.value == (ready && !released && buffer == "" && !eof)
    {
      hide Reportable, InOrder;
      var stop := Guard();
      r := if stop.Some? then Err(stop.value) else Ok(ready && !released && buffer == "" && !eof);
    }

    method MarkGateReleased() returns (r: Result<(), Label>)
      requires Valid()
      modifies this`released, this`buffer, this`failure, this`last, this`trace
      ensures Valid() && old(trace) <= trace
      ensures old(failure).Some? ==> failure == old(failure)
      ensures r.Ok? ==> trace == [SaidReady, GateReleased] && released && buffer == ""
      ensures r.Err? && old(failure).None? && r.error !in ENVIRONMENTAL ==>
        !(old(ready) && !old(released) && !eof && old(buffer) == "" && !finished)
    {
      hide Reportable;
      var stop := Guard();
      if stop.Some? {
        return Err(stop.value);
      }
      if !ready || released || eof || buffer != "" {
        var why := Stop(GateOrder);
        return Err(why);
      }
      released := true;
      trace := trace + [GateReleased];
      stop := Guard();
      r := if stop.Some? then Err(stop.value) else Ok(());
    }

    method EndOfReports() returns (r: Result<(), Label>)
      requires Valid()
      modifies this`eof, this`buffer, this`failure, this`last, this`trace
      ensures Valid() && old(trace) <= trace
      ensures old(failure).Some? ==> failure == old(failure)
      ensures r.Ok? ==> eof && trace == old(trace) + [StreamEnded]
      ensures r.Err? && old(failure).None? && r.error !in ENVIRONMENTAL ==>
        !(old(released) && !old(eof) && old(buffer) == "" && !finished)
    {
      hide Reportable;
      var stop := Guard();
      if stop.Some? {
        return Err(stop.value);
      }
      var why: Label;
      if eof || !ready || !released {
        why := Stop(EofOrder);
        return Err(why);
      }
      if buffer != "" {
        why := Stop(ReportTruncated);
        return Err(why);
      }
      eof := true;
      trace := trace + [StreamEnded];
      stop := Guard();
      r := if stop.Some? then Err(stop.value) else Ok(());
    }

    /**
     Judge an exit observed from outside.  It succeeds only after ready, gate, at most one result and
     the end of the stream, in that order, and only with the one conclusive outcome.
     */
    method FinishExit(workerPid: int, exitCode: int) returns (r: Result<Observation, Label>)
      requires Valid()
      modifies this`finished, this`failure, this`buffer, this`last, this`trace
      ensures Valid()
      ensures old(failure).Some? ==> failure == old(failure)
      ensures r.Ok? ==> !old(finished) && finished
      ensures r.Ok? ==>
        trace == [SaidReady, GateReleased] + (if result.Some? then [SaidResult] else []) + [StreamEnded, Exited]
      ensures r.Ok? ==> Conclusive(expected, result, exitCode) && r.value.pid == workerPid == expected.pid
      ensures r.Ok? ==> r.value.exitCode == exitCode && r.value.started == started && r.value.finished == last
      ensures r.Ok? ==> r.value.case_ == expected.case_ && r.value.mode == expected.mode
      ensures r.Ok? ==> Outcome(r.value.kind, r.value.number) == if result.Some? then result.value else Outcome("control_exec", 0)
      ensures old(failure).None? && !finished && r == Err(NegativeAllowed) ==> ShownAllowed(expected, result, exitCode)
      ensures r.Ok? && !expected.case_.AllowedPools? ==> ValidLocal(r.value)
      ensures r.Err? ==> finished == old(finished) && (finished || failure == Some(r.error))
      ensures r.Err? && old(failure).None? && r.error !in ENVIRONMENTAL ==>
        (finished || workerPid != expected.pid || !eof || !Conclusive(expected, result, exitCode))
    {
      var stop := Guard();
      if stop.Some? {
        return Err(stop.value);
      }
      hide Reportable, Conclusive, ValidLocal, ShownAllowed;
      var why: Option<Label>, kind, number := Examine(workerPid, exitCode);
      if why.Some? {
        var code := Stop(why.value);
        return Err(code);
      }
      stop := Guard();
      if stop.Some? {
        return Err(stop.value);
      }
      finished := true;
      trace := trace + [Exited];
      ConclusiveIsValid(expected, result, exitCode, started, last);
      r := Ok(Observation(expected.case_, expected.mode, expected.pid, kind, number, exitCode, started, last));
    }

    /** The checks of FinishExit, in order. */
    method Examine(workerPid: int, exitCode: int) returns (why: Option<Label>, kind: string, number: int)
      requires Core()
      ensures why.None? <==> workerPid == expected.pid && eof && Conclusive(expected, result, exitCode)
      ensures why.None? ==> Outcome(kind, number) == if result.Some? then result.value else Outcome("control_exec", 0)
      ensures why.Some? ==> why.value !in ENVIRONMENTAL
      ensures why == Some(NegativeAllowed) <==> workerPid == expected.pid && eof && ShownAllowed(expected, result, exitCode)
    {
      kind, number := "control_exec", 0;
      if !(1 <= workerPid <= MAX_PID) || workerPid != expected.pid || !(0 <= exitCode <= 255) {
        return Some(ExitIdentity), kind, number;
      }
      if !eof || !released {
        return Some(ExitIncomplete), kind, number;
      }
      if result.None? {
        if expected.case_.OutsideExec? && expected.mode.Confined? && exitCode == 37 {
          return Some(NegativeAllowed), kind, number;
        }
        if !expected.case_.OutsideExec? || !expected.mode.Control? || exitCode != 37 {
          return Some(ResultMissing), kind, number;
        }
        return None, kind, number;
      }
      kind, number := result.value.kind, result.value.number;
      if exitCode != 0 {
        return Some(ExitStatus), kind, number;
      }
      if expected.case_.AllowedPools? {
        if kind != "pools_checked" || number != 0 {
          return Some(PoolControlFailed), kind, number;
        }
      } else if expected.mode.Control? {
        if kind != "control_written" {
          return Some(ControlFailed), kind, number;
        }
      } else {
        if kind == "unexpected_open" {
          return Some(NegativeAllowed), kind, number;
        }
        if kind != "syscall_error" || number != EACCES {
          return Some(SyscallNotEacces), kind, number;
        }
      }
      return None, kind, number;
    }
  }
}
