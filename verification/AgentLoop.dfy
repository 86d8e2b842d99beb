/**
 The interactive agent's step loop in native tool mode: every batch of calls is answered at once and in
 order, also when it stopped at a failure or at the batch limit.
 */
module AgentLoop {
  import opened Wrappers
  import opened InferenceGateway
  import opened ModelExecutor

  const MAX_STEPS: nat := 10
  const MAX_BATCH_TOOL_CALLS: nat := 10
  const MAX_EMPTY_RETRIES: nat := 2

  datatype Status = Success | Failure | Skipped

  datatype Record = Record(status: Status, observation: string)

  /**
   One batch: its calls, a record for each, and how many were executed.  These are a prefix, all
   successful but perhaps the last; a failure or the limit is the only reason to stop short.
   */
  datatype Batch = Batch(calls: seq<Call>, records: seq<Record>, ran: nat)

  function Allowed(calls: seq<Call>): nat {
    if |calls| > MAX_BATCH_TOOL_CALLS then MAX_BATCH_TOOL_CALLS else |calls|
  }

  predicate WellRun(b: Batch) {
    && |b.records| == |b.calls| && b.ran <= Allowed(b.calls)
    && (forall k :: 0 <= k < b.ran - 1 ==> b.records[k].status == Success)
    && (forall k :: b.ran <= k < |b.records| ==> b.records[k].status == Skipped)
    && (b.ran > 0 ==> b.records[b.ran - 1].status != Skipped)
    && (b.ran < Allowed(b.calls) ==> b.ran > 0 && b.records[b.ran - 1].status == Failure)
  }

  /** The calls a run of batches has executed, in order. */
  function Executed(batches: seq<Batch>): seq<Call> {
    if batches == [] then []
    else
      var last := batches[|batches| - 1];
      Executed(batches[..|batches| - 1]) + if last.ran <= |last.calls| then last.calls[..last.ran] else []
  }

  lemma ExecutedSnoc(batches: seq<Batch>, b: Batch)
    requires b.ran <= |b.calls|
    ensures Executed(batches + [b]) == Executed(batches) + b.calls[..b.ran]
  {
    assert (batches + [b])[..|batches|] == batches;
  }

  /** A response once parsed. */
  datatype Parsed = Tools(calls: seq<Call>) | Final(text: string) | Malformed

  /**
   What comes of asking the model: no response, native calls whose arguments cannot be read, or a response.
   `shown` is the text that stays in the transcript when the calls are not native.
   */
  datatype Reply =
    | RequestFailed
    | BadArguments
    | Response(parsed: Parsed, content: string, native: bool, shown: Option<string>)

  datatype Ending = Replied(text: string) | NoResponse | EmptyResponse | InvalidResponse | TooManySteps | Raised

  /** The emptiness test; a malformed response counts as empty too. */
  predicate EffectivelyEmpty(p: Parsed) {
    !(p.Tools? && p.calls != []) && !(p.Final? && p.text != "")
  }

  lemma EmptyExactly(p: Parsed)
    ensures EffectivelyEmpty(p) <==> p.Malformed? || (p.Tools? && p.calls == []) || (p.Final? && p.text == "")
  {
  }

  /** A response that the loop takes for an empty one. */
  predicate IsEmpty(r: Reply) {
    r.Response? && (r.parsed.Malformed? || (r.parsed.Tools? && r.parsed.calls == []) || r.parsed == Final(""))
  }

  /** How a step ends, told from everything the model sent back in it. */
  ghost predicate EndsSo(r: Ending, heard: seq<Reply>) {
    && |heard| <= MAX_STEPS
    && (forall k :: 0 <= k < |heard| - 1 ==> heard[k].Response? && !(heard[k].parsed.Final? && heard[k].parsed.text != ""))
    && (r == TooManySteps <==> |heard| == MAX_STEPS && GoesOn(heard))
    && (r != TooManySteps ==> heard != [] && EndsWith(r, heard))
  }

  /** The last reply ends the step in this way. */
  ghost predicate EndsWith(r: Ending, heard: seq<Reply>)
    requires heard != []
  {
    var last := heard[|heard| - 1];
    match r
    case NoResponse => last == RequestFailed
    case Raised => last == BadArguments
    case Replied(text) => last.Response? && last.parsed == Final(text) && text != ""
    case EmptyResponse => EmptiesBefore(heard) >= 3
    case _ => false
  }

  /** The last reply lets the loop go on: a round of calls, or an empty response with retries left. */
  ghost predicate GoesOn(heard: seq<Reply>) {
    heard == [] || (var last := heard[|heard| - 1];
      last.Response? && !(last.parsed.Final? && last.parsed.text != "") && EmptiesBefore(heard) <= 2)
  }

  /** How many empty responses in a row the replies end with. */
  function EmptiesBefore(heard: seq<Reply>): nat {
    if heard == [] || !IsEmpty(heard[|heard| - 1]) then 0 else 1 + EmptiesBefore(heard[..|heard| - 1])
  }

  lemma OneMore(heard: seq<Reply>, r: Reply)
    ensures EmptiesBefore(heard + [r]) == if IsEmpty(r) then 1 + EmptiesBefore(heard) else 0
  {
    assert (heard + [r])[..|heard|] == heard;
  }

  function Note(role: string, content: string): Message {
    Message(role, content, [], None)
  }

  /** The messages behind `at` carry what was observed of each call of a batch, with its id. */
  predicate Observed(messages: seq<Message>, at: nat, b: Batch) {
    && |messages| == at + 1 + |b.calls| && |b.records| == |b.calls|
    && forall k :: 0 <= k < |b.calls| ==> messages[at + 1 + k] == Answer(b.records[k].observation, b.calls[k])
  }

  class Agent {
    var messages: seq<Message>
    ghost var requests: nat
    ghost var heard: seq<Reply>
    ghost var executed: seq<Call>
    ghost var batches: seq<Batch>

    ghost predicate Valid()
      reads this
    {
      && Answered(messages) && executed == Executed(batches)
      && forall k :: 0 <= k < |batches| ==> WellRun(batches[k])
    }

    constructor (systemPrompt: string)
      ensures Valid() && requests == 0 && batches == []
    {
      messages, requests, executed, batches, heard := [Note("system", systemPrompt)], 0, [], [], [];
    }

    /** A message that makes no calls disturbs none that were answered. */
    method Append(m: Message)
      requires Valid() && m.calls == []
      modifies this`messages
      ensures Valid() && messages == old(messages) + [m]
    {
      AnsweredSnoc(messages, m);
      messages := messages + [m];
    }

    /** Run one tool: whatever it does comes back as a success or a failure. */
    method ExecuteOne(call: Call) returns (r: Record)
      modifies this`executed
      ensures executed == old(executed) + [call] && r.status != Skipped
    {
      executed := executed + [call];
      var failed: bool, observation: string := *, *;
      r := Record(if failed then Failure else Success, observation);
    }

    /** Execute a batch up to the limit, skipping everything after a failure, and record every call. */
    method ExecuteBatch(calls: seq<Call>) returns (records: seq<Record>, ghost ran: nat)
      requires Valid()
      modifies this`executed, this`batches
      ensures Valid() && |records| == |calls|
      ensures batches == old(batches) + [Batch(calls, records, ran)]
      ensures ran <= Allowed(calls) && executed == old(executed) + calls[..ran]
    {
      hide Answered, Executed;
      records := [];
      var aborted := false;
      ran := 0;
      var most := Allowed(calls);
      for i := 0 to most
        invariant |records| == i && ran <= i && (!aborted ==> ran == i)
        invariant aborted ==> ran > 0 && records[ran - 1].status == Failure
        invariant forall k :: 0 <= k < ran ==> records[k].status != Skipped
        invariant forall k :: 0 <= k < ran - 1 ==> records[k].status == Success
        invariant !aborted ==> forall k :: 0 <= k < ran ==> records[k].status == Success
        invariant forall k :: ran <= k < i ==> records[k].status == Skipped
        invariant executed == old(executed) + calls[..ran] && batches == old(batches)
      {
        if aborted {
          records := records + [Record(Skipped, "Skipped due to earlier failure in fail-fast batch.")];
        } else {
          var r := ExecuteOne(calls[i]);
          assert calls[..i + 1] == calls[..i] + [calls[i]];
          records := records + [r];
          ran := ran + 1;
          aborted := r.status == Failure;
        }
      }
      ghost var judged := records;
      for i := most to |calls|
        invariant |records| == i && records[..most] == judged
        invariant executed == old(executed) + calls[..ran] && batches == old(batches)
        invariant forall k :: most <= k < i ==> records[k].status == Skipped
      {
        records := records + [Record(Skipped, "Skipped: tool call batch limit exceeded.")];
      }
      ghost var b := Batch(calls, records, ran);
      ExecutedSnoc(batches, b);
      batches := batches + [b];
    }

    /** The assistant's calls, and one tool message for each of them, in order and with its id. */
    method AppendRound(content: string, calls: seq<Call>, records: seq<Record>)
      requires Valid() && |records| == |calls|
      modifies this`messages
      ensures Valid() && Round(messages, old(messages), content, calls, |calls|)
      ensures old(messages) < messages && |messages| == |old(messages)| + 1 + |calls|
      ensures forall k :: 0 <= k < |calls| ==>
        messages[|old(messages)| + 1 + k] == Answer(records[k].observation, calls[k])
    {
      hide Answered, Executed, WellRun, Round;
      var before := messages;
      RoundBegins(before, content, calls);
      var more := before + [Asking(content, calls)];
      for k := 0 to |calls|
        invariant Round(more, before, content, calls, k) && |more| == |before| + 1 + k && before < more
        invariant forall j :: 0 <= j < k ==> more[|before| + 1 + j] == Answer(records[j].observation, calls[j])
      {
        RoundGrows(more, before, content, calls, k, records[k].observation);
        more := more + [Answer(records[k].observation, calls[k])];
      }
      RoundEnds(more, before, content, calls);
      messages := more;
    }

    /** Ask the model once. */
    method Ask() returns (r: Reply)
      modifies this`requests, this`heard
      ensures requests == old(requests) + 1 && heard == old(heard) + [r]
    {
      requests := requests + 1;
      r := *;
      heard := heard + [r];
    }

    /**
     Run a batch and put it into the transcript.  Running leaves the messages alone, so the assistant's
     message and the answers to it are appended together.
     */
    method TakeCalls(calls: seq<Call>, content: string, native: bool, shown: Option<string>)
        returns (ghost b: Batch)
      requires Valid() && calls != []
      modifies this`messages, this`executed, this`batches
      ensures Valid() && old(messages) < messages && requests == old(requests)
      ensures b.calls == calls && batches == old(batches) + [b]
      ensures b.ran <= MAX_BATCH_TOOL_CALLS && b.ran <= |calls| && executed == old(executed) + calls[..b.ran]
      ensures native ==> Round(messages, old(messages), content, calls, |calls|) && Observed(messages, |old(messages)|, b)
    {
      hide Answered, Executed, Round;
      var records, ran := ExecuteBatch(calls);
      b := Batch(calls, records, ran);
      if native {
        AppendRound(content, calls, records);
      } else {
        if shown.Some? {
          Append(Note("assistant", shown.value));
        }
        Append(Note("user", "TOOL RESULT"));
      }
    }

    /**
     Act on one response; `r` says how the step ends, if it does.  A malformed one never gets here, so the
     retries for it, and the ending when they are spent, are out of reach.
     */
    method Handle(p: Parsed, content: string, native: bool, shown: Option<string>) returns (r: Option<Ending>)
      requires Valid() && !EffectivelyEmpty(p)
      modifies this`messages, this`executed, this`batches
      ensures Valid() && old(messages) < messages && requests == old(requests)
      ensures old(batches) <= batches && |batches| <= |old(batches)| + 1
      ensures old(executed) <= executed && |executed| <= |old(executed)| + MAX_BATCH_TOOL_CALLS
      ensures p.Final? ==> messages == old(messages) + [Note("assistant", content)] && batches == old(batches)
      ensures r == if p.Final? then Some(Replied(p.text)) else None
    {
      hide Answered, Executed, WellRun, Round, Observed;
      match p {
        case Malformed => assert false;
        case Tools(calls) =>
          ghost var b := TakeCalls(calls, content, native, shown);
          r := None;
        case Final(text) =>
          Append(Note("assistant", content));
          r := Some(Replied(text));
      }
    }

    /**
     One user message and its answer.  Whatever the model and the tools do, the transcript stays one in
     which every call is answered at once and in order, the model is asked and tools are run a bounded
     number of times, and an invalid response is never what the step ends with.
     */
    method Step(userInput: string) returns (r: Ending)
      requires Valid()
      modifies this
      ensures Valid() && old(messages) + [Note("user", userInput)] <= messages
      ensures requests <= old(requests) + MAX_STEPS
      ensures old(batches) <= batches && |batches| <= |old(batches)| + MAX_STEPS
      ensures old(executed) <= executed && |executed| <= |old(executed)| + MAX_STEPS * MAX_BATCH_TOOL_CALLS
      ensures r != InvalidResponse
      ensures old(heard) <= heard && EndsSo(r, heard[|old(heard)|..])
      ensures r.Replied? ==> messages != [] && messages[|messages| - 1] == Note("assistant", heard[|heard| - 1].content)
    {
      hide Answered, Executed, WellRun, Round, Observed, EndsSo, GoesOn, EmptiesBefore;
      assert heard[|heard|..] == [];
      NothingHeard();
      Append(Note("user", userInput));
      var empties := 0;
      for step := 1 to MAX_STEPS + 1
        invariant Valid() && old(messages) + [Note("user", userInput)] <= messages
        invariant requests == old(requests) + step - 1
        invariant old(batches) <= batches && |batches| <= |old(batches)| + step - 1
        invariant old(executed) <= executed
        invariant |executed| <= |old(executed)| + (step - 1) * MAX_BATCH_TOOL_CALLS
        invariant old(heard) <= heard && |heard| == |old(heard)| + step - 1
        invariant StillGoing(heard[|old(heard)|..], empties)
      {
        if step == MAX_STEPS - 1 {
          Append(Note("user", "You must now produce your final answer."));
        }
        ghost var earlier := heard[|old(heard)|..];
        var reply := Ask();
        assert heard[|old(heard)|..] == earlier + [reply];
        NextHeard(earlier, empties, reply);
        if reply.RequestFailed? {
          return NoResponse;
        } else if reply.BadArguments? {
          return Raised;
        } else if EffectivelyEmpty(reply.parsed) {
          if empties >= MAX_EMPTY_RETRIES {
            return Ending.EmptyResponse;
          }
          empties := empties + 1;
          Append(Note("user", "Your previous response was empty."));
        } else {
          empties := 0;
          var ending := Handle(reply.parsed, reply.content, reply.native, reply.shown);
          if ending.Some? {
            return ending.value;
          }
        }
      }
      r := TooManySteps;
    }
  }

  /** So far no reply has ended the step, and `empties` are those in a row at the end. */
  ghost predicate StillGoing(heard: seq<Reply>, empties: nat) {
    && empties == EmptiesBefore(heard) && GoesOn(heard)
    && (forall k :: 0 <= k < |heard| ==> heard[k].Response? && !(heard[k].parsed.Final? && heard[k].parsed.text != ""))
    && (|heard| == MAX_STEPS ==> EndsSo(TooManySteps, heard))
  }

  lemma NothingHeard()
    ensures StillGoing([], 0)
  {
  }

  /** What one more reply does: it ends the step in its own way, or the loop goes on. */
  lemma NextHeard(heard: seq<Reply>, empties: nat, r: Reply)
    requires StillGoing(heard, empties) && |heard| < MAX_STEPS
    ensures r == RequestFailed ==> EndsSo(NoResponse, heard + [r])
    ensures r == BadArguments ==> EndsSo(Raised, heard + [r])
    ensures r.Response? && EffectivelyEmpty(r.parsed) ==>
      if empties >= 2 then EndsSo(Ending.EmptyResponse, heard + [r]) else StillGoing(heard + [r], empties + 1)
    ensures r.Response? && !EffectivelyEmpty(r.parsed) ==>
      if r.parsed.Final? then EndsSo(Replied(r.parsed.text), heard + [r]) else StillGoing(heard + [r], 0)
  {
    OneMore(heard, r);
    hide EmptiesBefore;
  }
}
