/**
 The bounded loop between a model and its tools.  Whatever the model answers and the tools do, the
 requests it sends are transcripts the gateway has nothing against, and no limit is overrun.
 */
module ModelExecutor {
  import opened Wrappers
  import opened JsonBounds
  import opened InferenceGateway

  datatype ExecutorLimits = ExecutorLimits(maxTurns: nat, maxToolCalls: nat, maxSummaryBytes: nat)

  const DEFAULT_EXECUTOR_LIMITS := ExecutorLimits(24, 64, 64 * 1024)

  datatype Ending = Submitted | Blocked | Failed | Cancelled | TimedOut

  datatype WorkerResult = WorkerResult(ending: Ending, summary: string, turns: nat, toolCalls: nat, toolErrors: nat)

  datatype ToolResult = ToolResult(toolName: string, output: string, isError: bool)

  /** The sandbox's tools: each invocation may raise, or return anything at all. */
  class Tools {
    const names: seq<string>
    ghost var invoked: seq<Call>
    /** What came back, where it did. */
    ghost var returned: seq<ToolResult>

    method Invoke(call: Call) returns (r: Option<ToolResult>)
      modifies this`invoked, this`returned
      ensures invoked == old(invoked) + [call]
      ensures returned == if r.Some? then old(returned) + [r.value] else old(returned)
    {
      invoked := invoked + [call];
      r := *;
      if r.Some? {
        returned := returned + [r.value];
      }
    }
  }

  // ----- the shape of the conversation -----

  /** From `at` on, `calls` are answered one after the other, in order. */
  predicate Replies(messages: seq<Message>, at: nat, calls: seq<Call>) {
    && at + |calls| <= |messages|
    && forall i :: 0 <= i < |calls| ==> ReplyTo(messages, at, calls, i)
  }

  predicate ReplyTo(messages: seq<Message>, at: nat, calls: seq<Call>, i: nat)
    requires i < |calls| && at + |calls| <= |messages|
  {
    messages[at + i].role == "tool" && messages[at + i].answers == Some(calls[i].id)
  }

  predicate AnsweredAt(messages: seq<Message>, k: nat)
    requires k < |messages|
  {
    Replies(messages, k + 1, messages[k].calls)
  }

  /** Every message that makes calls is followed at once by exactly the answers to them. */
  predicate Answered(messages: seq<Message>) {
    forall k :: 0 <= k < |messages| ==> AnsweredAt(messages, k)
  }

  function AllCalls(messages: seq<Message>): seq<Call> {
    if messages == [] then [] else AllCalls(messages[..|messages| - 1]) + messages[|messages| - 1].calls
  }

  lemma AllCallsSnoc(messages: seq<Message>, m: Message)
    ensures AllCalls(messages + [m]) == AllCalls(messages) + m.calls
  {
    assert (messages + [m])[..|messages|] == messages;
  }

  function Asking(content: string, calls: seq<Call>): Message {
    Message("assistant", content, calls, None)
  }

  function Answer(output: string, call: Call): Message {
    Message("tool", output, [], Some(call.id))
  }

  // ----- what is said -----

  /** A response that made calls, and what the tools returned for them. */
  datatype Turn = Turn(reply: Response, results: seq<ToolResult>)

  /** Every call has its result, from the tool of that name. */
  predicate Whole(t: Turn) {
    |t.results| == |t.reply.calls| && forall k :: 0 <= k < |t.results| ==> t.results[k].toolName == t.reply.calls[k].name
  }

  /** The answers that go into the conversation: each tool's own output, for its call. */
  function Told(calls: seq<Call>, results: seq<ToolResult>): seq<Message>
    requires |results| <= |calls|
  {
    seq(|results|, k requires 0 <= k < |results| => Message("tool", results[k].output, [], Some(calls[k].id)))
  }

  predicate AllWhole(turns: seq<Turn>) {
    forall k :: 0 <= k < |turns| ==> Whole(turns[k])
  }

  /** The conversation after these turns. */
  function Talk(opening: seq<Message>, turns: seq<Turn>): seq<Message>
    requires AllWhole(turns)
  {
    if turns == [] then opening
    else
      var last := turns[|turns| - 1];
      Talk(opening, turns[..|turns| - 1])
        + [Message("assistant", last.reply.content, last.reply.calls, None)] + Told(last.reply.calls, last.results)
  }

  function Faults(results: seq<ToolResult>): nat {
    if results == [] then 0
    else Faults(results[..|results| - 1]) + if results[|results| - 1].isError then 1 else 0
  }

  function AllResults(turns: seq<Turn>): seq<ToolResult> {
    if turns == [] then [] else AllResults(turns[..|turns| - 1]) + turns[|turns| - 1].results
  }

  lemma TalkSnoc(opening: seq<Message>, turns: seq<Turn>, t: Turn)
    requires AllWhole(turns) && Whole(t)
    ensures AllWhole(turns + [t]) && AllResults(turns + [t]) == AllResults(turns) + t.results
    ensures Talk(opening, turns + [t])
         == Talk(opening, turns) + [Asking(t.reply.content, t.reply.calls)] + Told(t.reply.calls, t.results)
  {
    assert (turns + [t])[..|turns|] == turns;
  }

  lemma FaultsSnoc(results: seq<ToolResult>, one: ToolResult)
    ensures Faults(results + [one]) == Faults(results) + if one.isError then 1 else 0
  {
    assert (results + [one])[..|results|] == results;
  }

  lemma {:induction false} FaultsOfBoth(first: seq<ToolResult>, second: seq<ToolResult>)
    ensures Faults(first + second) == Faults(first) + Faults(second)
    ensures Faults(first) <= |first|
    decreases |second|
  {
    if second == [] {
      assert first + second == first;
      FaultsWithin(first);
    } else {
      var n := |second| - 1;
      assert (first + second)[..|first| + n] == first + second[..n];
      FaultsOfBoth(first, second[..n]);
    }
  }

  lemma {:induction false} FaultsWithin(results: seq<ToolResult>)
    ensures Faults(results) <= |results|
  {
    if results != [] {
      FaultsWithin(results[..|results| - 1]);
    }
  }

  /** The first `j` calls are answered by what their tools returned. */
  predicate Recorded(
    before: seq<Message>, r: Response, messages: seq<Message>, results: seq<ToolResult>, errors: nat, j: nat)
  {
    && |results| == j <= |r.calls| && errors == Faults(results)
    && (forall k :: 0 <= k < j ==> results[k].toolName == r.calls[k].name)
    && messages == before + [Asking(r.content, r.calls)] + Told(r.calls, results)
  }

  lemma RecordedNone(before: seq<Message>, r: Response)
    ensures Recorded(before, r, before + [Asking(r.content, r.calls)], [], 0, 0)
  {
    assert Told(r.calls, []) == [];
  }

  lemma RecordedNext(
    before: seq<Message>, r: Response, messages: seq<Message>, results: seq<ToolResult>, errors: nat, j: nat, one: ToolResult)
    requires Recorded(before, r, messages, results, errors, j) && j < |r.calls| && one.toolName == r.calls[j].name
    ensures Recorded(before, r, messages + [Answer(one.output, r.calls[j])], results + [one],
                     errors + (if one.isError then 1 else 0), j + 1)
  {
    FaultsSnoc(results, one);
    ToldSnoc(r.calls, results, one);
    hide Faults, Told;
  }

  lemma RecordedAll(before: seq<Message>, r: Response, messages: seq<Message>, results: seq<ToolResult>, errors: nat)
    requires Recorded(before, r, messages, results, errors, |r.calls|)
    ensures Whole(Turn(r, results)) && errors == Faults(results)
    ensures messages == before + [Asking(r.content, r.calls)] + Told(r.calls, results)
  {
  }

  function AllReplies(turns: seq<Turn>): seq<Response> {
    if turns == [] then [] else AllReplies(turns[..|turns| - 1]) + [turns[|turns| - 1].reply]
  }

  function Prompts(system: string, user: string): seq<Message> {
    [Message("system", system, [], None), Message("user", user, [], None)]
  }

  lemma NoTurns()
    ensures Faults(AllResults([])) == 0
  {
  }

  lemma TurnTaken(asked: seq<Request>, start: nat, opening: seq<Message>, turns: seq<Turn>, t: Turn)
    returns (more: seq<Turn>)
    requires AllWhole(turns) && Whole(t) && AskedInTurn(asked, start, opening, turns)
    ensures more == turns + [t] && AllWhole(more) && AskedInTurn(asked, start, opening, more)
    ensures Talk(opening, more)
         == Talk(opening, turns) + [Asking(t.reply.content, t.reply.calls)] + Told(t.reply.calls, t.results)
    ensures AllResults(more) == AllResults(turns) + t.results && AllReplies(more) == AllReplies(turns) + [t.reply]
    ensures Faults(AllResults(more)) == Faults(AllResults(turns)) + Faults(t.results)
  {
    more := turns + [t];
    TalkSnoc(opening, turns, t);
    NextTurn(asked, start, opening, turns, t);
    FaultsOfBoth(AllResults(turns), t.results);
    assert more[..|turns|] == turns;
    hide AskedInTurn, Talk, Told, Faults, Whole, AllWhole;
  }

  lemma ToldSnoc(calls: seq<Call>, results: seq<ToolResult>, one: ToolResult)
    requires |results| < |calls|
    ensures Told(calls, results + [one]) == Told(calls, results) + [Answer(one.output, calls[|results|])]
  {
  }

  /** The requests from `start` on are the conversation, as it stood after each of the turns. */
  ghost predicate AskedInTurn(asked: seq<Request>, start: nat, opening: seq<Message>, turns: seq<Turn>)
    requires AllWhole(turns)
  {
    && start <= |asked| <= start + |turns| + 1
    && forall k :: 0 <= k < |asked| - start ==> AskedAt(asked, start, opening, turns, k)
  }

  ghost predicate AskedAt(asked: seq<Request>, start: nat, opening: seq<Message>, turns: seq<Turn>, k: nat)
    requires AllWhole(turns) && k <= |turns| && start + k < |asked|
  {
    asked[start + k].messages == Talk(opening, turns[..k])
  }

  lemma NextAsked(asked: seq<Request>, start: nat, opening: seq<Message>, turns: seq<Turn>, q: Request)
    requires AllWhole(turns) && AskedInTurn(asked, start, opening, turns) && |asked| == start + |turns|
    requires q.messages == Talk(opening, turns)
    ensures AskedInTurn(asked + [q], start, opening, turns)
  {
    hide AllWhole, Talk;
    forall k | 0 <= k < |asked + [q]| - start
      ensures AskedAt(asked + [q], start, opening, turns, k)
    {
      if k < |turns| {
        assert AskedAt(asked, start, opening, turns, k);
      } else {
        assert turns[..k] == turns;
      }
    }
  }

  lemma NextTurn(asked: seq<Request>, start: nat, opening: seq<Message>, turns: seq<Turn>, t: Turn)
    requires AllWhole(turns) && AllWhole(turns + [t]) && AskedInTurn(asked, start, opening, turns)
    ensures AskedInTurn(asked, start, opening, turns + [t])
  {
    hide AllWhole, Talk;
    forall k | 0 <= k < |asked| - start
      ensures AskedAt(asked, start, opening, turns + [t], k)
    {
      assert AskedAt(asked, start, opening, turns, k);
      assert (turns + [t])[..k] == turns[..k];
    }
  }

  /** What a final answer amounts to, once stripped: a blocker, exactly if it says so and gives a reason. */
  predicate Concludes(w: WorkerResult, content: string, strip: string -> string) {
    && w.summary == strip(content) && w.summary != ""
    && (w.ending == Blocked <==> |w.summary| >= 9 && w.summary[..9] == "BLOCKED: ")
    && (w.ending == Blocked ==> strip(w.summary[9..]) != "")
    && (w.ending == Submitted ==> !(|w.summary| >= 8 && w.summary[..8] == "BLOCKED:"))
  }

  /** A round: what stood before, the assistant's calls, and the answers to the first `n` of them. */
  predicate Round(messages: seq<Message>, before: seq<Message>, content: string, calls: seq<Call>, n: nat) {
    && n <= |calls| && |messages| == |before| + 1 + n
    && messages[..|before|] == before && messages[|before|] == Asking(content, calls)
    && Replies(messages, |before| + 1, calls[..n])
    && forall i :: |before| < i < |messages| ==> messages[i].calls == []
  }

  lemma RepliesGrow(messages: seq<Message>, at: nat, calls: seq<Call>, m: Message)
    requires Replies(messages, at, calls)
    ensures Replies(messages + [m], at, calls)
  {
    forall i | 0 <= i < |calls|
      ensures ReplyTo(messages + [m], at, calls, i)
    {
      assert ReplyTo(messages, at, calls, i);
      assert (messages + [m])[at + i] == messages[at + i];
    }
  }

  lemma RoundBegins(before: seq<Message>, content: string, calls: seq<Call>)
    ensures Round(before + [Asking(content, calls)], before, content, calls, 0)
  {
  }

  lemma RoundGrows(messages: seq<Message>, before: seq<Message>, content: string, calls: seq<Call>, n: nat, output: string)
    requires Round(messages, before, content, calls, n) && n < |calls|
    ensures Round(messages + [Answer(output, calls[n])], before, content, calls, n + 1)
  {
    var m := Answer(output, calls[n]);
    var more := messages + [m];
    RepliesGrow(messages, |before| + 1, calls[..n], m);
    assert more[..|before|] == messages[..|before|];
    var at, answered := |before| + 1, calls[..n + 1];
    forall i | 0 <= i < |answered|
      ensures ReplyTo(more, at, answered, i)
    {
      if i < n {
        assert ReplyTo(more, at, calls[..n], i);
        assert answered[i] == calls[..n][i];
      }
    }
  }

  /** A whole round keeps every call answered. */
  lemma RoundEnds(messages: seq<Message>, before: seq<Message>, content: string, calls: seq<Call>)
    requires Round(messages, before, content, calls, |calls|) && Answered(before)
    ensures Answered(messages)
  {
    assert calls[..|calls|] == calls;
    forall k | 0 <= k < |messages|
      ensures AnsweredAt(messages, k)
    {
      if k < |before| {
        assert AnsweredAt(before, k);
        assert messages[k] == before[k];
        RepliesLonger(before, messages, k + 1, before[k].calls);
      }
    }
  }

  lemma RepliesLonger(front: seq<Message>, messages: seq<Message>, at: nat, calls: seq<Call>)
    requires |front| <= |messages| && messages[..|front|] == front && Replies(front, at, calls)
    ensures Replies(messages, at, calls)
  {
    forall i | 0 <= i < |calls|
      ensures ReplyTo(messages, at, calls, i)
    {
      assert ReplyTo(front, at, calls, i);
      assert messages[at + i] == front[at + i];
    }
  }

  // ----- ids seen -----

  function Elements(ids: seq<string>): set<string> {
    set id | id in ids
  }

  predicate Unseen(seen: set<string>, calls: seq<Call>) {
    forall k :: 0 <= k < |calls| ==> calls[k].id !in seen
  }

  lemma DistinctAppend(ids: seq<string>, calls: seq<Call>)
    requires Distinct(ids) && Distinct(CallIds(calls)) && Unseen(Elements(ids), calls)
    ensures Distinct(ids + CallIds(calls))
  {
    var all := ids + CallIds(calls);
    forall i, j | 0 <= i < j < |all|
      ensures all[i] != all[j]
    {
      if i < |ids| <= j {
        assert ids[i] in Elements(ids);
        assert calls[j - |ids|].id !in Elements(ids);
      } else if i >= |ids| {
        assert CallIds(calls)[i - |ids|] != CallIds(calls)[j - |ids|];
      }
    }
  }

  /** The loop's own check of a response: well-formed calls to allowed tools, no id seen before. */
  method ValidResponse(lib: Library, allowed: seq<string>, seen: set<string>, r: Response) returns (ok: bool)
    ensures ok <==> AllPermitted(lib, allowed, r.calls) && Distinct(CallIds(r.calls)) && Unseen(seen, r.calls)
    ensures ok ==> ValidCalls(lib, allowed, r.calls)
  {
    ValidCallsExactly(lib, allowed, r.calls);
    hide ValidCall, Distinct, AllPermitted;
    var ids: seq<string> := [];
    NoIds();
    for k := 0 to |r.calls|
      invariant ids == CallIds(r.calls[..k]) && Distinct(ids)
      invariant ValidCalls(lib, allowed, r.calls[..k]) && Unseen(seen, r.calls[..k])
    {
      var call := r.calls[k];
      if !ValidCall(lib, allowed, call) || call.id in seen {
        return false;
      }
      assert CallIds(r.calls[..k + 1]) == ids + [call.id];
      DistinctSnoc(ids, call.id);
      if call.id in ids {
        assert CallIds(r.calls) == (ids + [call.id]) + CallIds(r.calls[k + 1..]);
        NotDistinct(ids + [call.id], CallIds(r.calls[k + 1..]));
        return false;
      }
      ids := ids + [call.id];
    }
    assert r.calls[..|r.calls|] == r.calls;
    return true;
  }

  // ----- the loop -----

  /** What every request's messages are: a transcript in which every call is answered. */
  predicate Conversation(p: Policy, messages: seq<Message>) {
    && Transcript(p.lib, p.tools, p.limits.maxCallsPerResponse, messages)
    && Answered(messages)
  }

  lemma Opening(p: Policy, system: string, user: string)
    ensures Conversation(p, Prompts(system, user)) && |Prompts(system, user)| == 2
    ensures Ids(Prompts(system, user)) == [] && AllCalls(Prompts(system, user)) == []
  {
    var a, b := Message("system", system, [], None), Message("user", user, [], None);
    hide Answered, AllCalls, Transcript, MessageFits, Ids;
    EmptyConversation(p);
    Plain(p, [], a);
    assert [] + [a] == [a] && [a] + [b] == [a, b];
    Plain(p, [a], b);
  }

  lemma EmptyConversation(p: Policy)
    ensures Conversation(p, []) && Ids([]) == [] && AllCalls([]) == []
  {
  }

  /** A message that makes no calls and answers none continues any conversation. */
  lemma Plain(p: Policy, messages: seq<Message>, m: Message)
    requires Conversation(p, messages) && m.role in {"system", "user"} && m.calls == [] && m.answers.None?
    ensures Conversation(p, messages + [m])
    ensures Ids(messages + [m]) == Ids(messages) && AllCalls(messages + [m]) == AllCalls(messages)
  {
    hide Ids, AllCalls, Distinct, Transcript;
    IdsSnoc(messages, m);
    AllCallsSnoc(messages, m);
    assert Ids(messages) + CallIds(m.calls) == Ids(messages);
    assert AllCalls(messages) + m.calls == AllCalls(messages);
    TranscriptDistinct(p, messages);
    TranscriptSnoc(p.lib, p.tools, p.limits.maxCallsPerResponse, messages, m);
    AnsweredSnoc(messages, m);
  }

  lemma TranscriptDistinct(p: Policy, messages: seq<Message>)
    requires Transcript(p.lib, p.tools, p.limits.maxCallsPerResponse, messages)
    ensures Distinct(Ids(messages))
  {
  }

  lemma AnsweredSnoc(messages: seq<Message>, m: Message)
    requires Answered(messages) && m.calls == []
    ensures Answered(messages + [m])
  {
    forall k | 0 <= k < |messages + [m]|
      ensures AnsweredAt(messages + [m], k)
    {
      if k < |messages| {
        assert AnsweredAt(messages, k);
        assert (messages + [m])[k] == messages[k];
        RepliesGrow(messages, k + 1, messages[k].calls, m);
      }
    }
  }

  /** Calls as they come out of the gateway continue a conversation that has not seen their ids. */
  lemma AskingFits(p: Policy, messages: seq<Message>, r: Response)
    requires Transcript(p.lib, p.tools, p.limits.maxCallsPerResponse, messages)
    requires FineResponse(p.lib, p.tools, p.limits, r) && Unseen(Elements(Ids(messages)), r.calls)
    ensures Transcript(p.lib, p.tools, p.limits.maxCallsPerResponse, messages + [Asking(r.content, r.calls)])
    ensures Ids(messages + [Asking(r.content, r.calls)]) == Ids(messages) + CallIds(r.calls)
  {
    hide Ids, Distinct, Transcript, ValidCalls, Unseen;
    TranscriptDistinct(p, messages);
    DistinctAppend(Ids(messages), r.calls);
    IdsSnoc(messages, Asking(r.content, r.calls));
    TranscriptSnoc(p.lib, p.tools, p.limits.maxCallsPerResponse, messages, Asking(r.content, r.calls));
  }

  /** So does an answer to a call that was made. */
  lemma AnswerFits(p: Policy, messages: seq<Message>, call: Call, output: string)
    requires Transcript(p.lib, p.tools, p.limits.maxCallsPerResponse, messages) && call.id in Ids(messages)
    ensures Transcript(p.lib, p.tools, p.limits.maxCallsPerResponse, messages + [Answer(output, call)])
    ensures Ids(messages + [Answer(output, call)]) == Ids(messages)
  {
    hide Ids, Distinct, Transcript;
    TranscriptDistinct(p, messages);
    IdsSnoc(messages, Answer(output, call));
    assert Ids(messages) + CallIds([]) == Ids(messages);
    TranscriptSnoc(p.lib, p.tools, p.limits.maxCallsPerResponse, messages, Answer(output, call));
  }

  /** Nothing asked from `start` on is beyond the gateway's rules on messages. */
  predicate AskedSoundly(p: Policy, most: nat, asked: seq<Request>, start: nat) {
    forall k :: start <= k < |asked| ==> SoundlyAsked(p, most, asked[k])
  }

  predicate SoundlyAsked(p: Policy, most: nat, q: Request) {
    0 < |q.messages| <= most && Conversation(p, q.messages)
  }

  lemma AskedSnoc(p: Policy, most: nat, asked: seq<Request>, start: nat, q: Request)
    requires AskedSoundly(p, most, asked, start) && SoundlyAsked(p, most, q)
    ensures AskedSoundly(p, most, asked + [q], start)
  {
    hide SoundlyAsked;
  }

  lemma NoneAsked(p: Policy, most: nat, asked: seq<Request>)
    ensures AskedSoundly(p, most, asked, |asked|)
  {
  }

  /** A round in which the first `j` calls have been answered. */
  ghost predicate Underway(
    p: Policy, before: seq<Message>, r: Response, messages: seq<Message>, results: seq<ToolResult>, errors: nat, j: nat)
  {
    && Transcript(p.lib, p.tools, p.limits.maxCallsPerResponse, messages)
    && Answered(before) && Round(messages, before, r.content, r.calls, j) && |messages| == |before| + 1 + j
    && Ids(messages) == Ids(before) + CallIds(r.calls) && AllCalls(messages) == AllCalls(before) + r.calls
    && Recorded(before, r, messages, results, errors, j)
  }

  lemma UnderwayBegins(p: Policy, before: seq<Message>, r: Response)
    requires Conversation(p, before)
    requires FineResponse(p.lib, p.tools, p.limits, r) && Unseen(Elements(Ids(before)), r.calls)
    ensures Underway(p, before, r, before + [Asking(r.content, r.calls)], [], 0, 0)
  {
    hide Transcript, FineResponse, Ids, AllCalls, Round, Unseen, Answered, Elements, Recorded;
    AskingFits(p, before, r);
    RoundBegins(before, r.content, r.calls);
    RecordedNone(before, r);
    AllCallsSnoc(before, Asking(r.content, r.calls));
  }

  lemma UnderwayNext(
    p: Policy, before: seq<Message>, r: Response, messages: seq<Message>, results: seq<ToolResult>, errors: nat, j: nat,
    one: ToolResult)
    requires Underway(p, before, r, messages, results, errors, j) && j < |r.calls| && one.toolName == r.calls[j].name
    ensures Underway(p, before, r, messages + [Answer(one.output, r.calls[j])], results + [one],
                     errors + (if one.isError then 1 else 0), j + 1)
  {
    hide Transcript, FineResponse, Ids, AllCalls, Round, Unseen, Answered, Elements, Recorded;
    RecordedNext(before, r, messages, results, errors, j, one);
    Called(before, r.calls, j);
    AnswerFits(p, messages, r.calls[j], one.output);
    RoundGrows(messages, before, r.content, r.calls, j, one.output);
    AllCallsSnoc(messages, Answer(one.output, r.calls[j]));
    assert AllCalls(messages) + [] == AllCalls(messages);
  }

  lemma UnderwayEnds(
    p: Policy, before: seq<Message>, r: Response, messages: seq<Message>, results: seq<ToolResult>, errors: nat)
    requires Underway(p, before, r, messages, results, errors, |r.calls|)
    ensures Conversation(p, messages) && |messages| == |before| + 1 + |r.calls|
    ensures Ids(messages) == Ids(before) + CallIds(r.calls) && AllCalls(messages) == AllCalls(before) + r.calls
    ensures Whole(Turn(r, results)) && errors == Faults(results)
    ensures messages == before + [Asking(r.content, r.calls)] + Told(r.calls, results)
  {
    hide Transcript, Ids, AllCalls, Round, Answered, Recorded, Told, Whole, Faults;
    RoundEnds(messages, before, r.content, r.calls);
    RecordedAll(before, r, messages, results, errors);
  }

  class MediatedModelExecutor {
    const gateway: Gateway
    const tools: Tools
    const limits: ExecutorLimits
    /** The JSON printer without the non-numbers, as the loop itself measures arguments. */
    const strict: Json -> Option<nat>

    constructor (gateway: Gateway, tools: Tools, limits: ExecutorLimits, strict: Json -> Option<nat>)
      ensures this.gateway == gateway && this.tools == tools && this.limits == limits
    {
      this.gateway, this.tools, this.limits, this.strict := gateway, tools, limits, strict;
    }

    /** Between any two steps the run may be cancelled or run out of time. */
    method Abort() returns (ending: Option<Ending>)
      ensures ending.Some? ==> ending.value in {Cancelled, TimedOut}
    {
      var cancelled: bool, late: bool := *, *;
      ending := if cancelled then Some(Cancelled) else if late then Some(TimedOut) else None;
    }

    /** Invoke one call, unless the run is over; a result under another name ends it too. */
    method InvokeOne(call: Call) returns (ending: Option<Ending>, result: Option<ToolResult>)
      modifies tools`invoked, tools`returned
      ensures ending.Some? ==> ending.value in {Failed, Cancelled, TimedOut}
      ensures tools.returned == old(tools.returned) + if result.Some? then [result.value] else []
      ensures tools.invoked == old(tools.invoked) + [call] || (ending.Some? && tools.invoked == old(tools.invoked))
      ensures ending.None? ==>
        tools.invoked == old(tools.invoked) + [call] && result.Some? && result.value.toolName == call.name
    {
      result := None;
      ending := Abort();
      if ending.Some? {
        return;
      }
      result := tools.Invoke(call);
      if result.None? {
        return Some(Failed), None;
      }
      ending := Abort();
      if ending.None? && result.value.toolName != call.name {
        ending := Some(Failed);
      }
    }

    /** Invoke the calls of one response, in order, and record the answers; `ending` when the run is over. */
    method InvokeAll(before: seq<Message>, r: Response, ghost p: Policy)
      returns (ending: Option<Ending>, messages: seq<Message>, errors: nat, ghost results: seq<ToolResult>)
      requires p == gateway.policy && Conversation(p, before)
      requires FineResponse(p.lib, p.tools, p.limits, r) && Unseen(Elements(Ids(before)), r.calls)
      modifies tools`invoked, tools`returned
      ensures tools.returned == old(tools.returned) + results
      ensures ending.None? ==> Whole(Turn(r, results)) && errors == Faults(results)
      ensures ending.None? ==> messages == before + [Asking(r.content, r.calls)] + Told(r.calls, results)
      ensures ending.Some? ==> ending.value in {Failed, Cancelled, TimedOut}
      ensures old(tools.invoked) <= tools.invoked <= old(tools.invoked) + r.calls
      ensures ending.None? ==> tools.invoked == old(tools.invoked) + r.calls
      ensures ending.None? ==> Conversation(p, messages) && |messages| == |before| + 1 + |r.calls|
      ensures ending.None? ==> Ids(messages) == Ids(before) + CallIds(r.calls)
      ensures ending.None? ==> AllCalls(messages) == AllCalls(before) + r.calls
      ensures errors <= |r.calls|
    {
      hide Conversation, FineResponse, Ids, AllCalls, Unseen, Elements, Told, Whole, Faults, Underway;
      errors, results := 0, [];
      messages := before + [Asking(r.content, r.calls)];
      UnderwayBegins(p, before, r);
      for j := 0 to |r.calls|
        invariant Underway(p, before, r, messages, results, errors, j)
        invariant tools.invoked == old(tools.invoked) + r.calls[..j]
        invariant tools.returned == old(tools.returned) + results && errors <= j
      {
        var call, result := r.calls[j], None;
        assert r.calls[..j + 1] == r.calls[..j] + [call];
        ghost var earlier := results;
        ending, result := InvokeOne(call);
        results := results + if result.Some? then [result.value] else [];
        if ending.Some? {
          return;
        }
        UnderwayNext(p, before, r, messages, earlier, errors, j, result.value);
        if result.value.isError {
          errors := errors + 1;
        }
        messages := messages + [Answer(result.value.output, call)];
      }
      assert r.calls[..|r.calls|] == r.calls;
      UnderwayEnds(p, before, r, messages, results, errors);
      ending := None;
    }

    /** What a run may do with its tools: so many calls, all permitted, and no id twice. */
    ghost predicate CallsKept(first: seq<Call>)
      reads tools`invoked
    {
      && first <= tools.invoked && |tools.invoked| - |first| <= limits.maxToolCalls
      && Distinct(CallIds(tools.invoked[|first|..])) && AllPermitted(Strict(), tools.names, tools.invoked[|first|..])
    }

    lemma AllKept(first: seq<Call>, calls: seq<Call>)
      requires tools.invoked == first + calls && |calls| <= limits.maxToolCalls
      requires Distinct(CallIds(calls)) && AllPermitted(Strict(), tools.names, calls)
      ensures CallsKept(first)
    {
      hide Distinct, AllPermitted;
      assert tools.invoked[|first|..] == calls;
    }

    /** The library as the loop itself measures arguments. */
    function Strict(): Library {
      gateway.policy.lib.(dumps := strict)
    }

    /** The gateway leaves room for all the turns and calls of this loop. */
    predicate FitsGateway()
      reads gateway`requests
    {
      && gateway.requests + limits.maxTurns <= gateway.policy.limits.maxRequests
      && 1 + limits.maxTurns + limits.maxToolCalls <= gateway.policy.limits.maxMessages
    }

    /**
     Run the loop.  A run that the gateway stops is stopped for its time, its policy, a size or the
     model's answer, never for the number or shape of the messages.
     */
    method Execute(job: string, profile: string, system: string, user: string)
      returns (r: Result<WorkerResult, Refusal>, ghost turns: seq<Turn>)
      modifies gateway, tools`invoked, tools`returned
      ensures old(gateway.asked) <= gateway.asked
      ensures AskedSoundly(gateway.policy, 1 + limits.maxTurns + limits.maxToolCalls, gateway.asked, old(|gateway.asked|))
      ensures |gateway.asked| - old(|gateway.asked|) <= limits.maxTurns
      ensures CallsKept(old(tools.invoked))
      ensures r.Err? && old(FitsGateway()) ==> r.error in OUTSIDE_TRANSCRIPT
      ensures Spoken(old(|gateway.asked|), old(gateway.replies), old(tools.returned), Prompts(system, user), turns)
      ensures r.Ok? && r.value.ending in {Submitted, Blocked} ==>
        && gateway.asked != old(gateway.asked)
        && r.value.turns == |gateway.asked| - old(|gateway.asked|) == |turns| + 1
        && r.value.toolCalls == |tools.invoked| - old(|tools.invoked|)
        && r.value.toolErrors == Faults(AllResults(turns)) <= r.value.toolCalls
        && tools.invoked == old(tools.invoked) + AllCalls(gateway.asked[|gateway.asked| - 1].messages)
        && Ended(old(gateway.replies) + AllReplies(turns), r.value)
    {
      hide Conversation, FineResponse, Ids, AllCalls, Unseen, Elements, Distinct, AskedSoundly, Sound, AllPermitted, CallsKept,
           Talk, AskedInTurn, Prompts, ValidCalls, AllWhole, AllResults, AllReplies, Faults, Told, Whole, Conclude, Ended, Spoken, UpTo;
      var p := gateway.policy;
      ghost var most := 1 + limits.maxTurns + limits.maxToolCalls;
      NoneAsked(p, most, gateway.asked);
      var lib := Strict();
      var messages := Prompts(system, user);
      Opening(p, system, user);
      NoneSeen();
      NonePermitted(lib, tools.names);
      turns := [];
      NoTurns();
      ghost var start, heard, given := |gateway.asked|, gateway.replies, tools.returned;
      Untold(messages);
      var used: nat, errors: nat, seen: set<string> := 0, 0, {};
      for turn := 1 to limits.maxTurns + 1
        invariant Conversation(p, messages) && 2 <= |messages| <= 1 + turn + used && used <= limits.maxToolCalls
        invariant seen == Elements(Ids(messages)) && used == |AllCalls(messages)| && errors <= used
        invariant old(gateway.asked) <= gateway.asked && AskedSoundly(p, most, gateway.asked, old(|gateway.asked|))
        invariant |gateway.asked| - old(|gateway.asked|) == turn - 1 == |turns|
        invariant gateway.requests <= old(gateway.requests) + turn - 1
        invariant tools.invoked == old(tools.invoked) + AllCalls(messages)
        invariant AllPermitted(Strict(), tools.names, AllCalls(messages))
        invariant UpTo(start, heard, given, Prompts(system, user), turns, messages) && errors == Faults(AllResults(turns))
      {
        CallsDistinct(p, messages);
        AllKept(old(tools.invoked), AllCalls(messages));
        SoFar(start, heard, given, Prompts(system, user), turns, messages);
        var ending := Abort();
        if ending.Some? {
          return Ok(WorkerResult(ending.value, "", turn, used, errors)), turns;
        }
        var request := Request(job, profile, messages, tools.names);
        SoundWhenConversing(p, request);
        AskedSnoc(p, most, gateway.asked, old(|gateway.asked|), request);
        var reply := AskModel(request, start, heard, given, Prompts(system, user), turns);
        if reply.Err? {
          return Err(reply.error), turns;
        }
        var response := reply.value;
        ending := Abort();
        if ending.Some? {
          return Ok(WorkerResult(ending.value, "", turn, used, errors)), turns;
        }
        var valid := ValidResponse(lib, tools.names, seen, response);
        if !valid || (response.calls != [] && used + |response.calls| > limits.maxToolCalls) {
          return Ok(WorkerResult(Failed, "", turn, used, errors)), turns;
        }
        if response.calls == [] {
          ConcludeEnds(heard + AllReplies(turns), response, turn, used, errors);
          return Ok(Conclude(response.content, turn, used, errors)), turns;
        }
        var failed;
        ElementsOfBoth(Ids(messages), CallIds(response.calls));
        ending, messages, failed, turns :=
          TakeTurn(messages, response, p, start, heard, given, Prompts(system, user), turns, old(tools.invoked));
        if ending.Some? {
          return Ok(WorkerResult(ending.value, "", turn, used, errors)), turns;
        }
        used, errors, seen := used + |response.calls|, errors + failed, seen + Elements(CallIds(response.calls));
      }
      CallsDistinct(p, messages);
      AllKept(old(tools.invoked), AllCalls(messages));
      SoFar(start, heard, given, Prompts(system, user), turns, messages);
      return Ok(WorkerResult(Failed, "", limits.maxTurns, used, errors)), turns;
    }

    /**
     Every request is the conversation as it stood then: the prompts and, for each turn, the model's own
     reply with what the tools returned for its calls.
     */
    ghost predicate Spoken(
      start: nat, heard: seq<Response>, given: seq<ToolResult>, opening: seq<Message>, turns: seq<Turn>)
      reads gateway`asked, gateway`replies, tools`returned
    {
      && AllWhole(turns) && AskedInTurn(gateway.asked, start, opening, turns)
      && given + AllResults(turns) <= tools.returned && heard + AllReplies(turns) <= gateway.replies
    }

    /** And between two turns that is all. */
    ghost predicate UpTo(
      start: nat, heard: seq<Response>, given: seq<ToolResult>, opening: seq<Message>, turns: seq<Turn>,
      messages: seq<Message>)
      reads gateway`asked, gateway`replies, tools`returned
    {
      && AllWhole(turns) && AskedInTurn(gateway.asked, start, opening, turns) && |gateway.asked| == start + |turns|
      && given + AllResults(turns) == tools.returned && heard + AllReplies(turns) == gateway.replies
      && messages == Talk(opening, turns)
    }

    lemma SoFar(start: nat, heard: seq<Response>, given: seq<ToolResult>, opening: seq<Message>, turns: seq<Turn>,
                messages: seq<Message>)
      requires UpTo(start, heard, given, opening, turns, messages)
      ensures Spoken(start, heard, given, opening, turns)
    {
      hide AskedInTurn, AllWhole, AllResults, AllReplies, Talk;
    }

    lemma Untold(opening: seq<Message>)
      ensures UpTo(|gateway.asked|, gateway.replies, tools.returned, opening, [], opening)
    {
    }

    method AskModel(
      request: Request, ghost start: nat, ghost heard: seq<Response>, ghost given: seq<ToolResult>,
      ghost opening: seq<Message>, ghost turns: seq<Turn>)
      returns (r: Result<Response, Refusal>)
      requires UpTo(start, heard, given, opening, turns, request.messages)
      modifies gateway
      ensures Spoken(start, heard, given, opening, turns)
      ensures gateway.asked == old(gateway.asked) + [request]
      ensures AllWhole(turns) && AskedInTurn(gateway.asked, start, opening, turns) && request.messages == Talk(opening, turns)
      ensures |gateway.asked| == start + |turns| + 1
      ensures r.Ok? ==> gateway.replies == heard + AllReplies(turns) + [r.value]
      ensures tools.returned == given + AllResults(turns)
      ensures gateway.requests <= old(gateway.requests) + 1
      ensures r.Ok? ==> FineResponse(gateway.policy.lib, gateway.policy.tools, gateway.policy.limits, r.value)
      ensures r.Err? && Sound(gateway.policy, request) && old(gateway.requests) < gateway.policy.limits.maxRequests ==>
        r.error in OUTSIDE_TRANSCRIPT
    {
      hide AskedInTurn, AllWhole, AllResults, AllReplies, Talk, Sound, FineResponse;
      NextAsked(gateway.asked, start, opening, turns, request);
      r := gateway.Infer(request);
    }

    /** Invoke a response's calls and add the round to the conversation. */
    method TakeTurn(
      before: seq<Message>, r: Response, ghost p: Policy, ghost start: nat, ghost heard: seq<Response>,
      ghost given: seq<ToolResult>, ghost opening: seq<Message>, ghost turns: seq<Turn>, ghost first: seq<Call>)
      returns (ending: Option<Ending>, messages: seq<Message>, errors: nat, ghost more: seq<Turn>)
      requires p == gateway.policy && Conversation(p, before)
      requires FineResponse(p.lib, p.tools, p.limits, r) && Unseen(Elements(Ids(before)), r.calls)
      requires tools.invoked == first + AllCalls(before) && |AllCalls(before)| + |r.calls| <= limits.maxToolCalls
      requires AllPermitted(Strict(), tools.names, AllCalls(before)) && AllPermitted(Strict(), tools.names, r.calls)
      requires AllWhole(turns) && AskedInTurn(gateway.asked, start, opening, turns) && before == Talk(opening, turns)
      requires |gateway.asked| == start + |turns| + 1 && gateway.replies == heard + AllReplies(turns) + [r]
      requires tools.returned == given + AllResults(turns)
      modifies tools`invoked, tools`returned
      ensures CallsKept(first)
      ensures ending.None? ==> AllPermitted(Strict(), tools.names, AllCalls(messages))
      ensures ending.Some? ==>
        ending.value in {Failed, Cancelled, TimedOut} && more == turns && Spoken(start, heard, given, opening, more)
      ensures ending.None? ==>
        && Conversation(p, messages) && |messages| == |before| + 1 + |r.calls|
        && Ids(messages) == Ids(before) + CallIds(r.calls) && AllCalls(messages) == AllCalls(before) + r.calls
        && tools.invoked == first + AllCalls(messages)
        && |more| == |turns| + 1 && UpTo(start, heard, given, opening, more, messages)
        && Faults(AllResults(more)) == Faults(AllResults(turns)) + errors && errors <= |r.calls|
    {
      hide Conversation, FineResponse, Ids, AllCalls, Unseen, Elements, Distinct, AllPermitted, AllWhole, AskedInTurn, AllResults,
           AllReplies, Faults, Told, Whole, Spoken, UpTo, Talk;
      InvokedDistinct(p, before, r);
      ghost var results;
      ending, messages, errors, results := InvokeAll(before, r, p);
      PartlyInvoked(first, AllCalls(before), r.calls, tools.invoked);
      PartlyPermitted(Strict(), tools.names, first, AllCalls(before), r.calls, tools.invoked);
      StillSpoken(start, heard, given, opening, turns, r, results);
      more := turns;
      if ending.None? {
        more := TurnOver(start, heard, given, opening, turns, before, Turn(r, results), messages);
        assert first + AllCalls(before) + r.calls == first + AllCalls(messages);
      }
    }

    lemma TurnOver(
      start: nat, heard: seq<Response>, given: seq<ToolResult>, opening: seq<Message>, turns: seq<Turn>,
      before: seq<Message>, t: Turn, messages: seq<Message>) returns (more: seq<Turn>)
      requires AllWhole(turns) && AskedInTurn(gateway.asked, start, opening, turns) && Whole(t)
      requires |gateway.asked| == start + |turns| + 1 && before == Talk(opening, turns)
      requires gateway.replies == heard + AllReplies(turns) + [t.reply]
      requires tools.returned == given + AllResults(turns) + t.results
      requires messages == before + [Asking(t.reply.content, t.reply.calls)] + Told(t.reply.calls, t.results)
      ensures more == turns + [t] && UpTo(start, heard, given, opening, more, messages)
      ensures Faults(AllResults(more)) == Faults(AllResults(turns)) + Faults(t.results)
    {
      hide *;
      more := TurnTaken(gateway.asked, start, opening, turns, t);
      Reaches(start, heard, given, opening, more, messages,
              given + AllResults(turns), t.results, heard + AllReplies(turns), t.reply, turns);
    }

    lemma Reaches(start: nat, heard: seq<Response>, given: seq<ToolResult>, opening: seq<Message>, turns: seq<Turn>,
                  messages: seq<Message>, results: seq<ToolResult>, more: seq<ToolResult>, replies: seq<Response>,
                  last: Response, earlier: seq<Turn>)
      requires AllWhole(turns) && AskedInTurn(gateway.asked, start, opening, turns) && messages == Talk(opening, turns)
      requires |gateway.asked| == start + |turns|
      requires tools.returned == results + more && results == given + AllResults(earlier)
      requires AllResults(turns) == AllResults(earlier) + more
      requires gateway.replies == replies + [last] && replies == heard + AllReplies(earlier)
      requires AllReplies(turns) == AllReplies(earlier) + [last]
      ensures UpTo(start, heard, given, opening, turns, messages)
    {
      hide AllWhole, AskedInTurn, Talk, AllResults, AllReplies;
      assert given + (AllResults(earlier) + more) == results + more;
      assert heard + (AllReplies(earlier) + [last]) == replies + [last];
    }

    lemma StillSpoken(start: nat, heard: seq<Response>, given: seq<ToolResult>, opening: seq<Message>, turns: seq<Turn>,
                      last: Response, results: seq<ToolResult>)
      requires AllWhole(turns) && AskedInTurn(gateway.asked, start, opening, turns)
      requires gateway.replies == heard + AllReplies(turns) + [last] && tools.returned == given + AllResults(turns) + results
      ensures Spoken(start, heard, given, opening, turns)
    {
      hide AllWhole, AskedInTurn, AllResults, AllReplies;
    }

    /** The run ended with one more reply, which made no calls, and with what that amounts to. */
    ghost predicate Ended(before: seq<Response>, w: WorkerResult)
      reads gateway
    {
      && |gateway.replies| == |before| + 1 && before <= gateway.replies
      && var last := gateway.replies[|before|];
        last.calls == [] && Concludes(w, last.content, gateway.policy.lib.strip)
    }

    lemma ConcludeEnds(before: seq<Response>, last: Response, turns: nat, calls: nat, errors: nat)
      requires gateway.replies == before + [last] && last.calls == []
      ensures var w := Conclude(last.content, turns, calls, errors);
        w.ending in {Submitted, Blocked, Failed} && (w.ending != Failed ==> Ended(before, w))
    {
      var summary := gateway.policy.lib.strip(last.content);
      if |summary| >= 9 {
        assert summary[..9][..8] == summary[..8] && summary[..9][8] == summary[8];
        assert summary[..9] == summary[..8] + [summary[8]];
      }
    }

    /** What a response without calls amounts to. */
    function Conclude(content: string, turns: nat, calls: nat, errors: nat): (w: WorkerResult)
      ensures w.turns == turns && w.toolCalls == calls && w.toolErrors == errors
      ensures w.ending != Failed ==> Concludes(w, content, gateway.policy.lib.strip)
      ensures var strip := gateway.policy.lib.strip;
        w.ending == Failed <==>
          || strip(content) == "" || gateway.policy.lib.utf8(strip(content)) > limits.maxSummaryBytes
          || ("BLOCKED:" <= strip(content) && !("BLOCKED: " <= strip(content) && strip(strip(content)[9..]) != ""))
    {
      var lib := gateway.policy.lib;
      var summary := lib.strip(content);
      var blocked := |summary| >= 8 && summary[..8] == "BLOCKED:";
      if summary == "" || lib.utf8(summary) > limits.maxSummaryBytes then WorkerResult(Failed, "", turns, calls, errors)
      else if blocked && !(|summary| >= 9 && summary[8] == ' ' && lib.strip(summary[9..]) != "") then
        WorkerResult(Failed, "", turns, calls, errors)
      else WorkerResult(if blocked then Blocked else Submitted, summary, turns, calls, errors)
    }
  }

  /** The limits both sides come with leave room: a fresh session is never refused for its transcript. */
  lemma DefaultsFit(executor: MediatedModelExecutor)
    requires executor.limits == DEFAULT_EXECUTOR_LIMITS
    requires executor.gateway.policy.limits == DEFAULT_LIMITS && executor.gateway.requests == 0
    ensures executor.FitsGateway()
  {
  }

  lemma ElementsOfBoth(a: seq<string>, b: seq<string>)
    ensures Elements(a + b) == Elements(a) + Elements(b)
  {
  }

  lemma NonePermitted(lib: Library, allowed: seq<string>)
    ensures AllPermitted(lib, allowed, [])
  {
  }

  lemma PartlyPermitted(lib: Library, allowed: seq<string>, start: seq<Call>, calls: seq<Call>, more: seq<Call>,
                        invoked: seq<Call>)
    requires start + calls <= invoked <= start + calls + more
    requires AllPermitted(lib, allowed, calls) && AllPermitted(lib, allowed, more)
    ensures AllPermitted(lib, allowed, invoked[|start|..]) && AllPermitted(lib, allowed, calls + more)
  {
    hide Permitted;
    forall k | 0 <= k < |invoked[|start|..]|
      ensures Permitted(lib, allowed, invoked[|start|..][k])
    {
      assert invoked[|start|..][k] == (start + calls + more)[|start| + k];
    }
  }

  lemma NoneSeen()
    ensures Elements([]) == {}
  {
  }

  lemma SoundWhenConversing(p: Policy, q: Request)
    requires Conversation(p, q.messages) && q.messages != []
    ensures |q.messages| <= p.limits.maxMessages ==> Sound(p, q)
  {
    hide Transcript;
  }

  /** The ids of a transcript are those of its calls. */
  lemma {:induction false} IdsOfCalls(messages: seq<Message>)
    ensures Ids(messages) == CallIds(AllCalls(messages))
    decreases |messages|
  {
    if messages != [] {
      IdsOfCalls(messages[..|messages| - 1]);
    }
  }

  lemma CallsDistinct(p: Policy, messages: seq<Message>)
    requires Conversation(p, messages)
    ensures Distinct(CallIds(AllCalls(messages)))
  {
    hide Ids, AllCalls, Distinct;
    TranscriptDistinct(p, messages);
    IdsOfCalls(messages);
  }

  /** However many of a response's calls are invoked, no id is invoked twice. */
  lemma InvokedDistinct(p: Policy, messages: seq<Message>, r: Response)
    requires Conversation(p, messages)
    requires FineResponse(p.lib, p.tools, p.limits, r) && Unseen(Elements(Ids(messages)), r.calls)
    ensures Distinct(CallIds(AllCalls(messages) + r.calls))
  {
    hide Ids, AllCalls, Distinct, Transcript, Unseen, Elements, ValidCalls, Answered;
    AskingFits(p, messages, r);
    var more := messages + [Asking(r.content, r.calls)];
    TranscriptDistinct(p, more);
    IdsOfCalls(more);
    AllCallsSnoc(messages, Asking(r.content, r.calls));
  }

  lemma PartlyInvoked(start: seq<Call>, calls: seq<Call>, more: seq<Call>, invoked: seq<Call>)
    requires start + calls <= invoked <= start + calls + more && Distinct(CallIds(calls + more))
    ensures Distinct(CallIds(invoked[|start|..])) && |invoked| - |start| <= |calls| + |more|
  {
    hide Distinct;
    var now := invoked[|start|..];
    assert now == (start + calls + more)[..|invoked|][|start|..];
    assert now == (calls + more)[..|now|];
    var rest := (calls + more)[|now|..];
    assert CallIds(calls + more) == CallIds(now) + CallIds(rest);
    DistinctPrefix(CallIds(now), CallIds(rest));
  }

  lemma Called(before: seq<Message>, calls: seq<Call>, j: nat)
    requires j < |calls|
    ensures calls[j].id in Ids(before) + CallIds(calls)
  {
    assert (Ids(before) + CallIds(calls))[|Ids(before)| + j] == calls[j].id;
  }
}
