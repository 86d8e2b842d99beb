/**
 The gateway between a worker's model loop and the model: it checks the whole transcript of every
 request, and every response.
 */
module InferenceGateway {
  import opened Wrappers
  import opened JsonBounds

  const MAX_ARGUMENT_BYTES: nat := 256 * 1024

  datatype Call = Call(id: string, name: string, arguments: Json)

  datatype Message = Message(role: string, content: string, calls: seq<Call>, answers: Option<string>)

  datatype Request = Request(job: string, profile: string, messages: seq<Message>, tools: seq<string>)

  datatype Response = Response(content: string, calls: seq<Call>)

  datatype Limits =
    Limits(maxRequests: nat, maxMessages: nat, maxInputBytes: nat, maxOutputBytes: nat, maxCallsPerResponse: nat)

  const DEFAULT_LIMITS := Limits(32, 96, 512 * 1024, 128 * 1024, 8)

  /**
   The library's view of text and arguments: the length of a text in bytes, a text without the blanks
   around it, and the length of printed arguments, if they can be printed.
   */
  datatype Library = Library(utf8: string -> nat, strip: string -> string, dumps: Json -> Option<nat>)

  datatype Refusal =
    | Expired | WrongJob | WrongProfile | RequestLimit | MessageCount | ToolsMismatch | SchemaBytes | BadRole
    | CallCount | BadCall | DuplicateCall | StrayCalls | UnmatchedResult | StrayId | InputBytes
    | ModelFailure | ResponseCalls | OutputBytes | EmptyResponse

  // ----- what a transcript must be -----

  predicate IsCallChar(c: char, first: bool) {
    || 'a' <= c <= 'z' || 'A' <= c <= 'Z' || '0' <= c <= '9'
    || (!first && c in {'.', '_', ':', '-'})
  }

  predicate IsCallId(s: string) {
    1 <= |s| <= 128 && forall k :: 0 <= k < |s| ==> IsCallChar(s[k], k == 0)
  }

  predicate ValidCall(lib: Library, allowed: seq<string>, c: Call) {
    && IsCallId(c.id) && c.name in allowed && c.arguments.Dict?
    && lib.dumps(c.arguments).Some? && lib.dumps(c.arguments).value <= MAX_ARGUMENT_BYTES
  }

  predicate AlphaNumeric(c: char) {
    ('a' <= c <= 'z') || ('A' <= c <= 'Z') || ('0' <= c <= '9')
  }

  /** A call to an allowed tool, with an object of bounded size and an id of plain characters. */
  predicate Permitted(lib: Library, allowed: seq<string>, c: Call) {
    && c.name in allowed && c.arguments.Dict?
    && lib.dumps(c.arguments).Some? && lib.dumps(c.arguments).value <= 262144
    && c.id != "" && |c.id| <= 128 && AlphaNumeric(c.id[0])
    && forall k :: 0 <= k < |c.id| ==>
      AlphaNumeric(c.id[k]) || c.id[k] == '.' || c.id[k] == '_' || c.id[k] == ':' || c.id[k] == '-'
  }

  predicate AllPermitted(lib: Library, allowed: seq<string>, calls: seq<Call>) {
    forall k :: 0 <= k < |calls| ==> Permitted(lib, allowed, calls[k])
  }

  lemma ValidCallsExactly(lib: Library, allowed: seq<string>, calls: seq<Call>)
    ensures ValidCalls(lib, allowed, calls) <==> AllPermitted(lib, allowed, calls)
  {
    forall k | 0 <= k < |calls|
      ensures ValidCall(lib, allowed, calls[k]) <==> Permitted(lib, allowed, calls[k])
    {
      ValidCallExactly(lib, allowed, calls[k]);
    }
    hide ValidCall, Permitted;
  }

  lemma ValidCallExactly(lib: Library, allowed: seq<string>, c: Call)
    ensures ValidCall(lib, allowed, c) <==> Permitted(lib, allowed, c)
  {
  }

  function CallIds(calls: seq<Call>): (ids: seq<string>)
    ensures |ids| == |calls|
  {
    seq(|calls|, k requires 0 <= k < |calls| => calls[k].id)
  }

  /** The ids of every call in a transcript, in order. */
  function Ids(messages: seq<Message>): seq<string> {
    if messages == [] then [] else Ids(messages[..|messages| - 1]) + CallIds(messages[|messages| - 1].calls)
  }

  predicate Distinct(ids: seq<string>) {
    forall i, j :: 0 <= i < j < |ids| ==> ids[i] != ids[j]
  }

  predicate ValidCalls(lib: Library, allowed: seq<string>, calls: seq<Call>) {
    forall k :: 0 <= k < |calls| ==> ValidCall(lib, allowed, calls[k])
  }

  /** A message in its place: only an assistant calls, only a tool answers, and only an earlier call. */
  predicate MessageFits(lib: Library, allowed: seq<string>, maxCalls: nat, known: seq<string>, m: Message) {
    && m.role in {"system", "user", "assistant", "tool"}
    && (if m.role == "assistant" then |m.calls| <= maxCalls && ValidCalls(lib, allowed, m.calls) else m.calls == [])
    && (if m.role == "tool" then m.answers.Some? && m.answers.value in known else m.answers.None?)
  }

  predicate MessageFitsAt(lib: Library, allowed: seq<string>, maxCalls: nat, messages: seq<Message>, k: nat)
    requires k < |messages|
  {
    MessageFits(lib, allowed, maxCalls, Ids(messages[..k]), messages[k])
  }

  /** Every message fits, and no call id is used twice. */
  predicate Transcript(lib: Library, allowed: seq<string>, maxCalls: nat, messages: seq<Message>) {
    && Distinct(Ids(messages))
    && forall k :: 0 <= k < |messages| ==> MessageFitsAt(lib, allowed, maxCalls, messages, k)
  }

  lemma IdsSnoc(messages: seq<Message>, m: Message)
    ensures Ids(messages + [m]) == Ids(messages) + CallIds(m.calls)
  {
    assert (messages + [m])[..|messages|] == messages;
  }

  lemma TranscriptSnoc(lib: Library, allowed: seq<string>, maxCalls: nat, messages: seq<Message>, m: Message)
    requires Transcript(lib, allowed, maxCalls, messages)
    requires MessageFits(lib, allowed, maxCalls, Ids(messages), m) && Distinct(Ids(messages) + CallIds(m.calls))
    ensures Transcript(lib, allowed, maxCalls, messages + [m])
  {
    hide MessageFits, Distinct, Ids;
    IdsSnoc(messages, m);
    var more := messages + [m];
    forall k | 0 <= k < |more|
      ensures MessageFitsAt(lib, allowed, maxCalls, more, k)
    {
      assert more[..k] == messages[..k];
      if k < |messages| {
        assert MessageFitsAt(lib, allowed, maxCalls, messages, k);
      } else {
        assert messages[..k] == messages;
      }
    }
  }

  lemma DistinctSnoc(ids: seq<string>, id: string)
    ensures Distinct(ids + [id]) <==> Distinct(ids) && id !in ids
  {
    var more := ids + [id];
    if Distinct(more) {
      forall i, j | 0 <= i < j < |ids|
        ensures ids[i] != ids[j]
      {
        assert more[i] != more[j];
      }
      forall k | 0 <= k < |ids|
        ensures ids[k] != id
      {
        assert more[k] != more[|ids|];
      }
    }
  }

  lemma DistinctPrefix(front: seq<string>, back: seq<string>)
    requires Distinct(front + back)
    ensures Distinct(front)
  {
    forall i, j | 0 <= i < j < |front|
      ensures front[i] != front[j]
    {
      assert (front + back)[i] != (front + back)[j];
    }
  }

  lemma {:induction false} IdsOfPrefix(messages: seq<Message>, k: nat)
    requires k <= |messages|
    ensures exists back :: Ids(messages) == Ids(messages[..k]) + back
    decreases |messages|
  {
    if k == |messages| {
      assert messages[..k] == messages;
      assert Ids(messages) == Ids(messages[..k]) + [];
    } else {
      var front := messages[..|messages| - 1];
      IdsOfPrefix(front, k);
      assert front[..k] == messages[..k];
      var back :| Ids(front) == Ids(front[..k]) + back;
      assert Ids(messages) == Ids(messages[..k]) + (back + CallIds(messages[|messages| - 1].calls));
    }
  }

  /** An id repeated among the first calls of a transcript is repeated in all of it. */
  lemma RepeatedEarly(messages: seq<Message>, k: nat, j: nat)
    requires k < |messages| && j <= |messages[k].calls|
    requires Distinct(Ids(messages))
    ensures Distinct(Ids(messages[..k]) + CallIds(messages[k].calls[..j]))
  {
    hide Ids, Distinct;
    IdsOfPrefix(messages, k + 1);
    var back :| Ids(messages) == Ids(messages[..k + 1]) + back;
    DistinctPrefix(Ids(messages[..k + 1]), back);
    assert messages[..k + 1] == messages[..k] + [messages[k]];
    IdsSnoc(messages[..k], messages[k]);
    var ids, calls := Ids(messages[..k]), messages[k].calls;
    assert CallIds(calls) == CallIds(calls[..j]) + CallIds(calls[j..]);
    assert ids + CallIds(calls) == (ids + CallIds(calls[..j])) + CallIds(calls[j..]);
    DistinctPrefix(ids + CallIds(calls[..j]), CallIds(calls[j..]));
  }

  /** The bytes a call adds to what is sent, and a transcript's bytes. */
  function CallBytes(lib: Library, c: Call): nat {
    lib.utf8(c.id) + lib.utf8(c.name) + if lib.dumps(c.arguments).Some? then lib.dumps(c.arguments).value else 0
  }

  function CallsBytes(lib: Library, calls: seq<Call>): nat {
    if calls == [] then 0 else CallsBytes(lib, calls[..|calls| - 1]) + CallBytes(lib, calls[|calls| - 1])
  }

  function Bytes(lib: Library, messages: seq<Message>): nat {
    if messages == [] then 0
    else
      var last := messages[|messages| - 1];
      Bytes(lib, messages[..|messages| - 1]) + lib.utf8(last.content) + CallsBytes(lib, last.calls)
  }

  /** What a response must be to leave the gateway. */
  predicate FineResponse(lib: Library, allowed: seq<string>, limits: Limits, r: Response) {
    && |r.calls| <= limits.maxCallsPerResponse && ValidCalls(lib, allowed, r.calls) && Distinct(CallIds(r.calls))
    && lib.utf8(r.content) + CallsBytes(lib, r.calls) <= limits.maxOutputBytes
    && (lib.strip(r.content) != "" || r.calls != [])
  }

  // ----- the checks -----

  /** Check calls one by one against the ids known so far. */
  method CheckCalls(lib: Library, allowed: seq<string>, calls: seq<Call>, known: seq<string>, start: nat)
    returns (why: Option<Refusal>, after: seq<string>, total: nat)
    requires Distinct(known)
    ensures why.None? <==> ValidCalls(lib, allowed, calls) && Distinct(known + CallIds(calls))
    ensures why.None? ==> after == known + CallIds(calls) && total == start + CallsBytes(lib, calls)
    ensures why.Some? ==> why.value in {BadCall, DuplicateCall}
  {
    hide Distinct, ValidCall;
    after, total := known, start;
    assert known + [] == known;
    for k := 0 to |calls|
      invariant after == known + CallIds(calls[..k]) && total == start + CallsBytes(lib, calls[..k])
      invariant ValidCalls(lib, allowed, calls[..k]) && Distinct(after)
    {
      var call := calls[k];
      if !ValidCall(lib, allowed, call) {
        return Some(BadCall), after, total;
      }
      assert calls[..k + 1][..k] == calls[..k];
      assert known + CallIds(calls[..k + 1]) == after + [call.id];
      DistinctSnoc(after, call.id);
      if call.id in after {
        assert CallIds(calls) == CallIds(calls[..k + 1]) + CallIds(calls[k + 1..]);
        assert known + CallIds(calls) == (after + [call.id]) + CallIds(calls[k + 1..]);
        NotDistinct(after + [call.id], CallIds(calls[k + 1..]));
        return Some(DuplicateCall), after, total;
      }
      after := after + [call.id];
      total := total + CallBytes(lib, call);
    }
    assert calls[..|calls|] == calls;
    why := None;
  }

  lemma NotDistinct(front: seq<string>, back: seq<string>)
    requires !Distinct(front)
    ensures !Distinct(front + back)
  {
    if Distinct(front + back) {
      DistinctPrefix(front, back);
    }
  }

  /** The loop over a request's messages: it finds no fault exactly with a transcript short enough. */
  method CheckMessages(lib: Library, allowed: seq<string>, limits: Limits, messages: seq<Message>)
    returns (why: Option<Refusal>)
    ensures why.None? <==>
      Transcript(lib, allowed, limits.maxCallsPerResponse, messages) && Bytes(lib, messages) <= limits.maxInputBytes
    ensures why.Some? && Transcript(lib, allowed, limits.maxCallsPerResponse, messages) ==> why == Some(InputBytes)
    ensures why.Some? ==>
      why.value in {BadRole, CallCount, BadCall, DuplicateCall, StrayCalls, UnmatchedResult, StrayId, InputBytes}
  {
    hide Distinct, ValidCalls, Ids;
    var maxCalls := limits.maxCallsPerResponse;
    var total: nat, known: seq<string> := 0, [];
    NoIds();
    for k := 0 to |messages|
      invariant Transcript(lib, allowed, maxCalls, messages[..k])
      invariant known == Ids(messages[..k]) && total == Bytes(lib, messages[..k])
    {
      var m := messages[k];
      Continue(lib, allowed, maxCalls, messages, k);
      if m.role !in {"system", "user", "assistant", "tool"} {
        return Some(BadRole);
      }
      total := total + lib.utf8(m.content);
      ghost var before := known;
      if m.role == "assistant" {
        if |m.calls| > maxCalls {
          return Some(CallCount);
        }
        why, known, total := CheckCalls(lib, allowed, m.calls, known, total);
        if why.Some? {
          return;
        }
      } else if m.calls != [] {
        return Some(StrayCalls);
      } else {
        assert before + CallIds(m.calls) == before;
      }
      if m.role == "tool" {
        if m.answers.None? || m.answers.value !in known {
          return Some(UnmatchedResult);
        }
      } else if m.answers.Some? {
        return Some(StrayId);
      }
      TranscriptSnoc(lib, allowed, maxCalls, messages[..k], m);
      IdsSnoc(messages[..k], m);
      assert messages[..k + 1] == messages[..k] + [m];
    }
    assert messages[..|messages|] == messages;
    why := if total > limits.maxInputBytes then Some(InputBytes) else None;
  }

  lemma NoIds()
    ensures Ids([]) == [] && Distinct([])
  {
  }

  /** What the message at `k` of a transcript satisfies, given those before it. */
  lemma Continue(lib: Library, allowed: seq<string>, maxCalls: nat, messages: seq<Message>, k: nat)
    requires k < |messages|
    ensures Transcript(lib, allowed, maxCalls, messages) ==>
      && MessageFits(lib, allowed, maxCalls, Ids(messages[..k]), messages[k])
      && Distinct(Ids(messages[..k]) + CallIds(messages[k].calls))
  {
    hide MessageFits, Distinct, Ids;
    if Transcript(lib, allowed, maxCalls, messages) {
      assert MessageFitsAt(lib, allowed, maxCalls, messages, k);
      RepeatedEarly(messages, k, |messages[k].calls|);
      assert messages[k].calls[..|messages[k].calls|] == messages[k].calls;
    }
  }

  // ----- the session -----

  datatype Policy =
    Policy(lib: Library, limits: Limits, job: string, profile: string, tools: seq<string>)

  /** A request against whose shape nothing can be said. */
  predicate Sound(p: Policy, q: Request) {
    && 0 < |q.messages| <= p.limits.maxMessages
    && Transcript(p.lib, p.tools, p.limits.maxCallsPerResponse, q.messages)
  }

  /** What the gateway lets through to the model. */
  predicate Admissible(p: Policy, q: Request) {
    && Sound(p, q) && q.tools == p.tools && Distinct(p.tools)
    && Bytes(p.lib, q.messages) <= p.limits.maxInputBytes
  }

  /** Refusals a caller with a sound transcript can still meet: time, policy, size, or the model itself. */
  const OUTSIDE_TRANSCRIPT: set<Refusal> :=
    {Expired, WrongJob, WrongProfile, ToolsMismatch, SchemaBytes, InputBytes,
     ModelFailure, BadCall, DuplicateCall, ResponseCalls, OutputBytes, EmptyResponse}

  lemma FineCalls(p: Policy, r: Response)
    requires FineResponse(p.lib, p.tools, p.limits, r)
    ensures AllPermitted(p.lib, p.tools, r.calls) && Distinct(CallIds(r.calls))
  {
    ValidCallsExactly(p.lib, p.tools, r.calls);
    hide ValidCalls, Distinct, AllPermitted;
  }

  class Gateway {
    const policy: Policy
    var requests: nat
    /** Everything asked, admissible or not, and what reached the model. */
    ghost var asked: seq<Request>
    ghost var forwarded: seq<Request>
    /** Every response handed back. */
    ghost var replies: seq<Response>

    constructor (policy: Policy)
      ensures this.policy == policy && requests == 0 && asked == [] && forwarded == [] && replies == []
    {
      this.policy := policy;
      requests, asked, forwarded, replies := 0, [], [], [];
    }

    method CheckRequest(q: Request) returns (why: Option<Refusal>)
      ensures why.None? ==> Admissible(policy, q)
      ensures why.Some? ==> !Admissible(policy, q) || why == Some(SchemaBytes)
      ensures why.Some? && Sound(policy, q) ==> why.value in {ToolsMismatch, SchemaBytes, InputBytes}
    {
      hide Transcript, Distinct, Bytes;
      if q.messages == [] || |q.messages| > policy.limits.maxMessages {
        return Some(MessageCount);
      }
      if q.tools != policy.tools || !Distinct(q.tools) {
        return Some(ToolsMismatch);
      }
      var schemasFit: bool := *;
      if !schemasFit {
        return Some(SchemaBytes);
      }
      why := CheckMessages(policy.lib, policy.tools, policy.limits, q.messages);
    }

    method CheckResponse(r: Response) returns (why: Option<Refusal>)
      ensures why.None? <==> FineResponse(policy.lib, policy.tools, policy.limits, r)
      ensures why.Some? ==> why.value in {ResponseCalls, BadCall, DuplicateCall, OutputBytes, EmptyResponse}
    {
      hide ValidCalls, Distinct;
      if |r.calls| > policy.limits.maxCallsPerResponse {
        return Some(ResponseCalls);
      }
      NoIds();
      var ids, total;
      why, ids, total := CheckCalls(policy.lib, policy.tools, r.calls, [], policy.lib.utf8(r.content));
      assert [] + CallIds(r.calls) == CallIds(r.calls);
      if why.Some? {
        return;
      }
      if total > policy.limits.maxOutputBytes {
        return Some(OutputBytes);
      }
      if policy.lib.strip(r.content) == "" && r.calls == [] {
        return Some(EmptyResponse);
      }
    }

    /** One inference: only admissible requests reach the model, and only fine responses come back. */
    method Infer(q: Request) returns (r: Result<Response, Refusal>)
      modifies this
      ensures asked == old(asked) + [q]
      ensures replies == if r.Ok? then old(replies) + [r.value] else old(replies)
      ensures requests == old(requests) + |forwarded| - |old(forwarded)|
      ensures forwarded == old(forwarded) || (forwarded == old(forwarded) + [q] && Admissible(policy, q))
      ensures old(requests) <= policy.limits.maxRequests ==> requests <= policy.limits.maxRequests
      ensures r.Ok? ==> forwarded == old(forwarded) + [q] && FineResponse(policy.lib, policy.tools, policy.limits, r.value)
      ensures r.Ok? ==> AllPermitted(policy.lib, policy.tools, r.value.calls) && Distinct(CallIds(r.value.calls))
      ensures r.Err? && Sound(policy, q) && old(requests) < policy.limits.maxRequests ==> r.error in OUTSIDE_TRANSCRIPT
    {
      hide Sound, FineResponse, Admissible, AllPermitted, Distinct;
      asked := asked + [q];
      var expired: bool := *;
      if expired {
        return Err(Expired);
      }
      if q.job != policy.job {
        return Err(WrongJob);
      }
      if q.profile != policy.profile {
        return Err(WrongProfile);
      }
      if requests >= policy.limits.maxRequests {
        return Err(RequestLimit);
      }
      var why := CheckRequest(q);
      if why.Some? {
        return Err(why.value);
      }
      requests, forwarded := requests + 1, forwarded + [q];
      var failed: bool, response: Response := *, *;
      if failed {
        return Err(ModelFailure);
      }
      why := CheckResponse(response);
      if why.Some? {
        return Err(why.value);
      }
      FineCalls(policy, response);
      replies := replies + [response];
      r := Ok(response);
    }
  }
}
