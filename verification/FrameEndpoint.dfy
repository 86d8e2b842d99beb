/**
 Length-prefixed, sequenced JSON frames over an ordered byte stream.

 The JSON library is a printer and a parser of which only `Faithful` is known: it parses back what it
 printed.  The TLS session below is a byte stream that keeps order and is cut into arbitrary reads and
 writes; the clock, the cancellation flag and the context checks may refuse at any look.
 */
module FrameEndpoint {
  import opened Wrappers
  import opened JsonBounds
  import opened SortedPaths
  import opened Snapshots

  const MAX_MESSAGES: nat := 1024
  const MAX_READ: nat := 16384
  const OPERATION: string := "inspect_image_copy"

  // ----- frames -----

  datatype Role = Controller | Guest {
    function Name(): string { if this == Controller then "controller" else "guest" }
    function Peer(): Role { if this == Controller then Guest else Controller }
  }

  /** What both ends agree on before the session: the JSON library and the attempt. */
  datatype Session = Session(dumps: Json -> string, loads: string -> Option<Json>, attemptId: string, vmId: string)

  ghost predicate Faithful(s: Session) {
    forall v :: Bounded(v) && Proper(v) ==> s.loads(s.dumps(v)) == Some(v)
  }

  const FIELDS: seq<string> := ["attempt_id", "operation", "payload", "sender", "sequence", "version", "vm_id"]

  function Envelope(s: Session, sender: Role, number: nat, payload: Json): Json {
    Dict(FIELDS, [Str(s.attemptId), Str(OPERATION), payload, Str(sender.Name()), Int(number), Int(1), Str(s.vmId)])
  }

  function Body(s: Session, sender: Role, number: nat, payload: Json): string {
    s.dumps(Envelope(s, sender, number, payload))
  }

  /** Four bytes, most significant first. */
  function Prefix(n: nat): (p: string)
    requires n <= MAX_FRAME_BYTES
    ensures |p| == 4
  {
    [(n / 0x100_0000) as char, (n / 0x1_0000 % 256) as char, (n / 256 % 256) as char, (n % 256) as char]
  }

  function Size(p: string): nat
    requires |p| >= 4
  {
    p[0] as nat * 0x100_0000 + p[1] as nat * 0x1_0000 + p[2] as nat * 256 + p[3] as nat
  }

  lemma SizeOfPrefix(n: nat, rest: string)
    requires n <= MAX_FRAME_BYTES
    ensures Size(Prefix(n) + rest) == n
  {
    var p := Prefix(n);
    assert (p + rest)[..4] == p;
    assert n / 0x100_0000 == 0 && n / 0x1_0000 == 0;
  }

  /** A payload that may go out as message `number`. */
  predicate Sendable(s: Session, sender: Role, number: nat, payload: Json) {
    && number < MAX_MESSAGES && payload.Dict?
    && Bounded(Envelope(s, sender, number, payload))
    && 0 < |Body(s, sender, number, payload)| <= MAX_FRAME_BYTES
  }

  predicate Honest(s: Session, sender: Role, queue: seq<Json>) {
    forall k :: 0 <= k < |queue| ==> Sendable(s, sender, k, queue[k]) && Proper(queue[k])
  }

  function Frame(s: Session, sender: Role, number: nat, payload: Json): string
    requires Sendable(s, sender, number, payload)
  {
    Prefix(|Body(s, sender, number, payload)|) + Body(s, sender, number, payload)
  }

  /** The bytes of the queued messages from the `k`-th on. */
  function Stream(s: Session, sender: Role, queue: seq<Json>, k: nat): string
    requires k <= |queue| && Honest(s, sender, queue)
    decreases |queue| - k
  {
    if k == |queue| then "" else Frame(s, sender, k, queue[k]) + Stream(s, sender, queue, k + 1)
  }

  /** Queueing one more message appends its frame. */
  lemma {:induction false} StreamGrows(s: Session, sender: Role, queue: seq<Json>, payload: Json, k: nat)
    requires k <= |queue| && Honest(s, sender, queue)
    requires Sendable(s, sender, |queue|, payload) && Proper(payload)
    ensures Honest(s, sender, queue + [payload])
    ensures Stream(s, sender, queue + [payload], k)
         == Stream(s, sender, queue, k) + Frame(s, sender, |queue|, payload)
    decreases |queue| - k
  {
    hide Sendable, Proper, Frame;
    var more := queue + [payload];
    if k == |queue| {
      assert Stream(s, sender, more, k + 1) == "";
      assert more[k] == payload;
    } else {
      StreamGrows(s, sender, queue, payload, k + 1);
      assert more[k] == queue[k];
    }
  }

  // ----- reading one frame -----

  datatype Failure =
    | BudgetCheck | Cancelled | Deadline | Configuration | CipherBuffer | PeerIdentity | TlsFailure
    | NotAuthenticated | WriteBusy | MessageLimit | FrameValue | FrameSize | FrameBinding | FrameSequence
    | TruncatedFrame | ChannelClosed | ClosedHere

  /** Refusals that the surroundings bring about at any look. */
  const ENVIRONMENTAL: set<Failure> := {BudgetCheck, Cancelled, Deadline, Configuration, CipherBuffer}

  /** Refusals of a frame for what it says. */
  const FRAME_FAULTS: set<Failure> := {FrameSize, FrameValue, FrameBinding, FrameSequence}

  datatype Verdict = Waiting | Refused(why: Failure) | Delivered(payload: Json, rest: string)

  predicate Binds(s: Session, sender: Role, v: Json) {
    && v.Dict? && v.keys == FIELDS && |v.values| == 7
    && v.values[5] == Int(1) && v.values[0] == Str(s.attemptId) && v.values[6] == Str(s.vmId)
    && v.values[1] == Str(OPERATION) && v.values[3] == Str(sender.Name()) && v.values[2].Dict?
  }

  /** What the buffered bytes amount to when message `number` of `sender` is due. */
  function Examine(s: Session, sender: Role, number: nat, plain: string): Verdict {
    if |plain| < 4 then Waiting
    else
      var size := Size(plain);
      if !(0 < size <= MAX_FRAME_BYTES) then Refused(FrameSize)
      else if |plain| < size + 4 then Waiting
      else Judge(s, sender, number, s.loads(plain[4..size + 4]), plain[size + 4..])
  }

  function Judge(s: Session, sender: Role, number: nat, value: Option<Json>, rest: string): Verdict {
    if value.None? || !Bounded(value.value) then Refused(FrameValue)
    else if !Binds(s, sender, value.value) then Refused(FrameBinding)
    else if value.value.values[4] != Int(number) || number >= MAX_MESSAGES then Refused(FrameSequence)
    else Delivered(value.value.values[2], rest)
  }

  lemma FieldsSorted()
    ensures StrictlySorted(FIELDS)
  {
    assert "sender"[1..] == "ender" && "sequence"[1..] == "equence" && "version"[1..] == "ersion" && "vm_id"[1..] == "m_id";
    assert "ender"[1..] == "nder" && "equence"[1..] == "quence";
    FirstLess("nder", "quence");
    FirstLess("ersion", "m_id");
    assert Less("ender", "equence");
    assert Less("sender", "sequence") && Less("version", "vm_id");
    hide Less;
    forall i, j | 0 <= i < j < |FIELDS|
      ensures Less(FIELDS[i], FIELDS[j])
    {
      if FIELDS[i][0] < FIELDS[j][0] {
        FirstLess(FIELDS[i], FIELDS[j]);
      }
    }
  }

  lemma FirstLess(a: string, b: string)
    requires a != "" && b != "" && a[0] < b[0]
    ensures Less(a, b)
  {
  }

  lemma EnvelopeProper(s: Session, sender: Role, number: nat, payload: Json)
    requires Proper(payload)
    ensures Proper(Envelope(s, sender, number, payload))
  {
    FieldsSorted();
  }

  lemma EnvelopeBinds(s: Session, sender: Role, number: nat, payload: Json)
    requires payload.Dict?
    ensures var v := Envelope(s, sender, number, payload);
      Binds(s, sender, v) && v.values[4] == Int(number) && v.values[2] == payload
  {
    hide FIELDS;
  }

  lemma JudgeHonest(s: Session, sender: Role, number: nat, payload: Json, rest: string)
    requires Faithful(s) && Sendable(s, sender, number, payload) && Proper(payload)
    ensures Judge(s, sender, number, s.loads(Body(s, sender, number, payload)), rest) == Delivered(payload, rest)
  {
    EnvelopeProper(s, sender, number, payload);
    EnvelopeBinds(s, sender, number, payload);
    hide Bounded, Proper, Binds, Envelope;
  }

  // ----- what a delivered frame says -----

  predicate Octets(s: string) {
    forall k :: 0 <= k < |s| ==> s[k] as int < 256
  }

  /** `plain` begins with a whole frame: a length, most significant byte first, and as long a body. */
  predicate Framed(plain: string, body: string, rest: string) {
    0 < |body| <= MAX_FRAME_BYTES && plain == Prefix(|body|) + (body + rest)
  }

  lemma PrefixOfSize(p: string)
    requires |p| == 4 && Octets(p) && Size(p) <= MAX_FRAME_BYTES
    ensures Prefix(Size(p)) == p
  {
    var a, b, c, d := p[0] as nat, p[1] as nat, p[2] as nat, p[3] as nat;
    assert a < 256 && b < 256 && c < 256 && d < 256;
    var n := Size(p);
    assert n / 0x100_0000 == a && n / 0x1_0000 == a * 256 + b && n / 256 == a * 0x1_0000 + b * 256 + c;
  }

  /** Of byte strings, those that begin with a whole frame are the ones whose first four bytes tell its size. */
  lemma FramedExactly(plain: string)
    requires Octets(plain)
    ensures (exists body, rest :: Framed(plain, body, rest))
      <==> |plain| >= 4 && 0 < Size(plain) <= MAX_FRAME_BYTES && |plain| >= Size(plain) + 4
    ensures forall body, rest :: Framed(plain, body, rest) ==>
      |plain| >= 4 && Size(plain) == |body| && body == plain[4..|body| + 4] && rest == plain[|body| + 4..]
  {
    hide Prefix, Size;
    forall body, rest | Framed(plain, body, rest)
      ensures |plain| >= 4 && Size(plain) == |body| && |plain| >= Size(plain) + 4
      ensures body == plain[4..|body| + 4] && rest == plain[|body| + 4..]
    {
      SizeOfPrefix(|body|, body + rest);
      assert plain[4..] == body + rest;
    }
    if |plain| >= 4 && 0 < Size(plain) <= MAX_FRAME_BYTES && |plain| >= Size(plain) + 4 {
      var n := Size(plain);
      assert plain == plain[..4] + plain[4..];
      SizeOfLonger(plain[..4], plain[4..]);
      PrefixOfSize(plain[..4]);
      assert plain[4..] == plain[4..n + 4] + plain[n + 4..];
      assert Framed(plain, plain[4..n + 4], plain[n + 4..]);
    }
  }

  /** Message `number` from `sender` with this payload, as the body says it. */
  predicate Says(s: Session, sender: Role, number: int, payload: Json, body: string) {
    var v := s.loads(body);
    && payload.Dict? && v.Some? && Bounded(v.value)
    && v.value == Dict(["attempt_id", "operation", "payload", "sender", "sequence", "version", "vm_id"],
         [Str(s.attemptId), Str("inspect_image_copy"), payload, Str(sender.Name()), Int(number), Int(1), Str(s.vmId)])
  }

  lemma ExamineFramed(s: Session, sender: Role, number: nat, plain: string, body: string, rest: string)
    requires Octets(plain) && Framed(plain, body, rest)
    ensures Examine(s, sender, number, plain) == Judge(s, sender, number, s.loads(body), rest)
  {
    FramedExactly(plain);
    hide Framed, Size, Judge, Octets;
  }

  lemma ExamineUnframed(s: Session, sender: Role, number: nat, plain: string)
    requires Octets(plain) && !exists body, rest :: Framed(plain, body, rest)
    ensures Examine(s, sender, number, plain) in {Waiting, Refused(FrameSize)}
  {
    FramedExactly(plain);
    hide Framed, Size, Judge, Octets;
  }

  /**
   Against any peer: what is delivered as message `number` is the payload of a whole frame at the front
   of the buffer whose body is that very message of this attempt, VM and sender, within the limit; and
   every such frame is delivered.
   */
  lemma DeliveredExactly(s: Session, sender: Role, number: nat, plain: string, payload: Json, rest: string)
    requires Octets(plain)
    ensures Examine(s, sender, number, plain) == Delivered(payload, rest)
      <==> number < 1024 && exists body :: Framed(plain, body, rest) && Says(s, sender, number, payload, body)
  {
    hide *;
    if Examine(s, sender, number, plain) == Delivered(payload, rest) {
      if !exists body, tail :: Framed(plain, body, tail) {
        ExamineUnframed(s, sender, number, plain);
        assert false;
      }
      var body, tail :| Framed(plain, body, tail);
      ExamineFramed(s, sender, number, plain, body, tail);
      SaysExactly(s, sender, number, payload, body, tail, rest);
    }
    if number < 1024 && exists body :: Framed(plain, body, rest) && Says(s, sender, number, payload, body) {
      var body :| Framed(plain, body, rest) && Says(s, sender, number, payload, body);
      ExamineFramed(s, sender, number, plain, body, rest);
      SaysExactly(s, sender, number, payload, body, rest, rest);
    }
  }

  lemma SaysExactly(s: Session, sender: Role, number: nat, payload: Json, body: string, tail: string, rest: string)
    ensures Judge(s, sender, number, s.loads(body), tail) == Delivered(payload, rest)
      <==> tail == rest && number < 1024 && Says(s, sender, number, payload, body)
  {
    hide Bounded;
  }

  /** Why any other whole frame is refused: its body is no bounded value, no message of this session, or out of turn. */
  lemma RefusedExactly(s: Session, sender: Role, number: nat, plain: string, body: string, rest: string)
    requires Octets(plain) && Framed(plain, body, rest)
    ensures JudgedRight(s, sender, number, s.loads(body), rest, Examine(s, sender, number, plain))
  {
    hide *;
    ExamineFramed(s, sender, number, plain, body, rest);
    JudgeRight(s, sender, number, s.loads(body), rest);
  }

  predicate JudgedRight(s: Session, sender: Role, number: nat, v: Option<Json>, rest: string, verdict: Verdict) {
    if v.None? || !Bounded(v.value) then verdict == Refused(FrameValue)
    else if !Unsequenced(s, sender, v.value) then verdict == Refused(FrameBinding)
    else if v.value.values[4] != Int(number) || number >= 1024 then verdict == Refused(FrameSequence)
    else verdict == Delivered(v.value.values[2], rest)
  }

  lemma JudgeRight(s: Session, sender: Role, number: nat, v: Option<Json>, rest: string)
    ensures JudgedRight(s, sender, number, v, rest, Judge(s, sender, number, v, rest))
  {
    hide Bounded;
  }

  /** A reader waits exactly while the size is not all there, or some more bytes would make a whole frame. */
  lemma WaitingExactly(s: Session, sender: Role, number: nat, plain: string)
    requires Octets(plain) && |plain| >= 4
    ensures Examine(s, sender, number, plain).Waiting?
      <==> (exists more, body :: more != "" && Octets(more) && Framed(plain + more, body, ""))
    ensures Examine(s, sender, number, plain) == Refused(FrameSize)
      <==> !exists more, body, rest :: Octets(more) && Framed(plain + more, body, rest)
  {
    SizeTells(plain);
    hide Framed, Size, Octets, Judge;
  }

  lemma SizeTells(plain: string)
    requires Octets(plain) && |plain| >= 4
    ensures (exists more, body :: more != "" && Octets(more) && Framed(plain + more, body, ""))
      <==> 0 < Size(plain) <= MAX_FRAME_BYTES && |plain| < Size(plain) + 4
    ensures (exists more, body, rest :: Octets(more) && Framed(plain + more, body, rest))
      <==> 0 < Size(plain) <= MAX_FRAME_BYTES
  {
    hide Framed, Size;
    forall more, body, rest | Octets(more) && Framed(plain + more, body, rest)
      ensures 0 < Size(plain) <= MAX_FRAME_BYTES && |plain + more| == Size(plain) + 4 + |rest|
    {
      FramedExactly(plain + more);
      SizeOfLonger(plain, more);
    }
    var n := Size(plain);
    if 0 < n <= MAX_FRAME_BYTES {
      var more := if |plain| < n + 4 then seq(n + 4 - |plain|, _ => '0') else "";
      FramedExactly(plain + more);
      SizeOfLonger(plain, more);
      var body, rest :| Framed(plain + more, body, rest);
      assert |plain| < n + 4 ==> rest == "";
    }
  }

  /** A message of this attempt, VM and sender, with whatever sequence number. */
  predicate Unsequenced(s: Session, sender: Role, v: Json) {
    && v.Dict? && v.keys == FIELDS && |v.values| == 7 && v.values[2].Dict?
    && v == Dict(FIELDS,
         [Str(s.attemptId), Str("inspect_image_copy"), v.values[2], Str(sender.Name()), v.values[4], Int(1), Str(s.vmId)])
  }

  /** A verdict does not depend on how the stream was cut: more bytes behind the frame change nothing. */
  lemma VerdictStands(s: Session, sender: Role, number: nat, plain: string, more: string)
    ensures var v, w := Examine(s, sender, number, plain), Examine(s, sender, number, plain + more);
      match v
      case Waiting => true
      case Refused(_) => w == v
      case Delivered(payload, rest) => w == Delivered(payload, rest + more)
  {
    hide Judge, Size;
    if |plain| >= 4 {
      SizeOfLonger(plain, more);
      var size := Size(plain);
      if 0 < size <= MAX_FRAME_BYTES && |plain| >= size + 4 {
        assert (plain + more)[4..size + 4] == plain[4..size + 4];
        assert (plain + more)[size + 4..] == plain[size + 4..] + more;
        JudgeRest(s, sender, number, s.loads(plain[4..size + 4]), plain[size + 4..], more);
      }
    }
  }

  lemma SizeOfLonger(p: string, more: string)
    requires |p| >= 4
    ensures Size(p + more) == Size(p)
  {
  }

  lemma JudgeRest(s: Session, sender: Role, number: nat, value: Option<Json>, rest: string, more: string)
    ensures var v, w := Judge(s, sender, number, value, rest), Judge(s, sender, number, value, rest + more);
      if v.Delivered? then w == Delivered(v.payload, rest + more) && v.rest == rest else w == v
  {
    hide Bounded, Binds;
    if value.Some? && Binds(s, sender, value.value) {
      BindsDict(s, sender, value.value);
    }
  }

  /** The buffer and what is still to come continue an honest peer's stream at message `number`. */
  predicate Tracks(s: Session, sender: Role, queue: seq<Json>, number: nat, plain: string, coming: string) {
    Honest(s, sender, queue) && number <= |queue| && plain + coming <= Stream(s, sender, queue, number)
  }

  lemma SplitFrame(plain: string, coming: string, prefix: string, body: string, later: string)
    requires |prefix| == 4 <= |plain| && plain + coming <= (prefix + body) + later
    ensures plain[..4] == prefix
    ensures |plain| >= 4 + |body| ==>
      plain[4..|body| + 4] == body && plain[|body| + 4..] + coming <= later
  {
    var all := (prefix + body) + later;
    assert plain == all[..|plain|];
    if |plain| >= 4 + |body| {
      assert plain[4..|body| + 4] == all[4..|body| + 4] == body;
      var rest := plain[|body| + 4..] + coming;
      assert rest == (plain + coming)[|body| + 4..];
      assert all[|body| + 4..] == later;
    }
  }

  /** No frame an honest peer queued is refused: it is awaited, or delivered as the very payload queued. */
  lemma HonestFrames(s: Session, sender: Role, queue: seq<Json>, number: nat, plain: string, coming: string)
    requires Faithful(s) && Tracks(s, sender, queue, number, plain, coming)
    ensures var v := Examine(s, sender, number, plain);
      || v.Waiting?
      || (&& v.Delivered? && number < |queue| && v.payload == queue[number]
          && Tracks(s, sender, queue, number + 1, v.rest, coming))
  {
    hide Faithful, Judge, Proper, Size, Prefix, Body, Bounded, Binds;
    if |plain| >= 4 {
      assert number < |queue|;
      var body := Body(s, sender, number, queue[number]);
      var later := Stream(s, sender, queue, number + 1);
      SplitFrame(plain, coming, Prefix(|body|), body, later);
      SizeOfPrefix(|body|, plain[4..]);
      assert plain == Prefix(|body|) + plain[4..];
      if |plain| >= |body| + 4 {
        JudgeHonest(s, sender, number, queue[number], plain[|body| + 4..]);
      }
    }
  }

  // ----- the endpoint -----

  datatype ReadOutcome = Data(bytes: string) | ReadWant | ReadError
  datatype WriteOutcome = Written(count: int) | WriteWant | WriteError
  datatype HandshakeOutcome = Done(identified: bool) | HandshakeWant | HandshakeError

  /** The TLS session as its endpoint sees it: ordered bytes out, ordered bytes in. */
  class Tls {
    /** What has been accepted for the peer. */
    var sent: string
    /** What the peer's side will ever deliver that has not been read yet. */
    var coming: string

    /** Whether the handshake that finished was with the pinned peer. */
    ghost var pinned: bool

    method Handshake() returns (r: HandshakeOutcome)
      modifies this`pinned
      ensures r.Done? ==> pinned == r.identified
      ensures !r.Done? ==> pinned == old(pinned)
    {
      r := *;
      if r.Done? {
        pinned := r.identified;
      }
    }

    /** At most `limit` of the bytes to come, none at the end of the stream. */
    method Read(limit: nat) returns (r: ReadOutcome)
      requires 1 <= limit <= MAX_READ
      modifies this`coming
      ensures r.Data? ==> |r.bytes| <= limit && old(coming) == r.bytes + coming
      ensures !r.Data? ==> coming == old(coming)
    {
      r := *;
      if r.Data? {
        if r.bytes <= coming && |r.bytes| <= limit {
          coming := coming[|r.bytes|..];
        } else {
          r := ReadWant;
        }
      }
    }

    /** Some of `data`'s first bytes, as many as the session cares to take. */
    method Write(data: string) returns (r: WriteOutcome)
      requires data != ""
      modifies this`sent
      ensures r.Written? ==> r.count <= |data|
      ensures sent == old(sent) + (if r.Written? && r.count > 0 then data[..r.count] else "")
    {
      r := *;
      if r.Written? {
        if r.count > |data| {
          r := Written(|data|);
        }
        if r.count > 0 {
          sent := sent + data[..r.count];
        }
      }
    }
  }

  class Endpoint {
    const session: Session
    const role: Role
    const tls: Tls
    var failure: Option<Failure>
    var ready: bool
    var txSequence: nat
    var rxSequence: nat
    var plain: string
    var writePending: string
    var writeOffset: nat
    /** Every payload accepted by QueueMessage, and every one returned by ReceiveMessage, in order. */
    ghost var queued: seq<Json>
    ghost var delivered: seq<Json>

    /** What has gone out is the start of the queued messages' frames; while all is well, the rest is pending. */
    ghost predicate Sends()
      reads this`txSequence, this`queued, this`failure, this`writePending, this`writeOffset, tls`sent
    {
      && txSequence == |queued|
      && Honest(session, role, queued)
      && tls.sent <= Stream(session, role, queued, 0)
      && (failure.Some? ==> writePending == "")
      && (failure.None? ==> writeOffset <= |writePending|)
      && (failure.None? ==> Stream(session, role, queued, 0) == tls.sent + writePending[writeOffset..])
      && (writePending != "" ==> writeOffset < |writePending|)
    }

    /** Only a session with the pinned peer is ready. */
    ghost predicate Valid()
      reads this, tls`sent, tls`pinned
    {
      Sends() && rxSequence == |delivered| && (failure.Some? ==> !ready && plain == "") && (ready ==> tls.pinned)
    }

    /** Everything delivered is what the peer queued, and what is buffered and to come continues it. */
    ghost predicate Follows(queue: seq<Json>)
      reads this, tls
    {
      && delivered <= queue && rxSequence == |delivered|
      && (failure.None? ==> Tracks(session, role.Peer(), queue, rxSequence, plain, tls.coming))
    }

    constructor (session: Session, role: Role, tls: Tls)
      requires tls.sent == ""
      ensures Valid() && fresh(this) && this.session == session && this.role == role && this.tls == tls
      ensures failure.None? && !ready && queued == [] && delivered == [] && plain == ""
    {
      this.session, this.role, this.tls := session, role, tls;
      failure, ready := None, false;
      txSequence, rxSequence, plain, writePending, writeOffset := 0, 0, "", "", 0;
      queued, delivered := [], [];
    }

    /** Record the first failure for good and drop what was buffered. */
    method Fail(code: Failure) returns (why: Failure)
      requires Valid()
      modifies this`failure, this`ready, this`plain, this`writePending
      ensures Valid() && failure == Some(why)
      ensures why == if old(failure).Some? then old(failure).value else code
    {
      hide Stream, Honest;
      failure := Some(if failure.Some? then failure.value else code);
      ready, plain, writePending := false, "", "";
      why := failure.value;
    }

    /** Any look at the clock, the cancellation flag, the context or the buffers may be the last. */
    method Guard() returns (stop: Option<Failure>)
      requires Valid()
      modifies this`failure, this`ready, this`plain, this`writePending
      ensures Valid() && stop == failure
      ensures old(failure).Some? ==> failure == old(failure)
      ensures old(failure).None? && stop.Some? ==> stop.value in ENVIRONMENTAL
      ensures stop.None? ==> ready == old(ready) && plain == old(plain) && writePending == old(writePending)
    {
      if failure.Some? {
        var again := Fail(failure.value);
        return Some(again);
      }
      stop := *;
      if stop.Some? {
        var code := if stop.value in ENVIRONMENTAL then stop.value else Deadline;
        var why := Fail(code);
        stop := Some(why);
      }
    }

    /** Hand the TLS session the rest of the pending frame; it may take any part of it. */
    method WriteSome() returns (stop: Option<Failure>)
      requires Valid() && failure.None? && writePending != ""
      modifies this`failure, this`ready, this`plain, this`writePending, this`writeOffset, tls`sent
      ensures Valid() && stop == failure
      ensures old(tls.sent) <= tls.sent
      ensures stop.None? ==> plain == old(plain) && ready == old(ready)
    {
      hide Stream, Honest;
      var written := tls.Write(writePending[writeOffset..]);
      Advance(old(tls.sent), writePending, writeOffset, if written.Written? && written.count > 0 then written.count else 0);
      if written.WriteWant? {
        return None;
      }
      if written.WriteError? || written.count <= 0 {
        var why := Fail(TlsFailure);
        return Some(why);
      }
      writeOffset := writeOffset + written.count;
      if writeOffset == |writePending| {
        writePending, writeOffset := "", 0;
      }
      // A look that fails here drops the pending frame, however far it got.
      stop := Guard();
    }

    /** One step of the handshake and of the pending write. */
    method Step() returns (r: Result<bool, Failure>)
      requires Valid()
      modifies this`failure, this`ready, this`plain, this`writePending, this`writeOffset, tls`sent, tls`pinned
      ensures Valid()
      ensures old(tls.sent) <= tls.sent && (!old(ready) ==> tls.sent == old(tls.sent) || tls.pinned)
      ensures r.Err? <==> failure.Some?
      ensures r.Err? ==> failure == Some(r.error)
      ensures r.Ok? ==> plain == old(plain) && r.value == ready
      ensures old(failure).Some? ==> failure == old(failure) && tls.sent == old(tls.sent)
    {
      hide Stream, Honest;
      var stop := Guard();
      if stop.Some? {
        return Err(stop.value);
      }
      if !ready {
        var shaken := tls.Handshake();
        match shaken {
          case HandshakeWant =>
            var late := Guard();
            return if late.Some? then Err(late.value) else Ok(false);
          case HandshakeError =>
            var why := Fail(TlsFailure);
            return Err(why);
          case Done(identified) =>
            if !identified {
              var why := Fail(PeerIdentity);
              return Err(why);
            }
            var late := Guard();
            if late.Some? {
              return Err(late.value);
            }
            ready := true;
        }
      }
      if writePending != "" {
        stop := WriteSome();
        if stop.Some? {
          return Err(stop.value);
        }
      }
      stop := Guard();
      r := if stop.Some? then Err(stop.value) else Ok(ready);
    }

    /** Take one payload for sending: exactly the sendable ones, one at a time, in an authenticated session. */
    method QueueMessage(payload: Json) returns (r: Result<(), Failure>)
      requires Valid() && Proper(payload)
      modifies this`failure, this`ready, this`plain, this`writePending, this`writeOffset, this`txSequence, this`queued
      ensures Valid()
      ensures r.Err? <==> failure.Some?
      ensures r.Err? ==> failure == Some(r.error) && queued == old(queued)
      ensures r.Ok? ==> old(ready) && old(writePending) == "" && queued == old(queued) + [payload] && plain == old(plain)
      ensures old(failure).Some? ==> failure == old(failure)
      ensures old(failure).None? && r.Err? && r.error !in ENVIRONMENTAL ==>
        !(old(ready) && old(writePending) == "" && Sendable(session, role, old(|queued|), payload))
    {
      hide Sendable, Honest, Stream, Frame, Envelope, Proper, Examine, Bounded;
      var stop := Guard();
      if stop.Some? {
        return Err(stop.value);
      }
      var why: Failure;
      Refusals(session, role, txSequence, payload);
      if !ready {
        why := Fail(NotAuthenticated);
        return Err(why);
      }
      if writePending != "" {
        why := Fail(WriteBusy);
        return Err(why);
      }
      if txSequence >= MAX_MESSAGES {
        why := Fail(MessageLimit);
        return Err(why);
      }
      if !payload.Dict? {
        why := Fail(FrameValue);
        return Err(why);
      }
      var envelope := Envelope(session, role, txSequence, payload);
      var fine := Tree(envelope);
      if !fine {
        why := Fail(FrameValue);
        return Err(why);
      }
      var body := session.dumps(envelope);
      if !(0 < |body| <= MAX_FRAME_BYTES) {
        why := Fail(FrameSize);
        return Err(why);
      }
      stop := Guard();
      if stop.Some? {
        return Err(stop.value);
      }
      StreamGrows(session, role, queued, payload, 0);
      FrameIs(session, role, txSequence, payload);
      writePending, writeOffset := Prefix(|body|) + body, 0;
      txSequence := txSequence + 1;
      queued := queued + [payload];
      assert writePending[0..] == writePending;
      r := Ok(());
    }

    /** The first whole frame in the buffer, if there is one; otherwise there is room to read more. */
    method Pop() returns (r: Result<Option<Json>, Failure>)
      requires Valid() && failure.None?
      modifies this`failure, this`ready, this`plain, this`writePending, this`rxSequence, this`delivered
      ensures Valid()
      ensures r.Err? <==> failure.Some?
      ensures var verdict := Examine(session, role.Peer(), old(rxSequence), old(plain));
        match r
        case Err(e) => failure == Some(e) && delivered == old(delivered)
          && (e in ENVIRONMENTAL ==> verdict.Delivered?) && (e !in ENVIRONMENTAL ==> verdict == Refused(e))
        case Ok(None) => verdict.Waiting? && |plain| < MAX_FRAME_BYTES + 4 && ready == old(ready)
          && plain == old(plain) && delivered == old(delivered)
        case Ok(Some(payload)) => verdict == Delivered(payload, plain) && delivered == old(delivered) + [payload]
    {
      hide Sends, Bounded, Size, Binds, FIELDS;
      var why: Failure;
      if |plain| < 4 {
        return Ok(None);
      }
      var size := Size(plain);
      if !(0 < size <= MAX_FRAME_BYTES) {
        why := Fail(FrameSize);
        return Err(why);
      }
      if |plain| < size + 4 {
        return Ok(None);
      }
      var body := plain[4..size + 4];
      plain := plain[size + 4..];
      var value := session.loads(body);
      var fine := value.Some?;
      if fine {
        fine := Tree(value.value);
      }
      if !fine {
        why := Fail(FrameValue);
        return Err(why);
      }
      if !Binds(session, role.Peer(), value.value) {
        why := Fail(FrameBinding);
        return Err(why);
      }
      BindsDict(session, role.Peer(), value.value);
      if value.value.values[4] != Int(rxSequence) || rxSequence >= MAX_MESSAGES {
        why := Fail(FrameSequence);
        return Err(why);
      }
      var stop := Guard();
      if stop.Some? {
        return Err(stop.value);
      }
      rxSequence := rxSequence + 1;
      delivered := delivered + [value.value.values[2]];
      return Ok(Some(value.value.values[2]));
    }

    /** Read once; `more` when bytes came. */
    method ReadMore(ghost queue: seq<Json>) returns (stop: Option<Failure>, more: bool)
      requires Valid() && failure.None? && |plain| < MAX_FRAME_BYTES + 4
      modifies this`failure, this`ready, this`plain, this`writePending, tls`coming
      ensures Valid() && stop == failure
      ensures stop.None? ==> ready == old(ready)
      ensures stop.None? && more ==> |tls.coming| < old(|tls.coming|)
      ensures stop.None? && !more ==> plain == old(plain)
      ensures stop.None? ==> plain + tls.coming == old(plain) + old(tls.coming)
      ensures old(Follows(queue)) ==> Follows(queue)
      ensures stop.Some? ==> stop.value in ENVIRONMENTAL + {TlsFailure, TruncatedFrame, ChannelClosed}
    {
      hide Sends, Bounded, Size, Examine, Tracks, Faithful;
      var limit := MAX_FRAME_BYTES + 4 - |plain|;
      var read := tls.Read(if limit < MAX_READ then limit else MAX_READ);
      if read.ReadWant? {
        stop := Guard();
        return stop, false;
      }
      if read.ReadError? {
        var why := Fail(TlsFailure);
        return Some(why), false;
      }
      stop := Guard();
      if stop.Some? {
        return stop, false;
      }
      if read.bytes == "" {
        var why := Fail(if plain != "" then TruncatedFrame else ChannelClosed);
        return Some(why), false;
      }
      if old(Follows(queue)) {
        TracksMore(session, role.Peer(), queue, rxSequence, plain, read.bytes, tls.coming);
      }
      assert (plain + read.bytes) + tls.coming == plain + (read.bytes + tls.coming);
      plain := plain + read.bytes;
      stop := Guard();
      more := true;
    }

    /** Keep reading until a whole frame is there, or nothing more is for now. */
    method ReceiveMessage(ghost queue: seq<Json>) returns (r: Result<Option<Json>, Failure>)
      requires Valid()
      modifies this`failure, this`ready, this`plain, this`writePending, this`rxSequence, this`delivered, tls`coming
      ensures Valid()
      ensures r.Err? <==> failure.Some?
      ensures r.Err? ==> failure == Some(r.error)
      ensures old(failure).Some? ==> failure == old(failure)
      ensures delivered == old(delivered) + (if r.Ok? && r.value.Some? then [r.value.value] else [])
      ensures r == Ok(None) ==> Examine(session, role.Peer(), rxSequence, plain).Waiting?
      ensures r == Ok(None) ==> plain + tls.coming == old(plain) + old(tls.coming)
      ensures r.Ok? && r.value.Some? ==>
        Examine(session, role.Peer(), old(rxSequence), old(plain) + old(tls.coming)) == Delivered(r.value.value, plain + tls.coming)
      ensures old(failure).None? && r.Err? && r.error in FRAME_FAULTS ==>
        Examine(session, role.Peer(), old(rxSequence), old(plain) + old(tls.coming)) == Refused(r.error)
      ensures Faithful(session) && old(Follows(queue)) ==> Follows(queue)
      ensures Faithful(session) && old(Follows(queue)) && old(failure).None? && r.Err? ==>
        r.error in ENVIRONMENTAL + {NotAuthenticated, TlsFailure, TruncatedFrame, ChannelClosed}
    {
      hide Sends, Bounded, Size, Examine, Tracks, Faithful;
      var why: Failure;
      var stop := Guard();
      if stop.Some? {
        return Err(stop.value);
      }
      if !ready {
        why := Fail(NotAuthenticated);
        return Err(why);
      }
      while true
        invariant Valid() && failure.None? && ready
        invariant delivered == old(delivered) && rxSequence == old(rxSequence)
        invariant plain + tls.coming == old(plain) + old(tls.coming)
        invariant Faithful(session) && old(Follows(queue)) ==> Follows(queue)
        decreases |tls.coming|
      {
        stop := Guard();
        if stop.Some? {
          return Err(stop.value);
        }
        ghost var honest := Faithful(session) && old(Follows(queue));
        if honest {
          HonestFrames(session, role.Peer(), queue, rxSequence, plain, tls.coming);
          if Examine(session, role.Peer(), rxSequence, plain).Delivered? {
            NextDelivered(delivered, queue);
          }
        }
        VerdictStands(session, role.Peer(), rxSequence, plain, tls.coming);
        r := Pop();
        if r.Err? || r.value.Some? {
          return r;
        }
        var more;
        stop, more := ReadMore(queue);
        if stop.Some? || !more {
          return if stop.Some? then Err(stop.value) else Ok(None);
        }
      }
    }
  }

  lemma BindsDict(s: Session, sender: Role, v: Json)
    requires Binds(s, sender, v)
    ensures v.Dict? && |v.values| == 7
  {
  }

  lemma TracksMore(s: Session, sender: Role, queue: seq<Json>, number: nat, plain: string, bytes: string, coming: string)
    requires Tracks(s, sender, queue, number, plain, bytes + coming)
    ensures Tracks(s, sender, queue, number, plain + bytes, coming)
  {
    hide Stream, Honest;
    assert plain + (bytes + coming) == (plain + bytes) + coming;
  }

  lemma NextDelivered(delivered: seq<Json>, queue: seq<Json>)
    requires delivered <= queue && |delivered| < |queue|
    ensures delivered + [queue[|delivered|]] <= queue
  {
  }

  lemma Refusals(s: Session, sender: Role, number: nat, payload: Json)
    ensures Sendable(s, sender, number, payload) <==>
      && number < MAX_MESSAGES && payload.Dict?
      && Bounded(Envelope(s, sender, number, payload))
      && 0 < |s.dumps(Envelope(s, sender, number, payload))| <= MAX_FRAME_BYTES
  {
    hide Bounded;
  }

  lemma FrameIs(s: Session, sender: Role, number: nat, payload: Json)
    requires Sendable(s, sender, number, payload)
    ensures var body := s.dumps(Envelope(s, sender, number, payload));
      |body| <= MAX_FRAME_BYTES && Frame(s, sender, number, payload) == Prefix(|body|) + body
  {
    hide Bounded;
  }

  lemma Advance(sent: string, pending: string, offset: nat, count: nat)
    requires offset + count <= |pending|
    ensures sent + pending[offset..] == (sent + pending[offset..][..count]) + pending[offset + count..]
  {
    assert pending[offset..] == pending[offset..][..count] + pending[offset + count..];
  }

  /** A new session that reads, in order, some of what its peer has sent follows what the peer queued. */
  lemma SessionBegins(sender: Endpoint, receiver: Endpoint)
    requires sender.Valid() && receiver.session == sender.session && receiver.role.Peer() == sender.role
    requires receiver.delivered == [] && receiver.rxSequence == 0 && receiver.plain == ""
    requires receiver.tls.coming <= sender.tls.sent
    ensures receiver.Follows(sender.queued)
  {
    hide Stream, Honest;
    assert "" + receiver.tls.coming == receiver.tls.coming;
  }
}
