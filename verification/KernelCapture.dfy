/**
 Capturing an interval of the kernel log, and the checks of the correlator that reads it: whatever the
 capture hands over, the correlator has nothing to say against its window, bounds, headers or times.
 */
module KernelCapture {
  import opened Wrappers
  import opened Text

  const MAX_RECORD_BYTES: nat := 8192
  const MAX_RECORDS: nat := 64
  const MAX_CAPTURE_BYTES: nat := 65536
  const MAX_WINDOW_US: nat := 5_000_000
  const MAX_COUNTER: nat := 0xFFFF_FFFF_FFFF_FFFF
  const MAX_PRIORITY: nat := 191
  const MAX_BASELINE_RECORDS: nat := 4096
  const MAX_BASELINE_BYTES: nat := 4 * 1024 * 1024
  const QUIET_TAIL_NS: nat := 100_000_000

  // ----- records -----

  /** A record's numbers, and what follows its third comma. */
  datatype Head = Head(priority: nat, sequence: nat, stamp: nat, tail: string)

  function Number(field: string, digits: nat): Option<nat> {
    if |field| <= digits then ParseDecimal(field) else None
  }

  function SplitHead(raw: string): Option<Head> {
    var (p, afterP) := CutAt(raw, ',');
    if afterP == "" then None else
    var (q, afterQ) := CutAt(afterP[1..], ',');
    if afterQ == "" then None else
    var (t, afterT) := CutAt(afterQ[1..], ',');
    if afterT == "" then None else
    match (Number(p, 3), Number(q, 20), Number(t, 20))
    case (Some(priority), Some(sequence), Some(stamp)) => Some(Head(priority, sequence, stamp, afterT[1..]))
    case _ => None
  }

  predicate InRange(h: Head) {
    h.priority <= MAX_PRIORITY && h.sequence <= MAX_COUNTER && h.stamp <= MAX_COUNTER
  }

  predicate Printable(s: string) {
    forall k :: 0 <= k < |s| ==> ' ' <= s[k] <= '~'
  }

  /** The capture's grammar of what follows the numbers: one printable line, its newline included. */
  function StrictBody(tail: string): Option<string> {
    if |tail| >= 4 && tail[0] == '-' && tail[1] == ';' && EndsWithLf(tail) && Printable(tail[2..|tail| - 1])
    then Some(tail[2..|tail| - 1]) else None
  }

  /** The grammar for what came before: continuations and further lines are let through. */
  function BaselineBody(tail: string): Option<string> {
    if |tail| >= 3 && tail[0] in {'-', 'c'} && tail[1] == ';' && EndsWithLf(tail) then Some(tail[2..|tail| - 1]) else None
  }

  /** The correlator's grammar: one line, with or without its newline. */
  function ReaderBody(tail: string): Option<string> {
    if |tail| < 3 || tail[0] != '-' || tail[1] != ';' then None
    else
      var body := if EndsWithLf(tail) then tail[2..|tail| - 1] else tail[2..];
      if body == "" || '\n' in body || '\r' in body then None else Some(body)
  }

  /** What the capture accepts, the correlator reads alike. */
  lemma StrictIsRead(tail: string)
    ensures StrictBody(tail).Some? ==> ReaderBody(tail) == StrictBody(tail)
  {
  }

  predicate Mentions(s: string, token: string) {
    exists k :: 0 <= k <= |s| - |token| && s[k..][..|token|] == token
  }

  function Lower(s: string): string {
    seq(|s|, k requires 0 <= k < |s| => if 'A' <= s[k] <= 'Z' then (s[k] as int + 32) as char else s[k])
  }

  predicate Suppressed(body: string) {
    var low := Lower(body);
    || Mentions(low, "suppressed") || Mentions(low, "rate limit") || Mentions(low, "ratelimit")
    || Mentions(low, "audit_lost=") || Mentions(low, "backlog limit")
  }

  datatype Failure =
    | Terminal | Budget | LogIdentity | LogRead | RecordBound | RecordShape | LogLoss | BaselineUnknown
    | BaselineBound | BaselineGap | CaptureWindow | CaptureBound | CaptureGap | Context

  function Header(raw: string, baseline: bool): Result<Head, Failure> {
    if !(0 < |raw| <= MAX_RECORD_BYTES) then Err(RecordBound)
    else
      var h := SplitHead(raw);
      if h.None? then Err(RecordShape)
      else
        var body := if baseline then BaselineBody(h.value.tail) else StrictBody(h.value.tail);
        if body.None? || !InRange(h.value) then Err(RecordShape)
        else if Suppressed(body.value) then Err(LogLoss)
        else Ok(h.value)
  }

  // ----- what an accepted record is -----

  /** `c` is the letter `d`, in either case, or that very character. */
  predicate SameLetter(c: char, d: char) {
    c == d || ('a' <= d <= 'z' && c as int == d as int - 32)
  }

  /** The text holds the words somewhere, in capitals or not. */
  predicate Speaks(body: string, words: string) {
    exists k :: 0 <= k <= |body| - |words| && SpeaksAt(body, words, k)
  }

  predicate SpeaksAt(body: string, words: string, k: int) {
    0 <= k <= |body| - |words| && forall j :: 0 <= j < |words| ==> SameLetter(body[k + j], words[j])
  }

  /** The record tells of lost or held-back messages. */
  predicate TellsOfLoss(body: string) {
    || Speaks(body, "suppressed") || Speaks(body, "rate limit") || Speaks(body, "ratelimit")
    || Speaks(body, "audit_lost=") || Speaks(body, "backlog limit")
  }

  lemma LowerSpeaks(body: string, words: string)
    requires forall j :: 0 <= j < |words| ==> !('A' <= words[j] <= 'Z')
    ensures Mentions(Lower(body), words) <==> Speaks(body, words)
  {
    var low := Lower(body);
    if Mentions(low, words) {
      var k :| 0 <= k <= |low| - |words| && low[k..][..|words|] == words;
      forall j | 0 <= j < |words|
        ensures SameLetter(body[k + j], words[j])
      {
        assert low[k..][..|words|][j] == low[k + j];
      }
      assert SpeaksAt(body, words, k);
    }
    if Speaks(body, words) {
      var k :| 0 <= k <= |body| - |words| && SpeaksAt(body, words, k);
      assert |low| == |body|;
      forall j | 0 <= j < |words|
        ensures low[k + j] == words[j]
      {
        assert SameLetter(body[k + j], words[j]);
      }
      assert low[k..][..|words|] == words;
    }
  }

  lemma SuppressedExactly(body: string)
    ensures Suppressed(body) <==> TellsOfLoss(body)
  {
    LowerSpeaks(body, "suppressed");
    LowerSpeaks(body, "rate limit");
    LowerSpeaks(body, "ratelimit");
    LowerSpeaks(body, "audit_lost=");
    LowerSpeaks(body, "backlog limit");
    hide Mentions, Lower, Speaks;
  }

  /** Three numbers, a dash, and one printable line. */
  predicate PrintedRecord(raw: string, h: Head, p: string, q: string, t: string, body: string) {
    && IsDigits(p) && |p| <= 3 && IsDigits(q) && |q| <= 20 && IsDigits(t) && |t| <= 20
    && body != "" && Printable(body)
    && raw == p + ("," + (q + ("," + (t + ("," + ("-;" + (body + "\n")))))))
    && h == Head(DecimalValue(p), DecimalValue(q), DecimalValue(t), "-;" + (body + "\n"))
  }

  /** The capture takes exactly the records of this form whose numbers are in range and that tell of no loss. */
  lemma HeaderExactly(raw: string, h: Head)
    ensures Header(raw, false) == Ok(h) <==>
      && |raw| <= 8192 && h.priority <= 191 && h.sequence <= MAX_COUNTER && h.stamp <= MAX_COUNTER
      && exists p, q, t, body :: PrintedRecord(raw, h, p, q, t, body) && !TellsOfLoss(body)
  {
    hide *;
    if Header(raw, false) == Ok(h) {
      var p, q, t, body := HeaderPrinted(raw, h);
    }
    if |raw| <= 8192 && h.priority <= 191 && h.sequence <= MAX_COUNTER && h.stamp <= MAX_COUNTER
      && exists p, q, t, body :: PrintedRecord(raw, h, p, q, t, body) && !TellsOfLoss(body) {
      var p, q, t, body :| PrintedRecord(raw, h, p, q, t, body) && !TellsOfLoss(body);
      PrintedHeader(raw, h, p, q, t, body);
    }
  }

  lemma SplitPrinted(raw: string, h: Head) returns (p: string, q: string, t: string)
    requires SplitHead(raw) == Some(h)
    ensures IsDigits(p) && |p| <= 3 && IsDigits(q) && |q| <= 20 && IsDigits(t) && |t| <= 20
    ensures raw == p + ("," + (q + ("," + (t + ("," + h.tail)))))
    ensures h == Head(DecimalValue(p), DecimalValue(q), DecimalValue(t), h.tail)
  {
    var afterP, afterQ, afterT;
    p, afterP := CutAt(raw, ',').0, CutAt(raw, ',').1;
    q, afterQ := CutAt(afterP[1..], ',').0, CutAt(afterP[1..], ',').1;
    t, afterT := CutAt(afterQ[1..], ',').0, CutAt(afterQ[1..], ',').1;
    CutIs(raw, ',');
    CutIs(afterP[1..], ',');
    CutIs(afterQ[1..], ',');
    hide CutAt, IsDigits, DecimalValue;
  }

  lemma CutIs(s: string, c: char)
    ensures var (first, rest) := CutAt(s, c);
      s == first + rest && (rest != "" ==> rest == [c] + rest[1..])
  {
  }

  lemma HeaderPrinted(raw: string, h: Head) returns (p: string, q: string, t: string, body: string)
    requires Header(raw, false) == Ok(h)
    ensures |raw| <= 8192 && h.priority <= 191 && h.sequence <= MAX_COUNTER && h.stamp <= MAX_COUNTER
    ensures PrintedRecord(raw, h, p, q, t, body) && !TellsOfLoss(body)
  {
    hide SplitHead, Suppressed, TellsOfLoss, IsDigits, DecimalValue, Printable;
    p, q, t := SplitPrinted(raw, h);
    body := StrictBody(h.tail).value;
    SuppressedExactly(body);
    assert h.tail == "-;" + (body + "\n");
  }

  lemma PrintedHeader(raw: string, h: Head, p: string, q: string, t: string, body: string)
    requires PrintedRecord(raw, h, p, q, t, body) && !TellsOfLoss(body)
    requires |raw| <= 8192 && h.priority <= 191 && h.sequence <= MAX_COUNTER && h.stamp <= MAX_COUNTER
    ensures Header(raw, false) == Ok(h)
  {
    SuppressedExactly(body);
    PrintedSplits(raw, h, p, q, t, body);
    PrintedTail(raw, h, p, q, t, body);
    hide SplitHead, Suppressed, TellsOfLoss, PrintedRecord, StrictBody;
  }

  lemma PrintedTail(raw: string, h: Head, p: string, q: string, t: string, body: string)
    requires PrintedRecord(raw, h, p, q, t, body)
    ensures StrictBody(h.tail) == Some(body) && raw != ""
  {
    hide IsDigits, DecimalValue, Printable;
    assert h.tail[2..|h.tail| - 1] == body;
  }

  lemma PrintedSplits(raw: string, h: Head, p: string, q: string, t: string, body: string)
    requires PrintedRecord(raw, h, p, q, t, body)
    ensures SplitHead(raw) == Some(h)
  {
    TextSplits(raw, h, p, q, t);
  }

  lemma TextSplits(raw: string, h: Head, p: string, q: string, t: string)
    requires IsDigits(p) && |p| <= 3 && IsDigits(q) && |q| <= 20 && IsDigits(t) && |t| <= 20
    requires raw == p + ("," + (q + ("," + (t + ("," + h.tail)))))
    requires h == Head(DecimalValue(p), DecimalValue(q), DecimalValue(t), h.tail)
    ensures SplitHead(raw) == Some(h)
  {
    var rest3 := "," + h.tail;
    var rest2 := "," + (t + rest3);
    var rest1 := "," + (q + rest2);
    DigitsHave(p);
    DigitsHave(q);
    DigitsHave(t);
    hide IsDigits, DecimalValue, CutAt;
    CutAtOf(p, rest1, ',');
    CutAtOf(q, rest2, ',');
    CutAtOf(t, rest3, ',');
    assert rest1[1..] == q + rest2 && rest2[1..] == t + rest3 && rest3[1..] == h.tail;
  }

  lemma DigitsHave(p: string)
    requires IsDigits(p)
    ensures ',' !in p
  {
  }

  /** Three numbers, a dash or a continuation mark, and anything up to the final newline. */
  predicate OldRecord(raw: string, h: Head, p: string, q: string, t: string, mark: char, body: string) {
    && IsDigits(p) && |p| <= 3 && IsDigits(q) && |q| <= 20 && IsDigits(t) && |t| <= 20 && mark in {'-', 'c'}
    && raw == p + ("," + (q + ("," + (t + ("," + ([mark] + (";" + (body + "\n"))))))))
    && h == Head(DecimalValue(p), DecimalValue(q), DecimalValue(t), [mark] + (";" + (body + "\n")))
  }

  /** What came before the capture may be continued, run over lines and hold any bytes, but not tell of loss either. */
  lemma OldHeaderExactly(raw: string, h: Head)
    ensures Header(raw, true) == Ok(h) <==>
      && |raw| <= 8192 && h.priority <= 191 && h.sequence <= MAX_COUNTER && h.stamp <= MAX_COUNTER
      && exists p, q, t, mark, body :: OldRecord(raw, h, p, q, t, mark, body) && !TellsOfLoss(body)
  {
    hide *;
    if Header(raw, true) == Ok(h) {
      var p, q, t, mark, body := OldHeaderPrinted(raw, h);
    }
    if |raw| <= 8192 && h.priority <= 191 && h.sequence <= MAX_COUNTER && h.stamp <= MAX_COUNTER
      && exists p, q, t, mark, body :: OldRecord(raw, h, p, q, t, mark, body) && !TellsOfLoss(body) {
      var p, q, t, mark, body :| OldRecord(raw, h, p, q, t, mark, body) && !TellsOfLoss(body);
      PrintedOldHeader(raw, h, p, q, t, mark, body);
    }
  }

  lemma OldHeaderPrinted(raw: string, h: Head) returns (p: string, q: string, t: string, mark: char, body: string)
    requires Header(raw, true) == Ok(h)
    ensures |raw| <= 8192 && h.priority <= 191 && h.sequence <= MAX_COUNTER && h.stamp <= MAX_COUNTER
    ensures OldRecord(raw, h, p, q, t, mark, body) && !TellsOfLoss(body)
  {
    hide SplitHead, Suppressed, TellsOfLoss, IsDigits, DecimalValue;
    p, q, t := SplitPrinted(raw, h);
    mark, body := h.tail[0], BaselineBody(h.tail).value;
    SuppressedExactly(body);
    assert h.tail == [mark] + (";" + (body + "\n"));
  }

  lemma PrintedOldHeader(raw: string, h: Head, p: string, q: string, t: string, mark: char, body: string)
    requires OldRecord(raw, h, p, q, t, mark, body) && !TellsOfLoss(body)
    requires |raw| <= 8192 && h.priority <= 191 && h.sequence <= MAX_COUNTER && h.stamp <= MAX_COUNTER
    ensures Header(raw, true) == Ok(h)
  {
    SuppressedExactly(body);
    OldSplits(raw, h, p, q, t, mark, body);
    OldTail(raw, h, p, q, t, mark, body);
    hide SplitHead, Suppressed, TellsOfLoss, OldRecord, BaselineBody, IsDigits, DecimalValue;
  }

  lemma OldSplits(raw: string, h: Head, p: string, q: string, t: string, mark: char, body: string)
    requires OldRecord(raw, h, p, q, t, mark, body)
    ensures SplitHead(raw) == Some(h)
  {
    TextSplits(raw, h, p, q, t);
    hide SplitHead, IsDigits, DecimalValue;
  }

  lemma OldTail(raw: string, h: Head, p: string, q: string, t: string, mark: char, body: string)
    requires OldRecord(raw, h, p, q, t, mark, body)
    ensures BaselineBody(h.tail) == Some(body) && raw != ""
  {
    hide IsDigits, DecimalValue;
    assert h.tail[2..|h.tail| - 1] == body;
  }

  /** Every record is one the capture takes, and so tells of no lost messages. */
  predicate AllTaken(records: seq<string>) {
    forall k :: 0 <= k < |records| ==> Header(records[k], false).Ok?
  }

  lemma TakenSnoc(records: seq<string>, raw: string)
    requires AllTaken(records) && Header(raw, false).Ok?
    ensures AllTaken(records + [raw])
  {
    hide Header;
  }

  /** Records that follow each other without a gap, in number and in time. */
  predicate Unbroken(records: seq<string>) {
    forall k :: 0 <= k < |records| ==> UnbrokenAt(records, k)
  }

  predicate UnbrokenAt(records: seq<string>, k: nat)
    requires k < |records|
  {
    && Header(records[k], true).Ok?
    && (k > 0 && Header(records[k - 1], true).Ok? ==>
          && Header(records[k], true).value.sequence == Header(records[k - 1], true).value.sequence + 1
          && Header(records[k - 1], true).value.stamp <= Header(records[k], true).value.stamp)
  }

  lemma UnbrokenSnoc(records: seq<string>, raw: string)
    requires Unbroken(records) && UnbrokenAt(records + [raw], |records|)
    ensures Unbroken(records + [raw])
  {
    hide Header;
    forall k | 0 <= k < |records + [raw]|
      ensures UnbrokenAt(records + [raw], k)
    {
      if k < |records| {
        assert UnbrokenAt(records, k);
      }
    }
  }

  lemma JoinSnoc(records: seq<string>, raw: string)
    ensures |Join(records + [raw])| == |Join(records)| + |raw|
  {
    JoinConcat(records, [raw]);
    assert Join([raw]) == raw + Join([raw][1..]) == raw;
  }

  // ----- what the correlator demands -----

  datatype Interval = Interval(baseline: nat, startUs: nat, endUs: nat, records: seq<string>)

  /** One record in its place: readable, next in sequence, and neither early nor late. */
  predicate InPlace(raw: string, sequence: nat, fromUs: nat, toUs: nat) {
    var h := SplitHead(raw);
    && h.Some? && InRange(h.value) && h.value.sequence == sequence && fromUs <= h.value.stamp <= toUs
    && ReaderBody(h.value.tail).Some? && Ascii(ReaderBody(h.value.tail).value)
  }

  predicate Ascii(s: string) {
    forall k :: 0 <= k < |s| ==> s[k] as int < 128
  }

  function Stamp(raw: string): nat {
    if SplitHead(raw).Some? then SplitHead(raw).value.stamp else 0
  }

  /** The time no record at `k` may lie before: its predecessor's. */
  function Since(startUs: nat, records: seq<string>, k: nat): nat
    requires k <= |records|
  {
    if k == 0 then startUs else Stamp(records[k - 1])
  }

  predicate InPlaceAt(baseline: nat, startUs: nat, endUs: nat, records: seq<string>, k: nat)
    requires k < |records|
  {
    InPlace(records[k], baseline + k + 1, Since(startUs, records, k), endUs)
  }

  predicate InOrder(baseline: nat, startUs: nat, endUs: nat, records: seq<string>) {
    forall k :: 0 <= k < |records| ==> InPlaceAt(baseline, startUs, endUs, records, k)
  }

  predicate Sized(records: seq<string>) {
    && |records| <= MAX_RECORDS && |Join(records)| <= MAX_CAPTURE_BYTES
    && forall k :: 0 <= k < |records| ==> 0 < |records[k]| <= MAX_RECORD_BYTES
  }

  predicate WindowFits(i: Interval) {
    && i.baseline <= MAX_COUNTER - MAX_RECORDS && i.startUs <= MAX_COUNTER && i.endUs <= MAX_COUNTER
    && 0 <= i.endUs - i.startUs <= MAX_WINDOW_US
  }

  /** Everything the correlator asks of an interval, its records' meaning and their presence aside. */
  predicate Correlatable(i: Interval) {
    WindowFits(i) && Sized(i.records) && InOrder(i.baseline, i.startUs, i.endUs, i.records)
  }

  lemma InPlaceLater(raw: string, sequence: nat, fromUs: nat, toUs: nat, later: nat)
    requires InPlace(raw, sequence, fromUs, toUs) && toUs <= later
    ensures InPlace(raw, sequence, fromUs, later)
  {
    hide SplitHead, ReaderBody, Ascii, InRange;
  }

  lemma InOrderLater(baseline: nat, startUs: nat, endUs: nat, later: nat, records: seq<string>)
    requires InOrder(baseline, startUs, endUs, records) && endUs <= later
    ensures InOrder(baseline, startUs, later, records)
  {
    hide InPlace;
    forall k | 0 <= k < |records|
      ensures InPlaceAt(baseline, startUs, later, records, k)
    {
      assert InPlaceAt(baseline, startUs, endUs, records, k);
      InPlaceLater(records[k], baseline + k + 1, Since(startUs, records, k), endUs, later);
    }
  }

  lemma InOrderSnoc(baseline: nat, startUs: nat, endUs: nat, later: nat, records: seq<string>, raw: string)
    requires InOrder(baseline, startUs, endUs, records) && endUs <= later
    requires InPlace(raw, baseline + |records| + 1, Since(startUs, records, |records|), later)
    ensures InOrder(baseline, startUs, later, records + [raw])
  {
    hide InPlace, Stamp;
    InOrderLater(baseline, startUs, endUs, later, records);
    var more := records + [raw];
    forall k | 0 <= k < |more|
      ensures InPlaceAt(baseline, startUs, later, more, k)
    {
      if k < |records| {
        assert InPlaceAt(baseline, startUs, later, records, k);
        assert more[k] == records[k];
      }
      assert Since(startUs, more, k) == Since(startUs, records, k);
    }
  }

  /** A record the capture lets in stands in its place for the correlator. */
  lemma CapturedInPlace(raw: string, sequence: nat, fromUs: nat, toUs: nat)
    requires var h := Header(raw, false);
      h.Ok? && h.value.sequence == sequence && fromUs <= h.value.stamp <= toUs
    ensures InPlace(raw, sequence, fromUs, toUs) && Stamp(raw) == Header(raw, false).value.stamp
  {
    hide Suppressed, SplitHead;
    var h := SplitHead(raw);
    StrictIsRead(h.value.tail);
  }

  lemma SizedSnoc(records: seq<string>, raw: string)
    requires Sized(records) && |records| < MAX_RECORDS && 0 < |raw| <= MAX_RECORD_BYTES
    requires |Join(records)| + |raw| <= MAX_CAPTURE_BYTES
    ensures Sized(records + [raw]) && |Join(records + [raw])| == |Join(records)| + |raw|
  {
    JoinConcat(records, [raw]);
    assert Join([raw]) == raw + Join([raw][1..]) == raw;
  }

  // ----- the correlator's loop -----

  /** What a record's body says of the worker: nothing, something malformed or unexpected, or the denial. */
  datatype Attribution = Unrelated | Improper | Denial(serial: nat)

  datatype Refusal =
    | BadSyscall | BadWindow | BadBound | BadRecord | BadGap | BadTime | Malformed | Missing | Ambiguous

  datatype Match = Match(sequence: nat, serial: nat)

  /** What the correlator makes of the record at `k`. */
  function Verdict(i: Interval, judge: (nat, string) -> Attribution, k: nat): Attribution
    requires k < |i.records| && InOrder(i.baseline, i.startUs, i.endUs, i.records)
  {
    assert InPlaceAt(i.baseline, i.startUs, i.endUs, i.records, k);
    var h := SplitHead(i.records[k]).value;
    judge(h.priority, ReaderBody(h.tail).value)
  }

  /** The records up to `n` that show the denial. */
  function Denials(i: Interval, judge: (nat, string) -> Attribution, n: nat): seq<Match>
    requires n <= |i.records| && InOrder(i.baseline, i.startUs, i.endUs, i.records)
  {
    if n == 0 then []
    else
      Denials(i, judge, n - 1)
        + match Verdict(i, judge, n - 1)
          case Denial(serial) => [Match(i.baseline + n, serial)]
          case _ => []
  }

  lemma {:induction false} NoDenials(i: Interval, judge: (nat, string) -> Attribution, n: nat)
    requires n <= |i.records| && InOrder(i.baseline, i.startUs, i.endUs, i.records)
    requires Denials(i, judge, n) == []
    ensures forall k :: 0 <= k < n ==> !Verdict(i, judge, k).Denial?
  {
    hide Verdict, InOrder;
    if n > 0 {
      NoDenials(i, judge, n - 1);
    }
  }

  /** A single match is the one record that shows the denial. */
  lemma {:induction false} OneDenial(i: Interval, judge: (nat, string) -> Attribution, n: nat) returns (k: nat)
    requires n <= |i.records| && InOrder(i.baseline, i.startUs, i.endUs, i.records)
    requires |Denials(i, judge, n)| == 1
    ensures k < n && Verdict(i, judge, k).Denial?
    ensures Denials(i, judge, n) == [Match(i.baseline + k + 1, Verdict(i, judge, k).serial)]
    ensures forall j :: 0 <= j < n && Verdict(i, judge, j).Denial? ==> j == k
  {
    hide Verdict, InOrder;
    if Verdict(i, judge, n - 1).Denial? {
      k := n - 1;
      NoDenials(i, judge, n - 1);
    } else {
      k := OneDenial(i, judge, n - 1);
    }
  }

  predicate AllProper(i: Interval, judge: (nat, string) -> Attribution, n: nat)
    requires n <= |i.records| && InOrder(i.baseline, i.startUs, i.endUs, i.records)
  {
    forall k :: 0 <= k < n ==> !Verdict(i, judge, k).Improper?
  }

  /** The record at `k` is in range and in its place, and its body is one line of ASCII behind a dash. */
  ghost predicate KeptAt(i: Interval, k: nat)
    requires k < |i.records|
  {
    exists h, body ::
      && SplitHead(i.records[k]) == Some(h) && h.sequence == i.baseline + k + 1
      && h.priority <= 191 && h.stamp <= i.endUs && (if k == 0 then i.startUs else Stamp(i.records[k - 1])) <= h.stamp
      && (h.tail == "-;" + body || h.tail == "-;" + body + "\n") && OneLine(body)
  }

  /** What an interval must be like before anything in it is believed. */
  ghost predicate WellKept(i: Interval) {
    && i.startUs <= i.endUs <= i.startUs + 5_000_000 && i.endUs <= MAX_COUNTER && i.baseline <= MAX_COUNTER - 64
    && 1 <= |i.records| <= 64 && |Join(i.records)| <= 65536
    && (forall k :: 0 <= k < |i.records| ==> 1 <= |i.records[k]| <= 8192)
    && (forall k :: 0 <= k < |i.records| ==> KeptAt(i, k))
  }

  lemma CorrelatableExactly(i: Interval)
    ensures Correlatable(i) && i.records != [] <==> WellKept(i)
  {
    hide SplitHead, Stamp;
    forall k | 0 <= k < |i.records|
      ensures i.endUs <= MAX_COUNTER && i.baseline <= MAX_COUNTER - 64 && |i.records| <= 64 ==>
        (KeptAt(i, k) <==> InPlaceAt(i.baseline, i.startUs, i.endUs, i.records, k))
    {
      if i.endUs <= MAX_COUNTER && i.baseline <= MAX_COUNTER - 64 && |i.records| <= 64 {
        KeptIsInPlace(i, k);
      }
    }
    hide KeptAt, InPlaceAt;
  }

  lemma KeptIsInPlace(i: Interval, k: nat)
    requires k < |i.records| <= 64 && i.endUs <= MAX_COUNTER && i.baseline <= MAX_COUNTER - 64
    ensures KeptAt(i, k) <==> InPlaceAt(i.baseline, i.startUs, i.endUs, i.records, k)
  {
    hide SplitHead, Stamp;
    if SplitHead(i.records[k]).Some? {
      var h := SplitHead(i.records[k]).value;
      BodyIs(h.tail);
    }
  }

  predicate OneLine(body: string) {
    body != "" && forall j :: 0 <= j < |body| ==> body[j] as int < 128 && body[j] != '\n' && body[j] != '\r'
  }

  lemma BodyIs(tail: string)
    ensures ReaderBody(tail).Some? && Ascii(ReaderBody(tail).value) ==>
      var body := ReaderBody(tail).value; (tail == "-;" + body || tail == "-;" + body + "\n") && OneLine(body)
    ensures forall body :: (tail == "-;" + body || tail == "-;" + body + "\n") && OneLine(body) ==>
      ReaderBody(tail) == Some(body) && Ascii(body)
  {
    if ReaderBody(tail).Some? {
      BodyRead(tail, ReaderBody(tail).value);
    }
    hide ReaderBody, Ascii, OneLine;
    forall body | (tail == "-;" + body || tail == "-;" + body + "\n") && OneLine(body)
      ensures ReaderBody(tail) == Some(body) && Ascii(body)
    {
      BodyPrinted(tail, body);
    }
  }

  lemma BodyRead(tail: string, body: string)
    requires ReaderBody(tail) == Some(body)
    ensures (tail == "-;" + body || tail == "-;" + body + "\n") && (Ascii(body) ==> OneLine(body))
  {
    if EndsWithLf(tail) {
      assert tail == "-;" + body + "\n";
    } else {
      assert tail == "-;" + body;
    }
  }

  lemma BodyPrinted(tail: string, body: string)
    requires (tail == "-;" + body || tail == "-;" + body + "\n") && OneLine(body)
    ensures ReaderBody(tail) == Some(body) && Ascii(body)
  {
    if tail == "-;" + body {
      assert tail[|tail| - 1] == body[|body| - 1] && tail[2..] == body;
    } else {
      assert tail[|tail| - 1] == '\n' && tail[2..|tail| - 1] == body;
    }
  }

  /**
   Look for the one denial in an interval.  On a correlatable interval that holds records it judges
   nothing but what they mean; on any other it refuses.
   */
  method Correlate(i: Interval, judge: (nat, string) -> Attribution) returns (r: Result<Match, Refusal>)
    ensures r.Ok? ==> WellKept(i)
    ensures !Correlatable(i) || i.records == [] ==> r.Err?
    ensures Correlatable(i) && i.records != [] ==>
      r == if !AllProper(i, judge, |i.records|) then Err(Malformed)
           else if Denials(i, judge, |i.records|) == [] then Err(Missing)
           else if |Denials(i, judge, |i.records|)| > 1 then Err(Ambiguous)
           else Ok(Denials(i, judge, |i.records|)[0])
  {
    CorrelatableExactly(i);
    hide InRange, ReaderBody, Ascii, SplitHead, WellKept;
    if !WindowFits(i) {
      return Err(BadWindow);
    }
    if i.records == [] || !Sized(i.records) {
      return Err(BadBound);
    }
    hide Sized;
    var matched: seq<Match> := [];
    var previousUs := i.startUs;
    for k := 0 to |i.records|
      invariant previousUs == Since(i.startUs, i.records, k)
      invariant forall j :: 0 <= j < k ==> InPlaceAt(i.baseline, i.startUs, i.endUs, i.records, j)
      invariant Correlatable(i) ==> AllProper(i, judge, k) && matched == Denials(i, judge, k)
    {
      var raw := i.records[k];
      ghost var here := InPlaceAt(i.baseline, i.startUs, i.endUs, i.records, k);
      var head := SplitHead(raw);
      if head.None? || ReaderBody(head.value.tail).None? || !InRange(head.value) {
        assert !here;
        return Err(BadRecord);
      }
      var h := head.value;
      if h.sequence != i.baseline + k + 1 {
        assert !here;
        return Err(BadGap);
      }
      if !(previousUs <= h.stamp <= i.endUs) {
        assert !here;
        return Err(BadTime);
      }
      previousUs := h.stamp;
      var body := ReaderBody(h.tail).value;
      if !Ascii(body) {
        assert !here;
        return Err(BadRecord);
      }
      assert here;
      var verdict := judge(h.priority, body);
      assert Correlatable(i) ==> verdict == Verdict(i, judge, k);
      match verdict {
        case Unrelated =>
        case Improper =>
          return Err(Malformed);
        case Denial(serial) =>
          matched := matched + [Match(h.sequence, serial)];
      }
    }
    r := if matched == [] then Err(Missing) else if |matched| > 1 then Err(Ambiguous) else Ok(matched[0]);
  }

  // ----- the capture -----

  datatype ReadOutcome = Record(raw: string) | Empty | ReadFault(why: Failure)

  /** The device and the clock.  How many looks find time left, and when records turn up, is arbitrary. */
  class Guest {
    /** Every record the device will ever give this reader, and how many it has given. */
    const log: seq<string>
    var position: nat
    var looks: nat

    constructor (log: seq<string>, looks: nat)
      ensures this.log == log && position == 0
    {
      this.log, position, this.looks := log, 0, looks;
    }

    method Time() returns (now: Option<nat>)
      modifies this`looks
      ensures now.Some? ==> looks < old(looks)
      ensures looks <= old(looks)
    {
      now := None;
      if looks > 0 {
        looks := looks - 1;
        now := *;
      }
    }

    /** A whole record, none for now, or a fault. */
    method Read() returns (r: ReadOutcome)
      requires position <= |log|
      modifies this`position
      ensures position <= |log|
      ensures r.Record? ==> old(position) < |log| && r.raw == log[old(position)] && position == old(position) + 1
      ensures !r.Record? ==> position == old(position)
    {
      r := *;
      if r.Record? {
        if position < |log| {
          r := Record(log[position]);
          position := position + 1;
        } else {
          r := Empty;
        }
      }
    }

    method Device() returns (same: bool)
    {
      same := *;
    }

    method Pause() returns (ok: bool)
    {
      ok := *;
    }
  }

  /** One read: the time just before it, and whether it found nothing. */
  datatype Glance = Glance(before: nat, empty: bool)

  predicate EmptyFrom(glances: seq<Glance>, k: nat) {
    forall j :: k <= j < |glances| ==> glances[j].empty
  }

  /** Since `k`, at least 100 ms ago, every read found nothing. */
  predicate QuietSince(glances: seq<Glance>, k: nat) {
    k < |glances| && EmptyFrom(glances, k) && glances[|glances| - 1].before - glances[k].before >= QUIET_TAIL_NS
  }

  lemma StillEmpty(glances: seq<Glance>, k: nat, before: nat)
    requires k <= |glances| && EmptyFrom(glances, k)
    ensures EmptyFrom(glances + [Glance(before, true)], k)
  {
  }

  lemma NoneYet(glances: seq<Glance>)
    ensures EmptyFrom(glances, |glances|)
  {
  }

  class NativeKernelCapture {
    const guest: Guest
    const deadline: nat
    var failed: bool
    var finished: bool
    var closed: bool
    var lastNs: nat
    var baselineSequence: nat
    var startUs: nat
    /** Where the baseline ended, and the reads since. */
    ghost var base: nat
    ghost var glances: seq<Glance>

    ghost predicate Valid()
      reads this, guest
    {
      && base <= guest.position <= |guest.log| && lastNs <= MAX_COUNTER * 1000
    }

    /** The cursor stands just behind the record whose number is the baseline. */
    ghost predicate Acquired()
      reads this, guest
    {
      && Valid() && base > 0 && startUs <= lastNs / 1000
      && baselineSequence <= MAX_COUNTER - MAX_RECORDS
      && Header(guest.log[base - 1], true).Ok? && Header(guest.log[base - 1], true).value.sequence == baselineSequence
    }

    constructor (guest: Guest, deadline: nat)
      requires guest.position <= |guest.log|
      ensures this.guest == guest && this.deadline == deadline && Valid() && !failed && !finished && !closed
      ensures base == 0 && glances == []
    {
      this.guest, this.deadline := guest, deadline;
      failed, finished, closed, lastNs, baselineSequence, startUs, base, glances := false, false, false, 0, 0, 0, 0, [];
    }

    /** The time, unless the clock fell back, the session was cancelled, or the deadline is past. */
    method Check() returns (now: Option<nat>)
      requires Valid()
      modifies this`lastNs, guest`looks
      ensures Valid() && old(lastNs) <= lastNs
      ensures now.Some? ==> now.value == lastNs && guest.looks < old(guest.looks)
      ensures guest.looks <= old(guest.looks)
    {
      now := guest.Time();
      if now.None? || !(lastNs <= now.value <= MAX_COUNTER * 1000) {
        return None;
      }
      lastNs := now.value;
      var stopped: bool := *;
      if stopped || lastNs >= deadline {
        now := None;
      }
    }

    /** What came before the cursor: not too much, and without a gap. */
    ghost predicate Drained()
      reads this`base, guest
    {
      && base <= guest.position <= |guest.log| && base <= MAX_BASELINE_RECORDS
      && |Join(guest.log[..base])| <= MAX_BASELINE_BYTES && Unbroken(guest.log[..base])
    }

    /** Drain what the log already holds; the last record's number is the baseline. */
    method Baseline() returns (why: Option<Failure>)
      requires Valid() && base == 0 && guest.position == 0
      modifies this`lastNs, this`baselineSequence, this`startUs, this`base, guest`looks, guest`position
      ensures Valid()
      ensures why.None? ==> Acquired() && base == guest.position && Drained()
    {
      hide Header, Unbroken, UnbrokenAt;
      NothingDrained();
      var count, size := 0, 0;
      var previous: Option<Head> := None;
      while true
        invariant Valid() && base == 0
        invariant previous.None? ==> guest.position == 0
        invariant previous.Some? ==> guest.position > 0
        invariant previous.Some? ==> Header(guest.log[guest.position - 1], true) == Ok(previous.value)
        invariant Unbroken(guest.log[..guest.position]) && count == guest.position <= MAX_BASELINE_RECORDS
        invariant size == |Join(guest.log[..guest.position])| <= MAX_BASELINE_BYTES
        decreases guest.looks
      {
        var before := Check();
        if before.None? {
          return Some(Budget);
        }
        var read := guest.Read();
        var after := Check();
        if after.None? {
          return Some(Budget);
        }
        match read {
          case ReadFault(fault) =>
            return Some(fault);
          case Empty =>
            if previous.None? || previous.value.sequence > MAX_COUNTER - MAX_RECORDS {
              return Some(BaselineUnknown);
            }
            baselineSequence, startUs := previous.value.sequence, before.value / 1000;
            base := guest.position;
            return None;
          case Record(raw) =>
            count, size := count + 1, size + |raw|;
            if count > MAX_BASELINE_RECORDS || size > MAX_BASELINE_BYTES {
              return Some(BaselineBound);
            }
            var header := Header(raw, true);
            if header.Err? {
              return Some(header.error);
            }
            if header.value.stamp > after.value / 1000
              || (previous.Some? && (header.value.sequence != previous.value.sequence + 1
                                     || header.value.stamp < previous.value.stamp)) {
              return Some(BaselineGap);
            }
            DrainedNext(guest.log, guest.position - 1);
            previous := Some(header.value);
        }
      }
    }

    /** Open the log, or report why not; a capture that could not be opened is failed and closed. */
    static method Acquire(guest: Guest, deadline: nat) returns (c: NativeKernelCapture, r: Result<(), Failure>)
      requires guest.position == 0
      modifies guest
      ensures fresh(c) && c.guest == guest && c.Valid()
      ensures r.Ok? ==> c.Drained()
      ensures r.Ok? ==> c.Acquired() && !c.failed && !c.finished && !c.closed && c.base == guest.position
      ensures r.Err? ==> c.failed && c.closed
    {
      hide Header, Unbroken;
      c := new NativeKernelCapture(guest, deadline);
      var now := c.Check();
      var why: Option<Failure> := if now.None? then Some(Budget) else None;
      if now.Some? && deadline > now.value + MAX_WINDOW_US * 1000 {
        why := Some(Context);
      }
      if why.None? {
        var same := guest.Device();
        why := Some(LogIdentity);
        if same {
          why := c.Baseline();
        }
      }
      if why.None? {
        var same := guest.Device();
        now := c.Check();
        why := if !same then Some(LogIdentity) else if now.None? then Some(Budget) else None;
      }
      if why.Some? {
        c.failed, c.closed := true, true;
        return c, Err(why.value);
      }
      return c, Ok(());
    }

    predicate Live()
      reads this
    {
      !failed && !finished && !closed
    }

    /** The records so far are the log's, in order and within bounds, as far as time `seen`. */
    ghost predicate Collected(records: seq<string>, seen: nat)
      reads this`base, this`baselineSequence, this`startUs, guest`position
    {
      && base <= guest.position <= |guest.log| && records == guest.log[base..guest.position]
      && Sized(records) && InOrder(baselineSequence, startUs, seen, records) && AllTaken(records)
    }

    ghost predicate Quiet(k: nat, sinceNs: nat)
      reads this`glances
    {
      k < |glances| && EmptyFrom(glances, k) && glances[k].before == sinceNs
    }

    /** Add a record to the collection, if it is the next one and neither early nor late. */
    method Collect(ghost records: seq<string>, raw: string, count: nat, size: nat,
                   sequence: nat, stamp: nat, after: nat, ghost seen: nat)
      returns (why: Option<Failure>, nextStamp: nat)
      requires base <= guest.position - 1 < |guest.log| && raw == guest.log[guest.position - 1]
      requires records == guest.log[base..guest.position - 1]
      requires Sized(records) && InOrder(baselineSequence, startUs, seen, records) && seen <= after / 1000
      requires AllTaken(records)
      requires count == |records| && size == |Join(records)| + |raw|
      requires sequence == baselineSequence + |records| && stamp == Since(startUs, records, |records|)
      ensures why.None? ==> Collected(records + [raw], after / 1000) && size == |Join(records + [raw])|
      ensures why.None? ==> nextStamp == Stamp(raw)
    {
      hide Header, InPlace, Stamp, InOrder, Sized, Since, AllTaken;
      if count >= MAX_RECORDS || size > MAX_CAPTURE_BYTES {
        return Some(CaptureBound), stamp;
      }
      var header := Header(raw, false);
      if header.Err? {
        return Some(header.error), stamp;
      }
      nextStamp := header.value.stamp;
      if header.value.sequence != sequence + 1 || !(stamp <= nextStamp <= after / 1000) {
        return Some(CaptureGap), stamp;
      }
      HeaderSized(raw);
      CapturedInPlace(raw, sequence + 1, stamp, after / 1000);
      InOrderSnoc(baselineSequence, startUs, seen, after / 1000, records, raw);
      SizedSnoc(records, raw);
      TakenSnoc(records, raw);
      assert guest.log[base..guest.position] == records + [raw];
      why := None;
    }

    /**
     The interval is everything between the baseline and a cut that 100 ms of empty reads precede,
     ended at the time of the last of these, and the correlator can take it as it is.
     */
    ghost predicate Covers(i: Interval)
      reads this`baselineSequence, this`startUs, this`base, this`glances, guest`position
    {
      && i.baseline == baselineSequence && i.startUs == startUs
      && base <= guest.position <= |guest.log| && i.records == guest.log[base..guest.position]
      && glances != [] && i.endUs == glances[|glances| - 1].before / 1000
      && (exists k :: QuietSince(glances, k))
      && Correlatable(i) && AllTaken(i.records)
    }

    /** End the interval at the time of the last empty read, if the quiet has lasted long enough by then. */
    method CutHere(records: seq<string>, before: nat, ghost quiet: nat, sinceNs: nat, ghost seen: nat)
      returns (r: Result<Interval, Failure>)
      requires Acquired() && Collected(records, seen) && startUs <= seen <= before / 1000 && before <= lastNs
      requires Quiet(quiet, sinceNs) && glances[|glances| - 1].before == before && before - sinceNs >= QUIET_TAIL_NS
      modifies this`lastNs, guest`looks
      ensures Acquired()
      ensures r.Ok? ==> Covers(r.value)
    {
      hide Header, InPlace, Stamp, InOrder, Sized, Since, EmptyFrom, AllTaken;
      var endUs := before / 1000;
      if !(0 <= endUs - startUs <= MAX_WINDOW_US) {
        return Err(CaptureWindow);
      }
      assert QuietSince(glances, quiet);
      InOrderLater(baselineSequence, startUs, seen, endUs, records);
      var same := guest.Device();
      var now := Check();
      var interval := Interval(baselineSequence, startUs, endUs, records);
      assert Covers(interval);
      r := if !same then Err(LogIdentity) else if now.None? then Err(Budget) else Ok(interval);
    }

    /** Note an empty read: a stretch of them begins or goes on. */
    method NoteEmpty(before: nat, quietSince: Option<nat>, ghost quiet: nat) returns (since: nat, ghost from: nat)
      requires quietSince.Some? ==> Quiet(quiet, quietSince.value)
      modifies this`glances
      ensures Quiet(from, since) && glances == old(glances) + [Glance(before, true)]
    {
      ghost var earlier := glances;
      glances := glances + [Glance(before, true)];
      since, from := before, |earlier|;
      if quietSince.Some? {
        since, from := quietSince.value, quiet;
      } else {
        NoneYet(earlier);
      }
      StillEmpty(earlier, from, before);
    }

    /** The loop of Finish. */
    method Gather() returns (r: Result<Interval, Failure>)
      requires Acquired() && guest.position == base
      modifies this`lastNs, this`glances, guest`looks, guest`position
      ensures Acquired()
      ensures r.Ok? ==> Covers(r.value)
    {
      hide Header, InPlace, Stamp, InOrder, Sized, Since, EmptyFrom, Covers, AllTaken, Quiet;
      var same := guest.Device();
      if !same {
        return Err(LogIdentity);
      }
      glances := [];
      var records: seq<string>, size, sequence, stamp := [], 0, baselineSequence, startUs;
      var quietSince: Option<nat> := None;
      ghost var quiet: nat, seen: nat := 0, startUs;
      NothingCollected(baselineSequence, startUs);
      while true
        invariant Acquired() && Collected(records, seen) && startUs <= seen <= lastNs / 1000
        invariant size == |Join(records)| && sequence == baselineSequence + |records|
        invariant stamp == Since(startUs, records, |records|)
        invariant quietSince.Some? ==> Quiet(quiet, quietSince.value)
        decreases guest.looks
      {
        var before := Check();
        if before.None? {
          return Err(Budget);
        }
        var read := guest.Read();
        var after := Check();
        if after.None? {
          return Err(Budget);
        }
        match read {
          case ReadFault(fault) =>
            return Err(fault);
          case Empty =>
            var since;
            since, quiet := NoteEmpty(before.value, quietSince, quiet);
            quietSince := Some(since);
            if before.value - since >= QUIET_TAIL_NS {
              r := CutHere(records, before.value, quiet, since, seen);
              return;
            }
            var paused := guest.Pause();
            if !paused {
              return Err(LogRead);
            }
          case Record(raw) =>
            glances := glances + [Glance(before.value, false)];
            quietSince, size := None, size + |raw|;
            var why: Option<Failure>;
            why, stamp := Collect(records, raw, |records|, size, sequence, stamp, after.value, seen);
            if why.Some? {
              return Err(why.value);
            }
            SinceLast(startUs, records, raw);
            sequence, records, seen := sequence + 1, records + [raw], after.value / 1000;
        }
      }
    }

    /**
     Collect until 100 ms of empty reads.  A capture that finishes has exactly the records that came
     between its baseline and that quiet stretch, and the correlator can take them as they are.
     */
    method Finish() returns (r: Result<Interval, Failure>)
      requires Valid() && (Live() ==> Acquired() && guest.position == base)
      modifies this`failed, this`finished, this`lastNs, this`glances, guest`looks, guest`position
      ensures Valid()
      ensures old(failed) || old(finished) || old(closed) ==> r == Err(Terminal) && guest.position == old(guest.position)
      ensures !old(Live()) ==> r == Err(Terminal) && guest.position == old(guest.position)
      ensures r.Err? && old(Live()) ==> failed && !finished
      ensures r.Ok? ==> old(Live()) && finished && Acquired()
      ensures r.Ok? ==> Covers(r.value)
    {
      hide Covers, Header;
      if !Live() {
        return Err(Terminal);
      }
      r := Gather();
      if r.Err? {
        failed := true;
      } else {
        finished := true;
      }
    }
  }

  lemma NothingDrained()
    ensures Unbroken([]) && Join([]) == ""
  {
  }

  lemma DrainedNext(log: seq<string>, n: nat)
    requires n < |log| && Unbroken(log[..n])
    requires Header(log[n], true).Ok?
    requires n > 0 && Header(log[n - 1], true).Ok? ==>
      && Header(log[n], true).value.sequence == Header(log[n - 1], true).value.sequence + 1
      && Header(log[n - 1], true).value.stamp <= Header(log[n], true).value.stamp
    ensures Unbroken(log[..n + 1]) && |Join(log[..n + 1])| == |Join(log[..n])| + |log[n]|
  {
    hide Header, Unbroken;
    assert log[..n + 1] == log[..n] + [log[n]];
    JoinSnoc(log[..n], log[n]);
    UnbrokenSnoc(log[..n], log[n]);
  }

  lemma NothingCollected(baseline: nat, startUs: nat)
    ensures AllTaken([]) && Sized([]) && InOrder(baseline, startUs, startUs, []) && Since(startUs, [], 0) == startUs
  {
  }

  lemma SinceLast(startUs: nat, records: seq<string>, raw: string)
    ensures Since(startUs, records + [raw], |records| + 1) == Stamp(raw)
  {
    hide Stamp;
    assert (records + [raw])[|records|] == raw;
  }

  lemma HeaderSized(raw: string)
    ensures Header(raw, false).Ok? ==> 0 < |raw| <= MAX_RECORD_BYTES
  {
    hide SplitHead, StrictBody, Suppressed;
  }
}
