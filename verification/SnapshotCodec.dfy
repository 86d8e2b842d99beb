/**
 The canonical snapshot text: one JSON object (RFC 8259) with sorted keys, no spaces and base64
 file contents, whose bytes are digested as a whole.

 Every string in it comes from a character set JSON does not escape, so the reader here handles
 exactly that shape; a text in any other JSON spelling is refused by the canonicity check anyway.
 */
module SnapshotCodec {
  import opened Wrappers
  import opened Text
  import opened Snapshots
  import Base64

  /** SHA-256 in lowercase hexadecimal, as an uninterpreted function. */
  type Digest = string -> string

  ghost predicate IsDigestFunction(sha: Digest) {
    forall s :: IsDigest(sha(s))
  }

  datatype SnapshotError = TooLarge | NotJson | BadEnvelope | BadRecord | BadEncoding | DigestMismatch | Unencodable | NotCanonical

  // ----- writing -----

  datatype Record = Record(data: string, mode: string, path: string, sha256: string)

  const DATA := "{\"data\":\""
  const MODE := "\",\"mode\":\""
  const PATH := "\",\"path\":\""
  const SHA := "\",\"sha256\":\""
  const RECORD_END := "\"}"
  const FILES := "{\"files\":["
  const IMAGE := "],\"image_sha256\":\""
  const JOB := "\",\"job_id\":\""
  const REPOSITORY := "\",\"repository_id\":\""
  const REVISION := "\",\"revision\":\""
  const VERSION := "\",\"version\":1}"

  function RecordOf(f: SnapshotFile, sha: Digest): Record {
    Record(Base64.Encode(f.content), f.mode, f.path, sha(f.content))
  }

  function RecordText(r: Record, rest: string): string {
    DATA + (r.data + (MODE + (r.mode + (PATH + (r.path + (SHA + (r.sha256 + (RECORD_END + rest))))))))
  }

  function RecordsText(records: seq<Record>, rest: string): string {
    if records == [] then rest
    else RecordText(records[0], (if |records| == 1 then "" else ",") + RecordsText(records[1..], rest))
  }

  function EnvelopeText(s: Snapshot): string {
    IMAGE + (s.imageSha256 + (JOB + (s.jobId + (REPOSITORY + (s.repositoryId + (REVISION + (s.revision + VERSION)))))))
  }

  function Records(files: seq<SnapshotFile>, sha: Digest): (r: seq<Record>)
    ensures |r| == |files| && forall k :: 0 <= k < |files| ==> r[k] == RecordOf(files[k], sha)
  {
    if files == [] then [] else [RecordOf(files[0], sha)] + Records(files[1..], sha)
  }

  function SnapshotText(s: Snapshot, sha: Digest): string {
    FILES + RecordsText(Records(s.files, sha), EnvelopeText(s))
  }

  function Encode(s: Snapshot, sha: Digest): Result<string, SnapshotError> {
    if !ValidSnapshot(s) then Err(Unencodable)
    else
      var text := SnapshotText(s, sha);
      if |text| > MAX_SNAPSHOT_BYTES then Err(TooLarge) else Ok(text)
  }

  // ----- reading -----

  /** The characters between `key` and the next quote, and the text from that quote on. */
  function ReadField(s: string, key: string): Option<(string, string)> {
    match Drop(s, key)
    case None => None
    case Some(t) => Some(CutAt(t, '"'))
  }

  function ReadRecord(s: string): (r: Option<(Record, string)>)
    ensures r.Some? ==> |r.value.1| < |s|
  {
    match ReadField(s, DATA)
    case None => None
    case Some((data, s1)) =>
      match ReadField(s1, MODE)
      case None => None
      case Some((mode, s2)) =>
        match ReadField(s2, PATH)
        case None => None
        case Some((path, s3)) =>
          match ReadField(s3, SHA)
          case None => None
          case Some((sha, s4)) =>
            match Drop(s4, RECORD_END)
            case None => None
            case Some(rest) => Some((Record(data, mode, path, sha), rest))
  }

  /** Records separated by commas, up to the closing bracket. */
  function ReadRecords(s: string): Option<(seq<Record>, string)>
    decreases |s|
  {
    if StartsWith(s, "]") then Some(([], s))
    else
      match ReadRecord(s)
      case None => None
      case Some((first, rest)) =>
        if !StartsWith(rest, ",") then (if StartsWith(rest, "]") then Some(([first], rest)) else None)
        else if StartsWith(rest[1..], "]") then None
        else
          match ReadRecords(rest[1..])
          case None => None
          case Some((more, end)) => Some(([first] + more, end))
  }

  datatype Payload = Payload(records: seq<Record>, image: string, job: string, repository: string, revision: string)

  function ReadEnvelope(s: string): Option<(string, string, string, string)> {
    match ReadField(s, IMAGE)
    case None => None
    case Some((image, s1)) =>
      match ReadField(s1, JOB)
      case None => None
      case Some((job, s2)) =>
        match ReadField(s2, REPOSITORY)
        case None => None
        case Some((repository, s3)) =>
          match ReadField(s3, REVISION)
          case None => None
          case Some((revision, s4)) => if s4 == VERSION then Some((image, job, repository, revision)) else None
  }

  function ReadPayload(data: string): Option<Payload> {
    match Drop(data, FILES)
    case None => None
    case Some(s) =>
      match ReadRecords(s)
      case None => None
      case Some((records, rest)) =>
        match ReadEnvelope(rest)
        case None => None
        case Some((image, job, repository, revision)) => Some(Payload(records, image, job, repository, revision))
  }

  /** Check one file record and recover its file. */
  function DecodeRecord(r: Record, sha: Digest): Result<SnapshotFile, SnapshotError> {
    if !IsDigest(r.sha256) || |r.data| > 4 * MAX_FILE_BYTES / 3 + 4 then Err(BadRecord)
    else
      match Base64.Decode(r.data)
      case None => Err(BadEncoding)
      case Some(content) =>
        if sha(content) != r.sha256 then Err(DigestMismatch) else Ok(SnapshotFile(r.path, r.mode, content))
  }

  function DecodeRecords(records: seq<Record>, sha: Digest): Result<seq<SnapshotFile>, SnapshotError> {
    if records == [] then Ok([])
    else
      var n := |records| - 1;
      match DecodeRecords(records[..n], sha)
      case Err(e) => Err(e)
      case Ok(files) =>
        match DecodeRecord(records[n], sha)
        case Err(e) => Err(e)
        case Ok(file) => Ok(files + [file])
  }

  function Decode(data: string, sha: Digest): Result<Snapshot, SnapshotError> {
    if |data| > MAX_SNAPSHOT_BYTES then Err(TooLarge)
    else
      match ReadPayload(data)
      case None => Err(NotJson)
      case Some(p) =>
        if |p.records| > MAX_FILES then Err(BadEnvelope)
        else
          match DecodeRecords(p.records, sha)
          case Err(e) => Err(e)
          case Ok(files) =>
            var s := Snapshot(p.job, p.repository, p.revision, p.image, files);
            match Encode(s, sha)
            case Err(e) => Err(e)
            case Ok(text) => if text == data then Ok(s) else Err(NotCanonical)
  }

  lemma {:induction false} DecodeRecordsStops(records: seq<Record>, sha: Digest, n: nat)
    requires n <= |records| && DecodeRecords(records[..n], sha).Err?
    ensures DecodeRecords(records, sha) == DecodeRecords(records[..n], sha)
  {
    if n < |records| {
      var front := records[..|records| - 1];
      assert front[..n] == records[..n];
      DecodeRecordsStops(front, sha, n);
    } else {
      assert records[..n] == records;
    }
  }

  /** The decoder's loop over the file records computes `Decode`. */
  method DecodeSnapshot(data: string, sha: Digest) returns (r: Result<Snapshot, SnapshotError>)
    ensures r == Decode(data, sha)
  {
    hide ReadPayload, Encode, DecodeRecord;
    if |data| > MAX_SNAPSHOT_BYTES {
      return Err(TooLarge);
    }
    var payload := ReadPayload(data);
    if payload.None? {
      return Err(NotJson);
    }
    var p := payload.value;
    if |p.records| > MAX_FILES {
      return Err(BadEnvelope);
    }
    var files: seq<SnapshotFile> := [];
    for n := 0 to |p.records|
      invariant DecodeRecords(p.records[..n], sha) == Ok(files)
    {
      var file := DecodeRecord(p.records[n], sha);
      assert p.records[..n + 1][..n] == p.records[..n];
      if file.Err? {
        DecodeRecordsStops(p.records, sha, n + 1);
        return Err(file.error);
      }
      files := files + [file.value];
    }
    assert p.records[..|p.records|] == p.records;
    var s := Snapshot(p.job, p.repository, p.revision, p.image, files);
    var encoded := Encode(s, sha);
    if encoded.Err? {
      return Err(encoded.error);
    }
    return if encoded.value == data then Ok(s) else Err(NotCanonical);
  }

  // ----- reading undoes writing -----

  /** A string that can stand between quotes as it is. */
  predicate Plain(s: string) {
    '"' !in s
  }

  lemma ReadFieldOf(key: string, value: string, rest: string)
    requires Plain(value) && rest != "" && rest[0] == '"'
    ensures ReadField(key + (value + rest), key) == Some((value, rest))
  {
    DropOf(key, value + rest);
    CutAtOf(value, rest, '"');
  }

  predicate PlainRecord(r: Record) {
    Plain(r.data) && Plain(r.mode) && Plain(r.path) && Plain(r.sha256)
  }

  predicate PlainRecords(records: seq<Record>) {
    forall k :: 0 <= k < |records| ==> PlainRecord(records[k])
  }

  lemma ReadRecordOf(r: Record, rest: string)
    requires PlainRecord(r)
    ensures ReadRecord(RecordText(r, rest)) == Some((r, rest))
  {
    hide ReadField, Drop, Plain;
    var t4 := RECORD_END + rest;
    var t3 := SHA + (r.sha256 + t4);
    var t2 := PATH + (r.path + t3);
    var t1 := MODE + (r.mode + t2);
    ReadFieldOf(DATA, r.data, t1);
    ReadFieldOf(MODE, r.mode, t2);
    ReadFieldOf(PATH, r.path, t3);
    ReadFieldOf(SHA, r.sha256, t4);
    DropOf(RECORD_END, rest);
  }

  lemma {:induction false} ReadRecordsOf(records: seq<Record>, rest: string)
    requires PlainRecords(records) && StartsWith(rest, "]")
    ensures ReadRecords(RecordsText(records, rest)) == Some((records, rest))
    ensures records != [] ==> !StartsWith(RecordsText(records, rest), "]")
  {
    hide *;
    if records == [] {
      ReadNoRecords(rest);
    } else {
      var more := records[1..];
      var sep := if |records| == 1 then "" else ",";
      var tail := RecordsText(more, rest);
      RecordsTextStep(records, rest);
      ReadRecordsOf(more, rest);
      ReadRecordsStep(records[0], more, sep, tail, rest);
      RecordTextStarts(records[0], sep + tail);
      assert records == [records[0]] + more;
    }
  }

  lemma ReadNoRecords(rest: string)
    requires StartsWith(rest, "]")
    ensures RecordsText([], rest) == rest && ReadRecords(rest) == Some(([], rest))
  {
  }

  lemma RecordsTextStep(records: seq<Record>, rest: string)
    requires PlainRecords(records) && records != []
    ensures PlainRecord(records[0]) && PlainRecords(records[1..])
    ensures var sep := if |records| == 1 then "" else ",";
      RecordsText(records, rest) == RecordText(records[0], sep + RecordsText(records[1..], rest))
    ensures |records| == 1 ==> RecordsText(records[1..], rest) == rest
  {
    hide PlainRecord, RecordText;
  }

  lemma ReadRecordsStep(r: Record, more: seq<Record>, sep: string, tail: string, rest: string)
    requires PlainRecord(r) && StartsWith(rest, "]")
    requires if more == [] then sep == "" && tail == rest else sep == "," && !StartsWith(tail, "]")
    requires ReadRecords(tail) == Some((more, rest))
    ensures ReadRecords(RecordText(r, sep + tail)) == Some(([r] + more, rest))
  {
    hide ReadRecord, RecordText, PlainRecord;
    ReadRecordOf(r, sep + tail);
    RecordTextStarts(r, sep + tail);
    if more == [] {
      assert sep + tail == rest && rest[..1] == "]" && !StartsWith(rest, ",");
      assert [r] + more == [r];
    } else {
      assert (sep + tail)[1..] == tail;
    }
  }

  lemma RecordTextStarts(r: Record, rest: string)
    ensures !StartsWith(RecordText(r, rest), "]")
  {
    assert RecordText(r, rest)[0] == '{';
    assert RecordText(r, rest)[..1][0] == '{';
  }

  lemma ReadEnvelopeOf(s: Snapshot)
    requires Plain(s.imageSha256) && Plain(s.jobId) && Plain(s.repositoryId) && Plain(s.revision)
    ensures ReadEnvelope(EnvelopeText(s)) == Some((s.imageSha256, s.jobId, s.repositoryId, s.revision))
    ensures StartsWith(EnvelopeText(s), "]")
  {
    hide ReadField, Plain;
    var t3 := REVISION + (s.revision + VERSION);
    var t2 := REPOSITORY + (s.repositoryId + t3);
    var t1 := JOB + (s.jobId + t2);
    ReadFieldOf(IMAGE, s.imageSha256, t1);
    ReadFieldOf(JOB, s.jobId, t2);
    ReadFieldOf(REPOSITORY, s.repositoryId, t3);
    ReadFieldOf(REVISION, s.revision, VERSION);
    assert EnvelopeText(s)[..1] == "]";
  }

  lemma HexIsPlain(s: string)
    requires AllHex(s)
    ensures Plain(s)
  {
  }

  lemma PathIsPlain(path: string)
    requires ValidPath(path)
    ensures Plain(path)
  {
    PartsGiveChars(path);
    hide ValidPath;
  }

  lemma DataIsPlain(content: Base64.Bytes)
    ensures Plain(Base64.Encode(content))
  {
    var t := Base64.Encode(content);
    hide Base64.Encode;
    assert forall k :: 0 <= k < |t| ==> Base64.IsSymbol(t[k]);
  }

  lemma RecordIsPlain(f: SnapshotFile, sha: Digest)
    requires ValidEntry(f) && IsDigestFunction(sha)
    ensures PlainRecord(RecordOf(f, sha))
    ensures DecodeRecord(RecordOf(f, sha), sha) == Ok(f)
  {
    hide ValidPath, Base64.Encode, Base64.Decode, Utf8, Plain, AllHex;
    assert IsDigest(sha(f.content));
    PathIsPlain(f.path);
    HexIsPlain(sha(f.content));
    DataIsPlain(f.content);
    ModeIsPlain(f.mode);
    Base64.DecodeOfEncode(f.content);
  }

  lemma ModeIsPlain(mode: string)
    requires ValidMode(mode)
    ensures Plain(mode)
  {
  }

  lemma {:induction false} DecodeRecordsOf(files: seq<SnapshotFile>, sha: Digest)
    requires IsDigestFunction(sha)
    requires forall k :: 0 <= k < |files| ==> ValidEntry(files[k])
    ensures DecodeRecords(Records(files, sha), sha) == Ok(files)
  {
    hide *;
    if files == [] {
      DecodeNoRecords(sha);
    } else {
      var n := |files| - 1;
      DecodeRecordsOf(files[..n], sha);
      RecordIsPlain(files[n], sha);
      RecordsSnoc(files[..n], files[n], sha);
      assert files == files[..n] + [files[n]];
      DecodeSnoc(Records(files[..n], sha), RecordOf(files[n], sha), files[..n], files[n], sha);
    }
  }

  lemma DecodeNoRecords(sha: Digest)
    ensures DecodeRecords(Records([], sha), sha) == Ok([])
  {
  }

  lemma RecordsSnoc(front: seq<SnapshotFile>, file: SnapshotFile, sha: Digest)
    ensures Records(front + [file], sha) == Records(front, sha) + [RecordOf(file, sha)]
  {
    hide *;
  }

  lemma DecodeSnoc(front: seq<Record>, last: Record, files: seq<SnapshotFile>, file: SnapshotFile, sha: Digest)
    requires DecodeRecords(front, sha) == Ok(files) && DecodeRecord(last, sha) == Ok(file)
    ensures DecodeRecords(front + [last], sha) == Ok(files + [file])
  {
    hide DecodeRecord;
    assert (front + [last])[..|front|] == front;
  }

  lemma RecordsArePlain(files: seq<SnapshotFile>, sha: Digest)
    requires IsDigestFunction(sha)
    requires forall k :: 0 <= k < |files| ==> ValidEntry(files[k])
    ensures PlainRecords(Records(files, sha))
  {
    hide ValidEntry, PlainRecord, RecordOf;
    forall k | 0 <= k < |files|
      ensures PlainRecord(Records(files, sha)[k])
    {
      RecordIsPlain(files[k], sha);
    }
  }

  // ----- the size check can never fire -----

  lemma RecordSize(f: SnapshotFile, sha: Digest, rest: string)
    requires ValidEntry(f) && IsDigestFunction(sha)
    ensures 3 * |RecordText(RecordOf(f, sha), rest)| <= 4 * |f.content| + 1067 + 3 * |rest|
  {
    assert IsDigest(sha(f.content));
  }

  lemma {:induction false} TotalFromFront(files: seq<SnapshotFile>)
    requires files != []
    ensures Total(files) == |files[0].content| + Total(files[1..])
  {
    var n := |files| - 1;
    if n > 0 {
      TotalFromFront(files[..n]);
      assert files[..n][1..] == files[1..][..n - 1];
    } else {
      assert files[..n] == [] && files[1..] == [];
    }
  }

  lemma {:induction false} RecordsSize(files: seq<SnapshotFile>, sha: Digest, rest: string)
    requires IsDigestFunction(sha)
    requires forall k :: 0 <= k < |files| ==> ValidEntry(files[k])
    ensures 3 * |RecordsText(Records(files, sha), rest)| <= 4 * Total(files) + 1070 * |files| + 3 * |rest|
  {
    if files != [] {
      RecordsSize(files[1..], sha, rest);
      TotalFromFront(files);
      var records := Records(files, sha);
      assert records[1..] == Records(files[1..], sha);
      var tail := (if |records| == 1 then "" else ",") + RecordsText(records[1..], rest);
      RecordSize(files[0], sha, tail);
      hide RecordText;
    }
  }

  /**
   Every snapshot within the file policy encodes to less than three quarters of the transfer limit:
   encoding fails on policy grounds only.
   */
  lemma SizeCheckNeverFires(s: Snapshot, sha: Digest)
    requires IsDigestFunction(sha)
    ensures Encode(s, sha) != Err(TooLarge)
    ensures Encode(s, sha).Ok? <==> ValidSnapshot(s)
    ensures ValidSnapshot(s) ==> 4 * |SnapshotText(s, sha)| < 3 * MAX_SNAPSHOT_BYTES
  {
    if ValidSnapshot(s) {
      RecordsSize(s.files, sha, EnvelopeText(s));
      assert |EnvelopeText(s)| <= 512;
      hide ValidFiles, RecordsText, EnvelopeText;
    }
  }

  /** Decoding what encoding produced gives the snapshot back. */
  lemma DecodeOfEncode(s: Snapshot, sha: Digest)
    requires IsDigestFunction(sha) && Encode(s, sha).Ok?
    ensures Decode(Encode(s, sha).value, sha) == Ok(s)
  {
    hide ReadRecords, ReadEnvelope, Drop, RecordsText, EnvelopeText, DecodeRecords, Records;
    IdentityIsPlain(s);
    hide ValidSnapshot;
    var records := Records(s.files, sha);
    RecordsArePlain(s.files, sha);
    DecodeRecordsOf(s.files, sha);
    ReadEnvelopeOf(s);
    ReadRecordsOf(records, EnvelopeText(s));
    DropOf(FILES, RecordsText(records, EnvelopeText(s)));
  }

  lemma IdentityIsPlain(s: Snapshot)
    requires ValidSnapshot(s)
    ensures Plain(s.imageSha256) && Plain(s.jobId) && Plain(s.repositoryId) && Plain(s.revision)
    ensures |s.files| <= MAX_FILES && forall k :: 0 <= k < |s.files| ==> ValidEntry(s.files[k])
  {
    HexIsPlain(s.imageSha256);
    HexIsPlain(s.jobId);
    HexIsPlain(s.revision);
    hide ValidEntry;
  }

  /** Only canonical texts are accepted, and no two of them decode to the same snapshot. */
  lemma DecodeIsCanonical(data: string, sha: Digest)
    requires Decode(data, sha).Ok?
    ensures Encode(Decode(data, sha).value, sha) == Ok(data)
  {
    hide ReadPayload, DecodeRecords, ValidSnapshot, SnapshotText;
  }

  /** A text is accepted, as a given snapshot, exactly when it is that snapshot's encoding. */
  lemma DecodeExactly(data: string, s: Snapshot, sha: Digest)
    requires IsDigestFunction(sha)
    ensures Decode(data, sha) == Ok(s) <==> Encode(s, sha) == Ok(data)
  {
    if Encode(s, sha) == Ok(data) {
      DecodeOfEncode(s, sha);
    }
    if Decode(data, sha) == Ok(s) {
      DecodeIsCanonical(data, sha);
    }
  }
}
