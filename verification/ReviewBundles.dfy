/**
 A review bundle is five files written once, in order.  Whatever moment the writer dies at, a later
 read fails, reports the interruption, or returns exactly what was collected.
 */
module ReviewBundles {
  import opened Wrappers
  import opened JsonBounds
  import opened SortedPaths
  import opened Snapshots

  const META_LIMIT: nat := 4096
  const REPORT_LIMIT: nat := 256 * 1024
  const PATCH_LIMIT: nat := 4 * 1024 * 1024

  datatype BundleError = Refused | WriteFailed | Missing | Oversized | BadMarker | BadManifest | BadFile | BadReport

  /** The JSON library and the digest; of the library only `Faithful` is assumed, of the digest its shape. */
  datatype Library = Library(dumps: Json -> string, loads: string -> Option<Json>, sha: string -> string)

  /** A value JSON can print, in canonical form: anything but the floats that are no numbers. */
  predicate Plain(v: Json) {
    match v
    case Null => true
    case Bool(_) => true
    case Str(_) => true
    case Int(_) => true
    case Float(finite, _) => finite
    case List(items) => forall k :: 0 <= k < |items| ==> Plain(items[k])
    case Dict(keys, values) =>
      |keys| == |values| && StrictlySorted(keys) && forall k :: 0 <= k < |values| ==> Plain(values[k])
    case Other => false
  }

  ghost predicate Faithful(lib: Library) {
    && (forall v :: Plain(v) ==> lib.loads(lib.dumps(v)) == Some(v))
    && (forall s :: IsDigest(lib.sha(s)))
  }

  // ----- what is collected -----

  datatype CheckStatus = NotRun | Passed | ChecksFailed | Incomplete

  datatype Cleanup = Unknown | Clean | CleanupFailed

  datatype Operation = Operation(name: string, exitCode: Option<int>, timedOut: bool, truncated: bool)

  datatype Replay =
    Replay(sandbox: string, base: string, patch: string, final: string, matchesFinal: bool, cleanup: Cleanup)

  /**
   What the host observed of a job.  `submitted` is none when the worker's result is missing; `flaws`
   are the texts of its unusable parts; `patch` is none when no patch could be built.
   */
  datatype Evidence = Evidence(
    coding: bool, costCeiling: bool, configured: seq<string>, checks: seq<Operation>, submitted: Option<bool>,
    flaws: seq<string>, diagnostics: seq<string>, exported: bool, patch: Option<string>, changes: nat,
    sandbox: Option<string>, cleanup: Cleanup, base: string, final: string, replay: Option<Replay>)

  function Names(checks: seq<Operation>): set<string> {
    set c | c in checks :: c.name
  }

  predicate DistinctNames(checks: seq<Operation>) {
    forall i, j :: 0 <= i < j < |checks| ==> checks[i].name != checks[j].name
  }

  predicate Whole(c: Operation) {
    !c.timedOut && !c.truncated && c.exitCode.Some?
  }

  function StatusOf(configured: seq<string>, checks: seq<Operation>): CheckStatus {
    if !DistinctNames(checks) || Names(checks) != (set n | n in configured) then
      if configured != [] || checks != [] then Incomplete else NotRun
    else if configured == [] then NotRun
    else if exists c :: c in checks && !Whole(c) then Incomplete
    else if exists c :: c in checks && c.exitCode != Some(0) then ChecksFailed
    else Passed
  }

  /** The receipt of a replay elsewhere that is bound to this very base, patch and result. */
  predicate ReplayBinds(e: Evidence, lib: Library) {
    && e.patch.Some? && e.replay.Some?
    && var r := e.replay.value;
      && IsJob(r.sandbox) && Some(r.sandbox) != e.sandbox
      && r.base == e.base && r.patch == lib.sha(e.patch.value) && r.final == e.final
      && r.matchesFinal && r.cleanup.Clean?
  }

  /** Why a job is not ready; the first kind carries a text of the host's or about the worker's own. */
  datatype Reason =
    | Noted(text: string)
    | ChecksMismatched
    | ResultMissing
    | ExportMissing
    | WorkspaceUnfit
    | SandboxMissing
    | CleanupUnconfirmed
    | NotSubmitted
    | CostUnenforced
    | NoChanges
    | NoChecks
    | ChecksUnpassed
    | ReplayUnverified

  function Text(r: Reason): string {
    match r
    case Noted(text) => text
    case ChecksMismatched => "configured checks have missing, duplicate or unexpected evidence"
    case ResultMissing => "worker result is missing or has the wrong job ID"
    case ExportMissing => "complete final workspace export is missing"
    case WorkspaceUnfit => "final workspace is unsafe, incomplete or unrepresentable"
    case SandboxMissing => "execution sandbox identity is missing"
    case CleanupUnconfirmed => "execution sandbox cleanup is not confirmed clean"
    case NotSubmitted => "worker did not submit a reviewable result"
    case CostUnenforced => "strict USD ceiling has no trusted pre-call enforcement"
    case NoChanges => "coding task has no reviewable changes"
    case NoChecks => "coding task has no configured checks"
    case ChecksUnpassed => "configured checks did not all pass"
    case ReplayUnverified => "patch replay in a separate clean disposable sandbox is unverified"
  }

  function Texts(reasons: seq<Reason>): seq<string> {
    seq(|reasons|, k requires 0 <= k < |reasons| => Text(reasons[k]))
  }

  function Notes(texts: seq<string>): (r: seq<Reason>)
    ensures |r| == |texts|
  {
    seq(|texts|, k requires 0 <= k < |texts| => Noted(texts[k]))
  }

  function When(c: bool, reason: Reason): seq<Reason> { if c then [reason] else [] }

  /** Names of the checks that came back, against those that were asked for. */
  predicate Mismatched(e: Evidence) {
    && (!DistinctNames(e.checks) || Names(e.checks) != (set n | n in e.configured))
    && (e.configured != [] || e.checks != [])
  }

  /** What the guest's side leaves to be desired. */
  function GuestReasons(e: Evidence): seq<Reason> {
    Notes(e.diagnostics)
    + When(Mismatched(e), ChecksMismatched)
    + When(e.submitted.None?, ResultMissing)
    + Notes(e.flaws)
    + When(!e.exported, ExportMissing)
    + When(e.exported && e.patch.None?, WorkspaceUnfit)
  }

  /** What the host's own conditions leave to be desired. */
  function HostReasons(e: Evidence): seq<Reason> {
    When(e.sandbox.None?, SandboxMissing)
    + When(!e.cleanup.Clean?, CleanupUnconfirmed)
    + When(e.submitted != Some(true), NotSubmitted)
    + When(e.costCeiling, CostUnenforced)
  }

  /** What the work and the replay leave to be desired. */
  function TaskReasons(e: Evidence, lib: Library): seq<Reason> {
    When(e.coding && e.changes == 0, NoChanges)
    + When(e.coding && e.configured == [], NoChecks)
    + When(!StatusOf(e.configured, e.checks).Passed? && e.configured != [], ChecksUnpassed)
    + When(!ReplayBinds(e, lib), ReplayUnverified)
  }

  /** Every reason not to call the job ready, in order. */
  function Reasons(e: Evidence, lib: Library): seq<Reason> {
    GuestReasons(e) + HostReasons(e) + TaskReasons(e, lib)
  }

  function StateOf(e: Evidence, lib: Library): string {
    if Reasons(e, lib) == [] && StatusOf(e.configured, e.checks).Passed? then "ready_for_review"
    else if e.patch.None? then "incomplete" else "evidence_only"
  }

  /** Every configured check, and no other, was observed exactly once, whole, and exited with zero. */
  predicate AllChecksPassed(e: Evidence) {
    && e.configured != [] && DistinctNames(e.checks)
    && (forall c :: c in e.checks ==> Whole(c) && c.exitCode == Some(0) && c.name in e.configured)
    && (forall n :: n in e.configured ==> n in Names(e.checks))
  }

  lemma StatusMeans(e: Evidence)
    ensures StatusOf(e.configured, e.checks).Passed? <==> AllChecksPassed(e)
  {
    var names := set n | n in e.configured;
    if AllChecksPassed(e) {
      assert Names(e.checks) == names;
    }
    if StatusOf(e.configured, e.checks).Passed? {
      forall c | c in e.checks
        ensures c.name in e.configured
      {
        assert c.name in Names(e.checks);
      }
    }
  }

  /** Ready for review exactly with everything in order; a replay is part of it. */
  lemma ReadyMeans(e: Evidence, lib: Library)
    ensures StateOf(e, lib) == "ready_for_review" <==>
      && AllChecksPassed(e) && ReplayBinds(e, lib) && e.diagnostics == [] && e.flaws == []
      && e.submitted == Some(true) && e.exported && e.sandbox.Some? && e.cleanup.Clean? && !e.costCeiling
      && (e.coding ==> e.changes > 0)
  {
    StatusMeans(e);
    NoGuestReasons(e);
    NoHostReasons(e);
    NoTaskReasons(e, lib);
    PassedMatches(e);
    hide AllChecksPassed, ReplayBinds, GuestReasons, HostReasons, TaskReasons, StatusOf, Mismatched;
    NoneOf(GuestReasons(e), HostReasons(e), TaskReasons(e, lib), []);
    BoundPatch(e, lib);
  }

  lemma PassedMatches(e: Evidence)
    ensures StatusOf(e.configured, e.checks).Passed? ==> !Mismatched(e) && e.configured != []
  {
  }

  lemma BoundPatch(e: Evidence, lib: Library)
    ensures ReplayBinds(e, lib) ==> e.patch.Some?
  {
  }

  lemma NoneOf(a: seq<Reason>, b: seq<Reason>, c: seq<Reason>, d: seq<Reason>)
    ensures a + b + c + d == [] <==> a == [] && b == [] && c == [] && d == []
    ensures a + b + c == [] <==> a == [] && b == [] && c == []
    ensures a + b == [] <==> a == [] && b == []
  {
    assert |a + b + c + d| == |a| + |b| + |c| + |d| && |a + b + c| == |a| + |b| + |c| && |a + b| == |a| + |b|;
  }

  lemma Unless(c: bool, reason: Reason)
    ensures When(c, reason) == [] <==> !c
  {
  }

  lemma NoGuestReasons(e: Evidence)
    ensures GuestReasons(e) == [] <==>
      && e.diagnostics == [] && !Mismatched(e) && e.submitted.Some? && e.flaws == [] && e.exported && e.patch.Some?
  {
    hide When, Mismatched;
    Unless(Mismatched(e), ChecksMismatched);
    Unless(e.submitted.None?, ResultMissing);
    Unless(!e.exported, ExportMissing);
    Unless(e.exported && e.patch.None?, WorkspaceUnfit);
    var first := Notes(e.diagnostics) + When(Mismatched(e), ChecksMismatched)
      + When(e.submitted.None?, ResultMissing) + Notes(e.flaws);
    NoneOf(Notes(e.diagnostics), When(Mismatched(e), ChecksMismatched), When(e.submitted.None?, ResultMissing), Notes(e.flaws));
    NoneOf(first, When(!e.exported, ExportMissing), When(e.exported && e.patch.None?, WorkspaceUnfit), []);
  }

  lemma NoHostReasons(e: Evidence)
    ensures HostReasons(e) == [] <==>
      e.sandbox.Some? && e.cleanup.Clean? && e.submitted == Some(true) && !e.costCeiling
  {
    hide When;
    Unless(e.sandbox.None?, SandboxMissing);
    Unless(!e.cleanup.Clean?, CleanupUnconfirmed);
    Unless(e.submitted != Some(true), NotSubmitted);
    Unless(e.costCeiling, CostUnenforced);
    NoneOf(When(e.sandbox.None?, SandboxMissing), When(!e.cleanup.Clean?, CleanupUnconfirmed),
           When(e.submitted != Some(true), NotSubmitted), When(e.costCeiling, CostUnenforced));
  }

  lemma NoTaskReasons(e: Evidence, lib: Library)
    ensures TaskReasons(e, lib) == [] <==>
      && (e.coding ==> e.changes > 0 && e.configured != [])
      && (e.configured != [] ==> StatusOf(e.configured, e.checks).Passed?) && ReplayBinds(e, lib)
  {
    hide When, StatusOf, ReplayBinds;
    var unpassed := !StatusOf(e.configured, e.checks).Passed? && e.configured != [];
    Unless(e.coding && e.changes == 0, NoChanges);
    Unless(e.coding && e.configured == [], NoChecks);
    Unless(unpassed, ChecksUnpassed);
    Unless(!ReplayBinds(e, lib), ReplayUnverified);
    NoneOf(When(e.coding && e.changes == 0, NoChanges), When(e.coding && e.configured == [], NoChecks),
           When(unpassed, ChecksUnpassed), When(!ReplayBinds(e, lib), ReplayUnverified));
  }

  /** The same checks came back as were asked for, each once. */
  predicate SameChecks(e: Evidence) {
    && DistinctNames(e.checks) && (forall c :: c in e.checks ==> c.name in e.configured)
    && (forall n :: n in e.configured ==> exists c :: c in e.checks && c.name == n)
  }

  lemma SameNames(e: Evidence)
    ensures SameChecks(e) <==> DistinctNames(e.checks) && Names(e.checks) == (set n | n in e.configured)
  {
    var names := set n | n in e.configured;
    if SameChecks(e) {
      forall n | n in names
        ensures n in Names(e.checks)
      {
        var c :| c in e.checks && c.name == n;
      }
      assert Names(e.checks) == names;
    }
    if DistinctNames(e.checks) && Names(e.checks) == names {
      forall c | c in e.checks
        ensures c.name in e.configured
      {
        assert c.name in Names(e.checks);
      }
      forall n | n in e.configured
        ensures exists c :: c in e.checks && c.name == n
      {
        assert n in Names(e.checks);
      }
    }
  }

  /** The other statuses: nothing to run, a failure among whole results, or evidence that is not all there. */
  lemma StatusExactly(e: Evidence)
    ensures StatusOf(e.configured, e.checks).NotRun? <==> e.configured == [] && e.checks == []
    ensures StatusOf(e.configured, e.checks).ChecksFailed? <==>
      && e.configured != [] && SameChecks(e) && (forall c :: c in e.checks ==> !c.timedOut && !c.truncated && c.exitCode.Some?)
      && exists c :: c in e.checks && c.exitCode != Some(0)
    ensures StatusOf(e.configured, e.checks).Incomplete? <==>
      && (e.configured != [] || e.checks != [])
      && (!SameChecks(e) || exists c :: c in e.checks && (c.timedOut || c.truncated || c.exitCode.None?))
  {
    SameNames(e);
    NoNames(e);
    hide Names, DistinctNames, SameChecks;
  }

  lemma NoNames(e: Evidence)
    ensures e.configured == [] && SameChecks(e) ==> e.checks == []
    ensures e.configured == [] && e.checks == [] ==> SameChecks(e)
  {
    if e.checks != [] {
      assert e.checks[0] in e.checks;
    }
  }

  /** A job that is not ready is incomplete exactly when it has no patch to show. */
  lemma StateExactly(e: Evidence, lib: Library)
    ensures StateOf(e, lib) != "ready_for_review" ==>
      StateOf(e, lib) == if e.patch.Some? then "evidence_only" else "incomplete"
  {
    hide Reasons, StatusOf;
  }

  lemma InBoth(a: seq<Reason>, b: seq<Reason>, r: Reason)
    ensures r in a + b <==> r in a || r in b
  {
  }

  lemma InNotes(texts: seq<string>, r: Reason)
    ensures r in Notes(texts) <==> r.Noted? && r.text in texts
  {
    if r.Noted? && r.text in texts {
      var k :| 0 <= k < |texts| && texts[k] == r.text;
      assert Notes(texts)[k] == r;
    }
  }

  lemma InWhen(c: bool, reason: Reason, r: Reason)
    ensures r in When(c, reason) <==> c && r == reason
  {
  }

  /** When each reason is given. */
  predicate Applies(r: Reason, e: Evidence, lib: Library) {
    match r
    case Noted(text) => text in e.diagnostics || text in e.flaws
    case ChecksMismatched => !SameChecks(e) && (e.configured != [] || e.checks != [])
    case ResultMissing => e.submitted.None?
    case ExportMissing => !e.exported
    case WorkspaceUnfit => e.exported && e.patch.None?
    case SandboxMissing => e.sandbox.None?
    case CleanupUnconfirmed => e.cleanup != Clean
    case NotSubmitted => e.submitted != Some(true)
    case CostUnenforced => e.costCeiling
    case NoChanges => e.coding && e.changes == 0
    case NoChecks => e.coding && e.configured == []
    case ChecksUnpassed => e.configured != [] && !AllChecksPassed(e)
    case ReplayUnverified =>
      !(e.patch.Some? && e.replay.Some? && IsJob(e.replay.value.sandbox) && Some(e.replay.value.sandbox) != e.sandbox
        && e.replay.value.base == e.base && e.replay.value.patch == lib.sha(e.patch.value)
        && e.replay.value.final == e.final && e.replay.value.matchesFinal && e.replay.value.cleanup == Clean)
  }

  /** A report's reasons are exactly those that apply. */
  lemma ReasonsExactly(e: Evidence, lib: Library, r: Reason)
    ensures r in Reasons(e, lib) <==> Applies(r, e, lib)
  {
    StatusMeans(e);
    SameNames(e);
    ReplayMeans(e, lib);
    InGuest(e, r);
    InHost(e, r);
    InTask(e, lib, r);
    InBoth(GuestReasons(e) + HostReasons(e), TaskReasons(e, lib), r);
    InBoth(GuestReasons(e), HostReasons(e), r);
    hide GuestReasons, HostReasons, TaskReasons, AllChecksPassed, StatusOf, SameChecks, Names, DistinctNames, ReplayBinds, IsJob;
  }

  lemma ReplayMeans(e: Evidence, lib: Library)
    ensures ReplayBinds(e, lib) <==> !Applies(ReplayUnverified, e, lib)
  {
    hide IsJob;
  }

  lemma InGuest(e: Evidence, r: Reason)
    ensures r in GuestReasons(e) <==>
      || (r.Noted? && (r.text in e.diagnostics || r.text in e.flaws))
      || (r.ChecksMismatched? && Mismatched(e)) || (r.ResultMissing? && e.submitted.None?)
      || (r.ExportMissing? && !e.exported) || (r.WorkspaceUnfit? && e.exported && e.patch.None?)
  {
    hide When, Notes, Mismatched;
    InNotes(e.diagnostics, r);
    InNotes(e.flaws, r);
    InWhen(Mismatched(e), ChecksMismatched, r);
    InWhen(e.submitted.None?, ResultMissing, r);
    InWhen(!e.exported, ExportMissing, r);
    InWhen(e.exported && e.patch.None?, WorkspaceUnfit, r);
    var a, b := Notes(e.diagnostics), When(Mismatched(e), ChecksMismatched);
    var c, d := When(e.submitted.None?, ResultMissing), Notes(e.flaws);
    var f, g := When(!e.exported, ExportMissing), When(e.exported && e.patch.None?, WorkspaceUnfit);
    InBoth(a, b, r);
    InBoth(a + b, c, r);
    InBoth(a + b + c, d, r);
    InBoth(a + b + c + d, f, r);
    InBoth(a + b + c + d + f, g, r);
  }

  lemma InHost(e: Evidence, r: Reason)
    ensures r in HostReasons(e) <==>
      || (r.SandboxMissing? && e.sandbox.None?) || (r.CleanupUnconfirmed? && e.cleanup != Clean)
      || (r.NotSubmitted? && e.submitted != Some(true)) || (r.CostUnenforced? && e.costCeiling)
  {
    hide When;
    InWhen(e.sandbox.None?, SandboxMissing, r);
    InWhen(!e.cleanup.Clean?, CleanupUnconfirmed, r);
    InWhen(e.submitted != Some(true), NotSubmitted, r);
    InWhen(e.costCeiling, CostUnenforced, r);
    var a, b := When(e.sandbox.None?, SandboxMissing), When(!e.cleanup.Clean?, CleanupUnconfirmed);
    var c, d := When(e.submitted != Some(true), NotSubmitted), When(e.costCeiling, CostUnenforced);
    InBoth(a, b, r);
    InBoth(a + b, c, r);
    InBoth(a + b + c, d, r);
  }

  lemma InTask(e: Evidence, lib: Library, r: Reason)
    ensures r in TaskReasons(e, lib) <==>
      || (r.NoChanges? && e.coding && e.changes == 0) || (r.NoChecks? && e.coding && e.configured == [])
      || (r.ChecksUnpassed? && !StatusOf(e.configured, e.checks).Passed? && e.configured != [])
      || (r.ReplayUnverified? && !ReplayBinds(e, lib))
  {
    hide When, StatusOf, ReplayBinds;
    var unpassed := !StatusOf(e.configured, e.checks).Passed? && e.configured != [];
    InWhen(e.coding && e.changes == 0, NoChanges, r);
    InWhen(e.coding && e.configured == [], NoChecks, r);
    InWhen(unpassed, ChecksUnpassed, r);
    InWhen(!ReplayBinds(e, lib), ReplayUnverified, r);
    var a, b := When(e.coding && e.changes == 0, NoChanges), When(e.coding && e.configured == [], NoChecks);
    var c, d := When(unpassed, ChecksUnpassed), When(!ReplayBinds(e, lib), ReplayUnverified);
    InBoth(a, b, r);
    InBoth(a + b, c, r);
    InBoth(a + b + c, d, r);
  }

  // ----- what is stored -----

  /** The report; `details` stands for everything in it that a reader of the bundle does not look at. */
  function Report(job: string, state: string, reasons: seq<string>, details: Json): Json {
    Dict(["details", "job_id", "reasons", "state"], [details, Str(job), List(Strings(reasons)), Str(state)])
  }

  function Strings(texts: seq<string>): (items: seq<Json>)
    ensures |items| == |texts|
  {
    seq(|texts|, k requires 0 <= k < |texts| => Str(texts[k]))
  }

  function Entry(data: string, lib: Library): Json {
    Dict(["sha256", "size"], [Str(lib.sha(data)), Int(|data|)])
  }

  function Manifest(job: string, report: string, patch: Option<string>, lib: Library): Json {
    var files :=
      if patch.Some? then Dict(["patch.diff", "report.json"], [Entry(patch.value, lib), Entry(report, lib)])
      else Dict(["report.json"], [Entry(report, lib)]);
    Dict(["files", "job_id", "version"], [files, Str(job), Int(1)])
  }

  function Marker(job: string, manifest: string, lib: Library): Json {
    Dict(["job_id", "manifest_sha256", "version"], [Str(job), Str(lib.sha(manifest)), Int(1)])
  }

  datatype File = File(name: string, data: string)

  datatype Bundle = Bundle(job: string, state: string, reasons: seq<string>, details: Json, patch: Option<string>)

  function ReportText(b: Bundle, lib: Library): string {
    lib.dumps(Report(b.job, b.state, b.reasons, b.details))
  }

  function ManifestText(b: Bundle, lib: Library): string {
    lib.dumps(Manifest(b.job, ReportText(b, lib), b.patch, lib))
  }

  /** The files of a bundle in the order they are written. */
  function Files(b: Bundle, lib: Library): seq<File> {
    [File("incomplete.json", lib.dumps(Dict(["job_id", "state", "version"], [Str(b.job), Str("incomplete"), Int(1)]))),
     File("report.json", ReportText(b, lib))]
    + (if b.patch.Some? then [File("patch.diff", b.patch.value)] else [])
    + [File("manifest.json", ManifestText(b, lib)),
       File("complete.json", lib.dumps(Marker(b.job, ManifestText(b, lib), lib)))]
  }

  type Directory = map<string, string>

  function Stored(files: seq<File>, n: nat): Directory
    requires n <= |files|
  {
    if n == 0 then map[] else Stored(files, n - 1)[files[n - 1].name := files[n - 1].data]
  }

  /** What a writer that died while writing file `n` leaves: the files before it, and some first part of it. */
  ghost predicate DiedAt(dir: Directory, files: seq<File>, n: nat) {
    && n < |files|
    && (dir == Stored(files, n)
        || exists k :: 0 <= k <= |files[n].data| && dir == Stored(files, n)[files[n].name := files[n].data[..k]])
  }

  // ----- reading it back -----

  datatype Saved = Saved(state: string, reasons: seq<Json>, patch: Option<string>)

  function Load(dir: Directory, name: string, limit: nat): Result<string, BundleError> {
    if name !in dir then Err(Missing) else if |dir[name]| > limit then Err(Oversized) else Ok(dir[name])
  }

  predicate MarkerFits(v: Option<Json>, job: string, manifest: string, lib: Library) {
    && v.Some? && v.value.Dict? && Field(v.value, "job_id") == Some(Str(job))
    && Field(v.value, "version") == Some(Int(1)) && Field(v.value, "manifest_sha256") == Some(Str(lib.sha(manifest)))
  }

  predicate EntryFits(v: Option<Json>, data: string, lib: Library) {
    && v.Some? && v.value.Dict? && KeySet(v.value) == {"size", "sha256"}
    && Field(v.value, "size") == Some(Int(|data|)) && IsDigest(lib.sha(data))
    && Field(v.value, "sha256") == Some(Str(lib.sha(data)))
  }

  predicate ManifestFits(v: Option<Json>, job: string) {
    && v.Some? && v.value.Dict? && Field(v.value, "job_id") == Some(Str(job)) && Field(v.value, "version") == Some(Int(1))
    && Field(v.value, "files").Some? && Field(v.value, "files").value.Dict?
    && "report.json" in KeySet(Field(v.value, "files").value)
    && KeySet(Field(v.value, "files").value) <= {"report.json", "patch.diff"}
  }

  /** One listed file, read and checked against its entry. */
  function Checked(dir: Directory, files: Json, name: string, limit: nat, lib: Library): Result<string, BundleError>
    requires files.Dict?
  {
    match Load(dir, name, limit)
    case Err(why) => Err(why)
    case Ok(data) => if EntryFits(Field(files, name), data, lib) then Ok(data) else Err(BadFile)
  }

  function Read(dir: Directory, job: string, lib: Library): Result<Saved, BundleError> {
    if !IsJob(job) then Err(Refused) else
    var first := Load(dir, "incomplete.json", META_LIMIT);
    if first.Err? then Err(first.error)
    else if "complete.json" !in dir then Ok(Saved("incomplete", [Str("write interrupted")], None))
    else
      match (Load(dir, "complete.json", META_LIMIT), Load(dir, "manifest.json", META_LIMIT))
      case (Ok(marker), Ok(manifest)) =>
        if !MarkerFits(lib.loads(marker), job, manifest, lib) then Err(BadMarker)
        else if !ManifestFits(lib.loads(manifest), job) then Err(BadManifest)
        else ReadFiles(dir, job, Field(lib.loads(manifest).value, "files").value, lib)
      case (Err(why), _) => Err(why)
      case (_, Err(why)) => Err(why)
  }

  function ReadFiles(dir: Directory, job: string, files: Json, lib: Library): Result<Saved, BundleError>
    requires files.Dict?
  {
    var report := Checked(dir, files, "report.json", REPORT_LIMIT, lib);
    if report.Err? then Err(report.error) else
    var patch := if "patch.diff" in KeySet(files) then Checked(dir, files, "patch.diff", PATCH_LIMIT, lib) else Ok("");
    if patch.Err? then Err(patch.error) else
    var v := lib.loads(report.value);
    if v.None? || !v.value.Dict? || Field(v.value, "job_id") != Some(Str(job)) || Field(v.value, "state").None?
      || Field(v.value, "state").value !in {Str("ready_for_review"), Str("incomplete"), Str("evidence_only")} then
      Err(BadReport)
    else
      Ok(Saved(Field(v.value, "state").value.s, ReasonsIn(v.value),
               if "patch.diff" in KeySet(files) then Some(patch.value) else None))
  }

  function ReasonsIn(v: Json): seq<Json>
    requires v.Dict?
  {
    var r := Field(v, "reasons");
    if r.Some? && r.value.List? then r.value.items else []
  }

  // ----- the theorem -----

  /** What a bundle is read back as. */
  function SavedAs(b: Bundle): Saved {
    Saved(b.state, Strings(b.reasons), b.patch)
  }

  lemma Sorted()
    ensures StrictlySorted(["details", "job_id", "reasons", "state"]) && StrictlySorted(["patch.diff", "report.json"])
    ensures StrictlySorted(["report.json"]) && StrictlySorted(["sha256", "size"])
    ensures StrictlySorted(["files", "job_id", "version"]) && StrictlySorted(["job_id", "manifest_sha256", "version"])
  {
  }

  lemma ReportReads(b: Bundle, lib: Library)
    requires Faithful(lib) && Plain(b.details)
    ensures lib.loads(ReportText(b, lib)) == Some(Report(b.job, b.state, b.reasons, b.details))
    ensures var v := Report(b.job, b.state, b.reasons, b.details);
      && Field(v, "job_id") == Some(Str(b.job)) && Field(v, "state") == Some(Str(b.state))
      && ReasonsIn(v) == Strings(b.reasons)
  {
    Sorted();
    hide StrictlySorted, FieldFrom;
    var v := Report(b.job, b.state, b.reasons, b.details);
    assert Plain(List(Strings(b.reasons)));
    assert Plain(v);
    FieldAt(v.keys, v.values, 1);
    FieldAt(v.keys, v.values, 2);
    FieldAt(v.keys, v.values, 3);
  }

  lemma EntryReads(data: string, lib: Library)
    requires Faithful(lib)
    ensures Plain(Entry(data, lib)) && EntryFits(Some(Entry(data, lib)), data, lib)
  {
    Sorted();
    hide StrictlySorted, FieldFrom;
    var v := Entry(data, lib);
    FieldAt(v.keys, v.values, 0);
    FieldAt(v.keys, v.values, 1);
  }

  function ListedFiles(b: Bundle, lib: Library): Json {
    var report := ReportText(b, lib);
    if b.patch.Some? then Dict(["patch.diff", "report.json"], [Entry(b.patch.value, lib), Entry(report, lib)])
    else Dict(["report.json"], [Entry(report, lib)])
  }

  lemma ListedReads(b: Bundle, lib: Library)
    requires Faithful(lib)
    ensures var files := ListedFiles(b, lib);
      && Plain(files) && EntryFits(Field(files, "report.json"), ReportText(b, lib), lib)
      && (b.patch.Some? ==> EntryFits(Field(files, "patch.diff"), b.patch.value, lib))
      && "report.json" in KeySet(files) && KeySet(files) <= {"report.json", "patch.diff"}
      && ("patch.diff" in KeySet(files) <==> b.patch.Some?)
  {
    Sorted();
    hide StrictlySorted, FieldFrom, Entry, EntryFits;
    var files := ListedFiles(b, lib);
    EntryReads(ReportText(b, lib), lib);
    FieldAt(files.keys, files.values, |files.keys| - 1);
    if b.patch.Some? {
      EntryReads(b.patch.value, lib);
      FieldAt(files.keys, files.values, 0);
    }
  }

  lemma ManifestReads(b: Bundle, lib: Library)
    requires Faithful(lib)
    ensures lib.loads(ManifestText(b, lib)) == Some(Manifest(b.job, ReportText(b, lib), b.patch, lib))
    ensures ManifestFits(lib.loads(ManifestText(b, lib)), b.job)
    ensures Field(Manifest(b.job, ReportText(b, lib), b.patch, lib), "files") == Some(ListedFiles(b, lib))
  {
    Sorted();
    ListedReads(b, lib);
    hide StrictlySorted, FieldFrom, ReportText, Entry, EntryFits;
    var v := Manifest(b.job, ReportText(b, lib), b.patch, lib);
    assert v.values[0] == ListedFiles(b, lib);
    hide ListedFiles;
    PlainManifest(b, lib);
    FieldAt(v.keys, v.values, 0);
    FieldAt(v.keys, v.values, 1);
    FieldAt(v.keys, v.values, 2);
  }

  lemma PlainManifest(b: Bundle, lib: Library)
    requires Plain(ListedFiles(b, lib))
    ensures Plain(Manifest(b.job, ReportText(b, lib), b.patch, lib))
  {
    Sorted();
    hide StrictlySorted, ReportText, Entry;
    assert Manifest(b.job, ReportText(b, lib), b.patch, lib).values[0] == ListedFiles(b, lib);
    hide ListedFiles;
  }

  lemma MarkerReads(b: Bundle, lib: Library)
    requires Faithful(lib)
    ensures MarkerFits(lib.loads(lib.dumps(Marker(b.job, ManifestText(b, lib), lib))), b.job, ManifestText(b, lib), lib)
  {
    Sorted();
    hide StrictlySorted, FieldFrom, ManifestText;
    var v := Marker(b.job, ManifestText(b, lib), lib);
    assert Plain(v);
    FieldAt(v.keys, v.values, 0);
    FieldAt(v.keys, v.values, 1);
    FieldAt(v.keys, v.values, 2);
  }

  /** The files a reader relies on stand whole. */
  predicate Present(dir: Directory, b: Bundle, lib: Library) {
    && "manifest.json" in dir && dir["manifest.json"] == ManifestText(b, lib)
    && "report.json" in dir && dir["report.json"] == ReportText(b, lib)
    && (b.patch.Some? ==> "patch.diff" in dir && dir["patch.diff"] == b.patch.value)
  }

  predicate IsState(state: string) {
    state in {"ready_for_review", "incomplete", "evidence_only"}
  }

  predicate Small(dir: Directory) {
    && (forall name :: name in dir && name in {"incomplete.json", "manifest.json", "complete.json"} ==> |dir[name]| <= META_LIMIT)
    && ("report.json" in dir ==> |dir["report.json"]| <= REPORT_LIMIT)
    && ("patch.diff" in dir ==> |dir["patch.diff"]| <= PATCH_LIMIT)
  }

  lemma CheckedReads(dir: Directory, files: Json, name: string, data: string, limit: nat, lib: Library)
    requires files.Dict? && name in dir && dir[name] == data && EntryFits(Field(files, name), data, lib)
    ensures Checked(dir, files, name, limit, lib) == if |data| <= limit then Ok(data) else Err(Oversized)
  {
    hide EntryFits, Field;
  }

  lemma FilesRead(dir: Directory, b: Bundle, lib: Library)
    requires Faithful(lib) && Plain(b.details) && IsState(b.state) && Present(dir, b, lib)
    ensures var r := ReadFiles(dir, b.job, ListedFiles(b, lib), lib);
      (r.Err? || r == Ok(SavedAs(b))) && (Small(dir) ==> r.Ok?)
  {
    ReportReads(b, lib);
    ListedReads(b, lib);
    CheckedReads(dir, ListedFiles(b, lib), "report.json", ReportText(b, lib), REPORT_LIMIT, lib);
    if b.patch.Some? {
      CheckedReads(dir, ListedFiles(b, lib), "patch.diff", b.patch.value, PATCH_LIMIT, lib);
    }
    hide Faithful, Plain, Field, KeySet, Checked, ListedFiles, Report, ReportText, ManifestText, ReasonsIn, Strings;
  }

  /** With the other files whole, whatever the completion marker holds, a reader gets the truth or nothing. */
  lemma MarkedReads(dir: Directory, b: Bundle, lib: Library)
    requires Faithful(lib) && Plain(b.details) && IsState(b.state) && IsJob(b.job) && Present(dir, b, lib)
    requires "complete.json" in dir
    ensures var r := Read(dir, b.job, lib); r.Err? || r == Ok(SavedAs(b))
    ensures Small(dir) && "incomplete.json" in dir && MarkerFits(lib.loads(dir["complete.json"]), b.job, ManifestText(b, lib), lib) ==>
      Read(dir, b.job, lib) == Ok(SavedAs(b))
  {
    FilesRead(dir, b, lib);
    ManifestReads(b, lib);
    hide Faithful, Plain, FieldFrom, KeySet, ReadFiles, ListedFiles, ReportText, ManifestText, Manifest, MarkerFits, ManifestFits, IsJob;
  }

  predicate DistinctFiles(files: seq<File>) {
    forall i, j :: 0 <= i < j < |files| ==> files[i].name != files[j].name
  }

  lemma {:induction false} StoredHas(files: seq<File>, n: nat, k: nat)
    requires k < n <= |files| && DistinctFiles(files)
    ensures files[k].name in Stored(files, n) && Stored(files, n)[files[k].name] == files[k].data
  {
    if k < n - 1 {
      StoredHas(files, n - 1, k);
    }
  }

  lemma {:induction false} StoredLacks(files: seq<File>, n: nat, name: string)
    requires n <= |files| && forall k :: 0 <= k < n ==> files[k].name != name
    ensures name !in Stored(files, n)
  {
    if n > 0 {
      StoredLacks(files, n - 1, name);
    }
  }

  lemma FilesShape(b: Bundle, lib: Library)
    ensures var files := Files(b, lib);
      && DistinctFiles(files) && (forall k :: 0 <= k < |files| - 1 ==> files[k].name != "complete.json")
      && files[0].name == "incomplete.json" && files[1] == File("report.json", ReportText(b, lib))
      && (if b.patch.Some? then |files| == 5 && files[2] == File("patch.diff", b.patch.value) else |files| == 4)
      && files[|files| - 2] == File("manifest.json", ManifestText(b, lib))
      && files[|files| - 1] == File("complete.json", lib.dumps(Marker(b.job, ManifestText(b, lib), lib)))
  {
    hide ReportText, ManifestText, Marker;
  }

  lemma WholeButMarker(b: Bundle, lib: Library)
    ensures var files := Files(b, lib);
      |files| >= 1 && Present(Stored(files, |files| - 1), b, lib) && "complete.json" !in Stored(files, |files| - 1)
  {
    FilesShape(b, lib);
    hide ReportText, ManifestText, Marker, Files, Stored;
    var files := Files(b, lib);
    StoredHas(files, |files| - 1, 1);
    StoredHas(files, |files| - 1, |files| - 2);
    if b.patch.Some? {
      StoredHas(files, |files| - 1, 2);
    }
    StoredLacks(files, |files| - 1, "complete.json");
  }

  /** Reading after a crash: a failure, the interruption, or exactly what was collected. */
  predicate Honest(r: Result<Saved, BundleError>, b: Bundle) {
    r.Err? || r == Ok(Saved("incomplete", [Str("write interrupted")], None)) || r == Ok(SavedAs(b))
  }

  lemma Unmarked(dir: Directory, b: Bundle, lib: Library)
    requires "complete.json" !in dir
    ensures Honest(Read(dir, b.job, lib), b)
  {
    hide IsJob, MarkerFits, ManifestFits, ReadFiles;
  }

  lemma CrashedReads(dir: Directory, b: Bundle, lib: Library, n: nat)
    requires Faithful(lib) && Plain(b.details) && IsState(b.state) && IsJob(b.job)
    requires DiedAt(dir, Files(b, lib), n)
    ensures Honest(Read(dir, b.job, lib), b)
  {
    FilesShape(b, lib);
    WholeButMarker(b, lib);
    hide Files, Stored, Faithful, Plain, IsState, IsJob, Read, Present, ReportText, ManifestText, Marker;
    var files := Files(b, lib);
    if "complete.json" !in dir {
      Unmarked(dir, b, lib);
    } else {
      StoredLacks(files, n, "complete.json");
      assert n == |files| - 1;
      DiedMarking(dir, files, n);
      StillPresent(Stored(files, n), dir["complete.json"], b, lib);
      MarkedReads(dir, b, lib);
    }
  }

  lemma DiedMarking(dir: Directory, files: seq<File>, n: nat)
    requires DiedAt(dir, files, n) && files[n].name in dir && files[n].name !in Stored(files, n)
    ensures dir == Stored(files, n)[files[n].name := dir[files[n].name]]
  {
    hide Stored;
  }

  lemma StillPresent(before: Directory, data: string, b: Bundle, lib: Library)
    requires Present(before, b, lib)
    ensures Present(before["complete.json" := data], b, lib)
  {
  }

  /** A bundle written to the end reads back as itself. */
  lemma FinishedReads(b: Bundle, lib: Library)
    requires Faithful(lib) && Plain(b.details) && IsState(b.state) && IsJob(b.job)
    requires Small(Stored(Files(b, lib), |Files(b, lib)|))
    ensures Read(Stored(Files(b, lib), |Files(b, lib)|), b.job, lib) == Ok(SavedAs(b))
  {
    FilesShape(b, lib);
    WholeButMarker(b, lib);
    MarkerReads(b, lib);
    var files := Files(b, lib);
    var dir := Stored(files, |files|);
    StoredHas(files, |files|, |files| - 1);
    StoredHas(files, |files|, 0);
    assert dir == Stored(files, |files| - 1)["complete.json" := files[|files| - 1].data];
    hide Files, Stored, Faithful, Plain, IsState, IsJob, Read, Present, ReportText, ManifestText, Marker, MarkerFits, Small;
    StillPresent(Stored(files, |files| - 1), files[|files| - 1].data, b, lib);
    MarkedReads(dir, b, lib);
  }

  // ----- any directory at all -----

  /** A JSON text whose object holds `value` under `name`. */
  predicate Holds(text: string, name: string, value: Json, lib: Library) {
    var v := lib.loads(text);
    v.Some? && v.value.Dict? && Field(v.value, name) == Some(value)
  }

  /** A list of files names this one with the length and digest of exactly these bytes. */
  predicate Lists(files: Json, name: string, data: string, lib: Library) {
    && files.Dict? && name in KeySet(files)
    && var entry := Field(files, name);
      && entry.Some? && entry.value.Dict? && KeySet(entry.value) == {"size", "sha256"}
      && Field(entry.value, "size") == Some(Int(|data|)) && Field(entry.value, "sha256") == Some(Str(lib.sha(data)))
      && IsDigest(lib.sha(data))
  }

  /** The marker vouches for the manifest's bytes. */
  predicate MarkerVouches(dir: Directory, job: string, lib: Library) {
    && "incomplete.json" in dir && |dir["incomplete.json"]| <= META_LIMIT
    && "complete.json" in dir && |dir["complete.json"]| <= META_LIMIT
    && "manifest.json" in dir && |dir["manifest.json"]| <= META_LIMIT
    && Holds(dir["complete.json"], "job_id", Str(job), lib) && Holds(dir["complete.json"], "version", Int(1), lib)
    && Holds(dir["complete.json"], "manifest_sha256", Str(lib.sha(dir["manifest.json"])), lib)
  }

  /** The manifest vouches for the bytes of the report and, if it lists one, of the patch, and lists nothing else. */
  predicate ManifestVouches(dir: Directory, job: string, files: Json, lib: Library) {
    && "manifest.json" in dir
    && Holds(dir["manifest.json"], "job_id", Str(job), lib) && Holds(dir["manifest.json"], "version", Int(1), lib)
    && Holds(dir["manifest.json"], "files", files, lib) && files.Dict? && KeySet(files) <= {"report.json", "patch.diff"}
    && "report.json" in dir && |dir["report.json"]| <= REPORT_LIMIT && Lists(files, "report.json", dir["report.json"], lib)
    && ("patch.diff" in KeySet(files) ==>
          "patch.diff" in dir && |dir["patch.diff"]| <= PATCH_LIMIT && Lists(files, "patch.diff", dir["patch.diff"], lib))
  }

  /** And the report is this job's, in a known state. */
  predicate ReportSays(dir: Directory, job: string, files: Json, saved: Saved, lib: Library)
    requires files.Dict? && "report.json" in dir && ("patch.diff" in KeySet(files) ==> "patch.diff" in dir)
  {
    && Holds(dir["report.json"], "job_id", Str(job), lib) && Holds(dir["report.json"], "state", Str(saved.state), lib)
    && IsState(saved.state) && saved.reasons == ReasonsIn(lib.loads(dir["report.json"]).value)
    && saved.patch == if "patch.diff" in KeySet(files) then Some(dir["patch.diff"]) else None
  }

  predicate Vouched(dir: Directory, job: string, files: Json, saved: Saved, lib: Library) {
    && IsJob(job) && MarkerVouches(dir, job, lib) && ManifestVouches(dir, job, files, lib)
    && ReportSays(dir, job, files, saved, lib)
  }

  /**
   Of any directory with a completion marker, a reader gets exactly what is vouched for: the marker holds
   the digest of the manifest's bytes, and the manifest the length and digest of the report's and the patch's.
   */
  lemma ReadExactly(dir: Directory, job: string, lib: Library, saved: Saved)
    requires "complete.json" in dir
    ensures Read(dir, job, lib) == Ok(saved) <==> exists files :: Vouched(dir, job, files, saved, lib)
  {
    hide *;
    if Read(dir, job, lib) == Ok(saved) {
      var files := ReadVouched(dir, job, lib, saved);
    }
    if exists files :: Vouched(dir, job, files, saved, lib) {
      var files :| Vouched(dir, job, files, saved, lib);
      VouchedReads(dir, job, files, saved, lib);
    }
  }

  /** Without a marker it gets the interruption, if the note of the beginning is there, and else nothing. */
  lemma InterruptedExactly(dir: Directory, job: string, lib: Library)
    requires "complete.json" !in dir
    ensures Read(dir, job, lib).Ok? <==> IsJob(job) && "incomplete.json" in dir && |dir["incomplete.json"]| <= 4096
    ensures Read(dir, job, lib).Ok? ==> Read(dir, job, lib).value == Saved("incomplete", [Str("write interrupted")], None)
  {
    hide IsJob;
  }

  lemma CheckedExactly(dir: Directory, files: Json, name: string, limit: nat, lib: Library, data: string)
    requires files.Dict? && name in KeySet(files)
    ensures Checked(dir, files, name, limit, lib) == Ok(data)
      <==> name in dir && data == dir[name] && |data| <= limit && Lists(files, name, data, lib)
  {
    hide KeySet, IsDigest, Field;
  }

  lemma ReadVouched(dir: Directory, job: string, lib: Library, saved: Saved) returns (files: Json)
    requires "complete.json" in dir && Read(dir, job, lib) == Ok(saved)
    ensures Vouched(dir, job, files, saved, lib)
  {
    files := Field(lib.loads(dir["manifest.json"]).value, "files").value;
    hide KeySet, IsDigest, Field, IsJob, Lists, ReadFiles;
    assert ReadFiles(dir, job, files, lib) == Ok(saved);
    FilesVouched(dir, job, files, lib, saved);
  }

  lemma FilesVouched(dir: Directory, job: string, files: Json, lib: Library, saved: Saved)
    requires files.Dict? && "report.json" in KeySet(files) && ReadFiles(dir, job, files, lib) == Ok(saved)
    ensures "report.json" in dir && |dir["report.json"]| <= REPORT_LIMIT && Lists(files, "report.json", dir["report.json"], lib)
    ensures "patch.diff" in KeySet(files) ==>
      "patch.diff" in dir && |dir["patch.diff"]| <= PATCH_LIMIT && Lists(files, "patch.diff", dir["patch.diff"], lib)
    ensures ReportSays(dir, job, files, saved, lib)
  {
    hide KeySet, IsDigest, Field, Lists, Checked, ReasonsIn;
    var report := Checked(dir, files, "report.json", REPORT_LIMIT, lib).value;
    CheckedExactly(dir, files, "report.json", REPORT_LIMIT, lib, report);
    if "patch.diff" in KeySet(files) {
      CheckedExactly(dir, files, "patch.diff", PATCH_LIMIT, lib, Checked(dir, files, "patch.diff", PATCH_LIMIT, lib).value);
    }
  }

  lemma VouchedReads(dir: Directory, job: string, files: Json, saved: Saved, lib: Library)
    requires Vouched(dir, job, files, saved, lib)
    ensures Read(dir, job, lib) == Ok(saved)
  {
    ListedRead(dir, job, files, lib, saved);
    hide KeySet, IsDigest, Field, IsJob, ReadFiles, ReportSays;
  }

  lemma ListedRead(dir: Directory, job: string, files: Json, lib: Library, saved: Saved)
    requires ManifestVouches(dir, job, files, lib) && "manifest.json" in dir && ReportSays(dir, job, files, saved, lib)
    ensures ReadFiles(dir, job, files, lib) == Ok(saved) && "report.json" in KeySet(files)
  {
    hide KeySet, IsDigest, Field, Checked, ReasonsIn;
    CheckedExactly(dir, files, "report.json", REPORT_LIMIT, lib, dir["report.json"]);
    if "patch.diff" in KeySet(files) {
      CheckedExactly(dir, files, "patch.diff", PATCH_LIMIT, lib, dir["patch.diff"]);
    }
  }

  /** The digest tells what lies under a name from what was stored there. */
  predicate ToldApart(dir: Directory, name: string, stored: string, lib: Library) {
    name in dir && lib.sha(dir[name]) == lib.sha(stored) ==> dir[name] == stored
  }

  /**
   However manifest, report and patch of a finished bundle are changed afterwards, under a digest that tells
   the new texts from the stored ones it reads as a failure or as exactly what was collected.
   */
  lemma AlteredReads(dir: Directory, b: Bundle, lib: Library)
    requires Faithful(lib) && Plain(b.details) && IsState(b.state) && IsJob(b.job)
    requires "complete.json" in dir && dir["complete.json"] == lib.dumps(Marker(b.job, ManifestText(b, lib), lib))
    requires ToldApart(dir, "manifest.json", ManifestText(b, lib), lib)
    requires ToldApart(dir, "report.json", ReportText(b, lib), lib)
    requires b.patch.Some? ==> ToldApart(dir, "patch.diff", b.patch.value, lib)
    ensures Read(dir, b.job, lib).Err? || Read(dir, b.job, lib) == Ok(SavedAs(b))
  {
    hide *;
    if Read(dir, b.job, lib).Ok? {
      var saved := Read(dir, b.job, lib).value;
      var files := ReadVouched(dir, b.job, lib, saved);
      SameManifest(dir, b, files, saved, lib);
      SameFiles(dir, b, files, saved, lib);
      MarkedReads(dir, b, lib);
    }
  }

  lemma SameManifest(dir: Directory, b: Bundle, files: Json, saved: Saved, lib: Library)
    requires Faithful(lib) && Vouched(dir, b.job, files, saved, lib)
    requires "complete.json" in dir && dir["complete.json"] == lib.dumps(Marker(b.job, ManifestText(b, lib), lib))
    requires ToldApart(dir, "manifest.json", ManifestText(b, lib), lib)
    ensures "manifest.json" in dir && dir["manifest.json"] == ManifestText(b, lib) && files == ListedFiles(b, lib)
  {
    MarkerSays(b, lib);
    ManifestReads(b, lib);
    hide Faithful, Marker, Manifest, ManifestText, ListedFiles, FieldFrom, KeySet, Lists, ReportSays, IsJob;
  }

  lemma MarkerSays(b: Bundle, lib: Library)
    requires Faithful(lib)
    ensures var v := lib.loads(lib.dumps(Marker(b.job, ManifestText(b, lib), lib)));
      v.Some? && v.value.Dict? && Field(v.value, "manifest_sha256") == Some(Str(lib.sha(ManifestText(b, lib))))
  {
    Sorted();
    hide StrictlySorted, FieldFrom, ManifestText;
    var v := Marker(b.job, ManifestText(b, lib), lib);
    assert Plain(v);
    FieldAt(v.keys, v.values, 1);
  }

  lemma EntrySays(data: string, lib: Library)
    ensures Field(Entry(data, lib), "sha256") == Some(Str(lib.sha(data)))
  {
    Sorted();
    hide StrictlySorted, FieldFrom;
    FieldAt(Entry(data, lib).keys, Entry(data, lib).values, 0);
  }

  lemma ListedEntries(b: Bundle, lib: Library)
    ensures Field(ListedFiles(b, lib), "report.json") == Some(Entry(ReportText(b, lib), lib))
    ensures b.patch.Some? <==> "patch.diff" in KeySet(ListedFiles(b, lib))
    ensures b.patch.Some? ==> Field(ListedFiles(b, lib), "patch.diff") == Some(Entry(b.patch.value, lib))
  {
    Sorted();
    hide StrictlySorted, FieldFrom, Entry, ReportText;
    var files := ListedFiles(b, lib);
    FieldAt(files.keys, files.values, |files.keys| - 1);
    FieldAt(files.keys, files.values, 0);
  }

  lemma SameFiles(dir: Directory, b: Bundle, files: Json, saved: Saved, lib: Library)
    requires Vouched(dir, b.job, files, saved, lib) && files == ListedFiles(b, lib)
    requires "manifest.json" in dir && dir["manifest.json"] == ManifestText(b, lib)
    requires ToldApart(dir, "report.json", ReportText(b, lib), lib)
    requires b.patch.Some? ==> ToldApart(dir, "patch.diff", b.patch.value, lib)
    ensures Present(dir, b, lib)
  {
    ListedEntries(b, lib);
    EntrySays(ReportText(b, lib), lib);
    if b.patch.Some? {
      EntrySays(b.patch.value, lib);
    }
    hide ListedFiles, Entry, Field, KeySet, ReportText, ManifestText, ReportSays, Holds, IsJob, IsDigest;
  }

  lemma DiesBetween(files: seq<File>, n: nat)
    requires n < |files|
    ensures DiedAt(Stored(files, n), files, n)
  {
  }

  lemma DiesWithin(files: seq<File>, n: nat, dir: Directory)
    requires n < |files|
    requires dir == Stored(files, n)
      || exists k :: 0 <= k <= |files[n].data| && dir == Stored(files, n)[files[n].name := files[n].data[..k]]
    ensures DiedAt(dir, files, n)
  {
  }

  lemma NextFile(files: seq<File>, n: nat)
    requires n < |files| && DistinctFiles(files)
    ensures files[n].name !in Stored(files, n)
    ensures Stored(files, n + 1) == Stored(files, n)[files[n].name := files[n].data]
  {
    StoredLacks(files, n, files[n].name);
  }

  lemma NothingStored(files: seq<File>)
    ensures Stored(files, 0) == map[]
  {
  }

  lemma StateIsState(e: Evidence, lib: Library)
    ensures IsState(StateOf(e, lib))
  {
    hide Reasons, StatusOf;
  }

  function Limits(b: Bundle): seq<nat> {
    [META_LIMIT, REPORT_LIMIT] + (if b.patch.Some? then [PATCH_LIMIT] else []) + [META_LIMIT, META_LIMIT]
  }

  lemma SmallEnough(b: Bundle, lib: Library)
    requires |Limits(b)| == |Files(b, lib)|
    requires forall k :: 0 <= k < |Files(b, lib)| ==> |Files(b, lib)[k].data| <= Limits(b)[k]
    ensures Small(Stored(Files(b, lib), |Files(b, lib)|))
  {
    FilesShape(b, lib);
    hide Files, Stored, ReportText, ManifestText, Marker, DistinctFiles;
    var files := Files(b, lib);
    StoredHas(files, |files|, 0);
    StoredHas(files, |files|, 1);
    StoredHas(files, |files|, |files| - 2);
    StoredHas(files, |files|, |files| - 1);
    if b.patch.Some? {
      StoredHas(files, |files|, 2);
    } else {
      forall k | 0 <= k < |files|
        ensures files[k].name != "patch.diff"
      {
        assert k in {0, 1, 2, 3};
      }
      StoredLacks(files, |files|, "patch.diff");
    }
  }

  // ----- writing it -----

  class BundleDirectory {
    var files: Directory

    constructor ()
      ensures files == map[]
    {
      files := map[];
    }

    /** Create one file; a failure may leave any first part of it, or nothing. */
    method Write(name: string, data: string) returns (ok: bool)
      requires name !in files
      modifies this
      ensures ok ==> files == old(files)[name := data]
      ensures !ok ==> files == old(files) || exists k :: 0 <= k <= |data| && files == old(files)[name := data[..k]]
    {
      var created: bool, written: int, synced: bool := *, *, *;
      ok := created && written >= |data| && synced;
      if created {
        var n := if written < 0 then 0 else if written > |data| then |data| else written;
        files := files[name := data[..n]];
        assert data[..|data|] == data;
      }
    }
  }

  /**
   Judge the evidence and store the bundle.  Wherever the writing stops, reading the directory is honest,
   and a job reads back as ready for review only with every check passed and its replay bound.
   */
  method Collect(directory: BundleDirectory, job: string, e: Evidence, details: Json, lib: Library)
    returns (r: Result<Bundle, BundleError>)
    requires Faithful(lib) && IsJob(job) && Plain(details) && directory.files == map[]
    requires e.patch.Some? ==> |e.patch.value| <= PATCH_LIMIT
    modifies directory
    ensures var b := Bundle(job, StateOf(e, lib), Texts(Reasons(e, lib)), details, e.patch);
      && Honest(Read(directory.files, job, lib), b)
      && (r.Ok? ==> r.value == b && Read(directory.files, job, lib) == Ok(SavedAs(b)))
    ensures var back := Read(directory.files, job, lib);
      back.Ok? && back.value.state == "ready_for_review" ==> AllChecksPassed(e) && ReplayBinds(e, lib)
  {
    var b := Bundle(job, StateOf(e, lib), Texts(Reasons(e, lib)), details, e.patch);
    StateIsState(e, lib);
    ReadyMeans(e, lib);
    FilesShape(b, lib);
    hide Files, Stored, Faithful, Plain, IsState, IsJob, Read, ReportText, ManifestText, Marker, StateOf, Reasons,
         AllChecksPassed, ReplayBinds, Texts, DiedAt, DistinctFiles;
    var files := Files(b, lib);
    NothingStored(files);
    var limits := Limits(b);
    for n := 0 to |files|
      invariant directory.files == Stored(files, n)
      invariant forall k :: 0 <= k < n ==> |files[k].data| <= limits[k]
    {
      DiesBetween(files, n);
      CrashedReads(directory.files, b, lib, n);
      if |files[n].data| > limits[n] {
        return Err(Oversized);
      }
      NextFile(files, n);
      var ok := directory.Write(files[n].name, files[n].data);
      if !ok {
        DiesWithin(files, n, directory.files);
        CrashedReads(directory.files, b, lib, n);
        return Err(WriteFailed);
      }
    }
    SmallEnough(b, lib);
    FinishedReads(b, lib);
    r := Ok(b);
  }
}
