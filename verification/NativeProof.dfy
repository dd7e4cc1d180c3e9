/**
  The native release proof: an eleven-step gated run that installs and smokes one finalized
  candidate, between a capture and a restore of the host's registration, and promotes a
  receipt. Everything a step reads from the world is a field of `Facts`; a failed read is
  `None` or `false`, so one value of `Facts` is one fault schedule.
*/
module NativeProof {
  import opened Prelude

  type Bytes = seq<int>

  /** The digest and length of nonempty bytes. */
  datatype Evidence = Evidence(sha: int, length: nat)

  type Digest = Bytes -> int

  /** `byte_evidence`: empty bytes are no evidence. */
  function ByteEvidence(digest: Digest, bytes: Bytes): Option<Evidence> {
    if bytes == [] then None else Some(Evidence(digest(bytes), |bytes|))
  }

  datatype Phase =
    | Classify | Identity | Tools | Containers | InstallRoot | RootReady | HostCapture | Install
    | InstalledIdentity | DumpState | Smoke | HostRestore | Revalidate | Receipt | ReceiptStaged

  /** The phases of a run that succeeds. */
  const SUCCESS: seq<Phase> := [
    Classify, Identity, Tools, Containers, InstallRoot, RootReady, HostCapture, Install,
    InstalledIdentity, DumpState, Smoke, HostRestore, Revalidate, Receipt, ReceiptStaged]

  /** Commands the run issues. */
  datatype Call = Resolve | CaptureHost | RunSetup | RunDump | RunSmoke | RestoreHost | Promote

  /** Commands that may change the host's registration. */
  predicate Touches(c: Call) { c.RunSetup? || c.RunDump? || c.RunSmoke? }

  /** What a finalization receipt binds itself to. */
  datatype Binding = Binding(
    product: string, version: string, target: string, sourceCommit: string, cargoLock: int,
    companionFile: string, companionSha: int, relativePath: string, fileCount: nat, advisoryAt: string)

  datatype Finalization = Finalization(binding: Binding, uiLockSha: int, signed: bool, executable: Evidence)

  datatype IdentityFacts = IdentityFacts(
    classified: bool, checkout: bool, candidate: bool, candidatePath: bool,
    manifest: Option<Bytes>, manifestValid: bool,
    receipt: Option<Finalization>,     // readable, well-formed and canonical
    expected: Binding,                 // what the manifest and the candidate say
    uiLock: Option<Bytes>)

  datatype ToolFacts = ToolFacts(
    signedManifest: bool, toolsMatchCheckout: bool, resolves: bool, selectionParses: bool,
    selectionSigned: bool, projects: bool, projectionMatches: bool)

  datatype ContainerFacts = ContainerFacts(
    sourceNotice: Option<Bytes>, nupkgReads: bool, portableReads: bool,
    nupkgExe: Option<Evidence>, portableExe: Option<Evidence>,
    nupkgNotice: Option<Evidence>, portableNotice: Option<Evidence>,
    sourceRust: Option<Bytes>, nupkgRust: Option<Evidence>, portableRust: Option<Evidence>)

  datatype RootFacts = RootFacts(created: bool, appAbsent: bool, empty: bool, guard: bool, captured: bool)

  datatype InstallFacts = InstallFacts(
    setup: Option<Bytes>, paths: bool, setupStatus: Option<int>, appFound: Option<bool>,
    rootOpens: bool, exe: Option<Bytes>, notice: Option<Bytes>, rust: Option<Bytes>,
    appPath: bool, dumpStatus: Option<int>, dumpVersion: Option<string>,
    smokeArgs: bool, smokeStatus: Option<int>, smokeLine: bool)

  datatype LateFacts = LateFacts(
    restored: bool, classified: bool, manifest: Option<Bytes>, notice: Option<Bytes>, rust: Option<Bytes>,
    clock: bool, staged: bool, promoted: bool)

  datatype Facts = Facts(
    records: Phase -> bool,            // whether the runner accepts a phase
    id: IdentityFacts, tool: ToolFacts, box: ContainerFacts, root: RootFacts,
    inst: InstallFacts, late: LateFacts)

  datatype Error =
    | PhaseTransition | InitialClassification | CheckoutContainment | CandidateIdentity | ManifestIdentity
    | FinalizationReceipt | FinalizationReceiptMismatch | UnsignedCandidate | ToolResolver | ToolSelection
    | ToolProjectionMismatch | ExecutableRead | ExecutableContainer | ContainerBaseline | ThirdPartyNotice
    | RustDependencyNotice | NoticeContainer | NoticeContainerBaseline | RustNoticeContainerBaseline
    | ProofRoot | PreexistingInstalledApp | HostStateCapture | SetupInvocation | SetupFailed
    | InstalledAppMissing | InstalledAppInvalid | InstalledBaselineMismatch | InstalledNoticeInvalid
    | InstalledNoticeBaselineMismatch | InstalledRustNoticeInvalid | InstalledRustNoticeBaselineMismatch
    | DumpStateInvocation | DumpStateFailed | DumpStateMalformed | DumpStateVersionMismatch
    | SmokeInvocation | SmokeFailed | SmokeEvidenceMissing | HostStateRestore(earlier: Option<Error>)
    | PostSmokeClassification | CandidateMutated | NoticeSourceChanged | Clock | ReceiptWrite

  /** The promoted receipt's evidence. */
  datatype Proof = Proof(packaged: Evidence, installedSha: int, manifestSha: int, setupSha: int)

  // ----- what a promoted receipt must mean --------------------------------------------

  /** The receipt in the checkout identifies this candidate. */
  predicate IdentifiesCandidate(f: Facts, digest: Digest) {
    && f.id.manifest.Some? && f.id.manifestValid && f.id.receipt.Some? && f.id.uiLock.Some?
    && f.id.receipt.value.binding == f.id.expected
    && f.id.receipt.value.uiLockSha == digest(f.id.uiLock.value)
  }

  /** All four copies of the executable carry the same evidence. */
  predicate OneExecutable(f: Facts, digest: Digest) {
    && f.id.receipt.Some? && f.inst.exe.Some?
    && f.box.nupkgExe == f.box.portableExe == Some(f.id.receipt.value.executable)
    && ByteEvidence(digest, f.inst.exe.value) == Some(f.id.receipt.value.executable)
  }

  /** One notice: source, both containers and the install carry the same evidence. */
  predicate OneNotice(digest: Digest, source: Option<Bytes>, nupkg: Option<Evidence>, portable: Option<Evidence>, installed: Option<Bytes>) {
    && source.Some? && installed.Some? && source.value != []
    && ByteEvidence(digest, installed.value) == ByteEvidence(digest, source.value) == nupkg == portable
  }

  /** The candidate and the source notices read the same bytes before and after. */
  predicate Unchanged(f: Facts) {
    f.late.manifest == f.id.manifest && f.late.notice == f.box.sourceNotice && f.late.rust == f.box.sourceRust
  }

  predicate OneOfEach(f: Facts, digest: Digest) {
    && OneExecutable(f, digest)
    && OneNotice(digest, f.box.sourceNotice, f.box.nupkgNotice, f.box.portableNotice, f.inst.notice)
    && OneNotice(digest, f.box.sourceRust, f.box.nupkgRust, f.box.portableRust, f.inst.rust)
  }

  predicate Consistent(f: Facts, digest: Digest) {
    && IdentifiesCandidate(f, digest)
    && OneOfEach(f, digest)
    && f.tool.signedManifest && f.id.receipt.value.signed
    && f.inst.dumpVersion == Some(f.id.expected.version)
    && f.late.restored
    && Unchanged(f)
  }

  /** Setup, the app's report and the smoke, without their failures' names. */
  predicate Ran(f: Facts) {
    && f.inst.setup.Some? && f.inst.paths && f.inst.setupStatus == Some(0) && f.inst.appFound == Some(true)
    && f.inst.rootOpens && f.inst.appPath && f.inst.dumpStatus == Some(0)
    && f.inst.smokeArgs && f.inst.smokeStatus == Some(0) && f.inst.smokeLine
  }

  /** Nothing the run depends on was unavailable. */
  predicate Available(f: Facts) {
    && (forall i :: 0 <= i < |SUCCESS| ==> f.records(SUCCESS[i]))
    && f.id.classified && f.id.checkout && f.id.candidate && f.id.candidatePath
    && f.tool.toolsMatchCheckout && f.tool.resolves && f.tool.selectionParses && f.tool.selectionSigned
    && f.tool.projects && f.tool.projectionMatches
    && f.box.nupkgReads && f.box.portableReads
    && f.root.created && f.root.appAbsent && f.root.empty && f.root.guard && f.root.captured
    && Ran(f)
    && f.late.classified && f.late.clock && f.late.staged && f.late.promoted
  }

  // ----- the shape of the log ---------------------------------------------------------

  /** The phases recorded so far are a prefix of the success trace, or a prefix ending inside
      the bracket followed by the restore phase. */
  predicate PhaseShape(phases: seq<Phase>) {
    || phases <= SUCCESS
    || (exists n :: 7 <= n <= 11 && phases == SUCCESS[..n] + [HostRestore])
  }

  /** Once the capture succeeded the restore runs exactly once, after every command that may
      touch the host, and there is none of those without a capture. */
  predicate BracketShape(calls: seq<Call>, captured: bool) {
    && (forall i :: 0 <= i < |calls| && Touches(calls[i]) ==> captured)
    && (forall i, j :: 0 <= i < |calls| && 0 <= j < |calls| && calls[i].RestoreHost? && Touches(calls[j]) ==> j < i)
    && (forall i, j :: 0 <= i < |calls| && 0 <= j < |calls| && calls[i].CaptureHost? && Touches(calls[j]) ==> i < j)
    && (forall i, j :: 0 <= i < |calls| && 0 <= j < |calls| && calls[i].RestoreHost? && calls[j].RestoreHost? ==> i == j)
    && (RestoreHost in calls <==> captured)
  }

  /** Setup and the presence of the app. */
  function SetupFailure(f: Facts): Option<Error> {
    var i := f.inst;
    if !f.records(Install) then Some(PhaseTransition)
    else if i.setup.None? || !i.paths || i.setupStatus.None? then Some(SetupInvocation)
    else if i.setupStatus.value != 0 then Some(SetupFailed)
    else if i.appFound.None? then Some(InstalledAppInvalid)
    else if !i.appFound.value then Some(InstalledAppMissing)
    else None
  }

  /** The installed executable and both notices against their baselines. */
  function IdentityFailure(f: Facts, digest: Digest): Option<Error>
    requires f.id.receipt.Some? && f.box.sourceNotice.Some? && f.box.sourceRust.Some?
  {
    var i := f.inst;
    if !f.records(InstalledIdentity) then Some(PhaseTransition)
    else if !i.rootOpens || i.exe.None? || i.exe.value == [] then Some(InstalledAppInvalid)
    else if ByteEvidence(digest, i.exe.value) != Some(f.id.receipt.value.executable) then Some(InstalledBaselineMismatch)
    else if i.notice.None? || i.notice.value == [] then Some(InstalledNoticeInvalid)
    else if ByteEvidence(digest, i.notice.value) != ByteEvidence(digest, f.box.sourceNotice.value)
    then Some(InstalledNoticeBaselineMismatch)
    else if i.rust.None? || i.rust.value == [] then Some(InstalledRustNoticeInvalid)
    else if ByteEvidence(digest, i.rust.value) != ByteEvidence(digest, f.box.sourceRust.value)
    then Some(InstalledRustNoticeBaselineMismatch)
    else None
  }

  /** The installed app's own report and the smoke action. */
  function SmokeFailure(f: Facts): Option<Error> {
    var i := f.inst;
    if !f.records(DumpState) then Some(PhaseTransition)
    else if !i.appPath || i.dumpStatus.None? then Some(DumpStateInvocation)
    else if i.dumpStatus.value != 0 then Some(DumpStateFailed)
    else if i.dumpVersion.None? then Some(DumpStateMalformed)
    else if i.dumpVersion.value != f.id.expected.version then Some(DumpStateVersionMismatch)
    else if !f.records(Smoke) then Some(PhaseTransition)
    else if !i.smokeArgs || i.smokeStatus.None? then Some(SmokeInvocation)
    else if i.smokeStatus.value != 0 then Some(SmokeFailed)
    else if !i.smokeLine then Some(SmokeEvidenceMissing)
    else None
  }

  /** The failure inside the bracket, if any: the first gate that did not hold. */
  function InstallFailure(f: Facts, digest: Digest): Option<Error>
    requires f.id.receipt.Some? && f.box.sourceNotice.Some? && f.box.sourceRust.Some?
  {
    if SetupFailure(f).Some? then SetupFailure(f)
    else if IdentityFailure(f, digest).Some? then IdentityFailure(f, digest)
    else SmokeFailure(f)
  }

  // ----- the gates of each stage, and what they amount to -----------------------------

  /** What steps 1 to 4 established, which the installed copies are compared with. */
  predicate Baseline(f: Facts, digest: Digest, receipt: Finalization) {
    && f.id.receipt == Some(receipt)
    && f.box.nupkgExe == f.box.portableExe == Some(receipt.executable)
    && f.box.sourceNotice.Some? && f.box.sourceNotice.value != []
    && f.box.nupkgNotice == f.box.portableNotice == ByteEvidence(digest, f.box.sourceNotice.value)
    && f.box.sourceRust.Some? && f.box.sourceRust.value != []
    && f.box.nupkgRust == f.box.portableRust == ByteEvidence(digest, f.box.sourceRust.value)
  }

  /** Steps 1 to 5 and the capture. */
  predicate ReachGates(f: Facts, digest: Digest) {
    && IdentifiesCandidate(f, digest) && Baseline(f, digest, f.id.receipt.value) && f.id.receipt.value.signed
    && f.tool.signedManifest
    && (forall i :: 0 <= i < 7 ==> f.records(SUCCESS[i]))
    && f.id.classified && f.id.checkout && f.id.candidate && f.id.candidatePath
    && f.tool.toolsMatchCheckout && f.tool.resolves && f.tool.selectionParses && f.tool.selectionSigned
    && f.tool.projects && f.tool.projectionMatches && f.box.nupkgReads && f.box.portableReads
    && f.root.created && f.root.appAbsent && f.root.empty && f.root.guard && f.root.captured
  }

  /** Steps 10 and 11. */
  predicate LateGates(f: Facts) {
    && f.records(HostRestore) && f.late.restored
    && f.records(Revalidate) && f.late.classified && Unchanged(f)
    && f.records(Receipt) && f.late.clock && f.late.staged && f.records(ReceiptStaged) && f.late.promoted
  }

  predicate InsideRecorded(f: Facts) {
    f.records(Install) && f.records(InstalledIdentity) && f.records(DumpState) && f.records(Smoke)
  }

  lemma IdentityGates(f: Facts, digest: Digest)
    requires f.id.receipt.Some? && Baseline(f, digest, f.id.receipt.value)
    ensures IdentityFailure(f, digest).None? <==>
              f.records(InstalledIdentity) && f.inst.rootOpens && OneOfEach(f, digest)
  {
  }

  lemma RunGates(f: Facts)
    ensures SetupFailure(f).None? && SmokeFailure(f).None? && f.records(InstalledIdentity) && f.inst.rootOpens <==>
              InsideRecorded(f) && Ran(f) && f.inst.dumpVersion == Some(f.id.expected.version)
  {
  }

  lemma InsideGates(f: Facts, digest: Digest)
    requires f.id.receipt.Some? && Baseline(f, digest, f.id.receipt.value)
    ensures InstallFailure(f, digest).None? <==>
              InsideRecorded(f) && Ran(f) && OneOfEach(f, digest) && f.inst.dumpVersion == Some(f.id.expected.version)
  {
    IdentityGates(f, digest);
    RunGates(f);
  }

  lemma AllRecorded(f: Facts)
    ensures (forall i :: 0 <= i < |SUCCESS| ==> f.records(SUCCESS[i])) <==>
              && (forall i :: 0 <= i < 7 ==> f.records(SUCCESS[i])) && InsideRecorded(f)
              && f.records(HostRestore) && f.records(Revalidate) && f.records(Receipt) && f.records(ReceiptStaged)
  {
    assert SUCCESS[7] == Install && SUCCESS[8] == InstalledIdentity && SUCCESS[9] == DumpState && SUCCESS[10] == Smoke;
    assert SUCCESS[11] == HostRestore && SUCCESS[12] == Revalidate && SUCCESS[13] == Receipt && SUCCESS[14] == ReceiptStaged;
  }

  lemma BaselineFromEach(f: Facts, digest: Digest)
    requires OneOfEach(f, digest)
    ensures f.id.receipt.Some? && Baseline(f, digest, f.id.receipt.value)
  {
  }

  /** The gates, passed in order, are exactly availability and consistency. */
  lemma GatesMeanConsistent(f: Facts, digest: Digest)
    ensures ReachGates(f, digest) && InstallFailure(f, digest).None? && LateGates(f) <==>
              Available(f) && Consistent(f, digest)
    ensures ReachGates(f, digest) && InstallFailure(f, digest).None? && f.late.restored && Unchanged(f) ==>
              Consistent(f, digest)
  {
    AllRecorded(f);
    if OneOfEach(f, digest) { BaselineFromEach(f, digest); }
    if f.id.receipt.Some? && Baseline(f, digest, f.id.receipt.value) { InsideGates(f, digest); }
  }

  lemma BracketedCalls(inside: seq<Call>, after: seq<Call>)
    requires inside <= [RunSetup, RunDump, RunSmoke] && after <= [Promote]
    ensures BracketShape([Resolve, CaptureHost] + inside + [RestoreHost] + after, true)
  {
    var calls := [Resolve, CaptureHost] + inside + [RestoreHost] + after;
    assert forall i :: 0 <= i < |inside| ==> Touches(inside[i]) && inside[i] == [RunSetup, RunDump, RunSmoke][i];
    assert calls[2 + |inside|] == RestoreHost;
    assert forall i :: 0 <= i < |calls| ==> (calls[i].RestoreHost? <==> i == 2 + |inside|);
    assert forall i :: 0 <= i < |calls| ==> (Touches(calls[i]) <==> 2 <= i < 2 + |inside|);
    assert forall i :: 0 <= i < |calls| ==> (calls[i].CaptureHost? <==> i == 1);
  }

  /** Fact by fact, what a promoted receipt needs: every phase recorded, every read and command
      succeeding, and every copy of the executable and of both notices with one and the same
      digest and length. */
  lemma PromotionMeans(f: Facts, digest: Digest)
    requires Available(f) && Consistent(f, digest)
    ensures forall i :: 0 <= i < 15 ==> f.records(SUCCESS[i])
    ensures f.id.classified && f.id.checkout && f.id.candidate && f.id.candidatePath && f.id.manifestValid
    ensures f.id.receipt.Some? && f.id.uiLock.Some? && f.id.manifest.Some?
    ensures f.id.receipt.value.binding == f.id.expected && f.id.receipt.value.signed
    ensures f.id.receipt.value.uiLockSha == digest(f.id.uiLock.value)
    ensures f.tool.signedManifest && f.tool.toolsMatchCheckout && f.tool.resolves && f.tool.selectionParses
    ensures f.tool.selectionSigned && f.tool.projects && f.tool.projectionMatches
    ensures f.box.nupkgReads && f.box.portableReads
    ensures f.root.created && f.root.appAbsent && f.root.empty && f.root.guard && f.root.captured
    ensures f.inst.setup.Some? && f.inst.paths && f.inst.setupStatus == Some(0) && f.inst.appFound == Some(true)
    ensures f.inst.rootOpens && f.inst.appPath && f.inst.dumpStatus == Some(0) && f.inst.dumpVersion == Some(f.id.expected.version)
    ensures f.inst.smokeArgs && f.inst.smokeStatus == Some(0) && f.inst.smokeLine
    ensures f.late.restored && f.late.classified && f.late.clock && f.late.staged && f.late.promoted
    ensures f.late.manifest == f.id.manifest && f.late.notice == f.box.sourceNotice && f.late.rust == f.box.sourceRust
    ensures f.inst.exe.Some? && |f.inst.exe.value| > 0
    ensures
      var exe := Some(Evidence(digest(f.inst.exe.value), |f.inst.exe.value|));
      exe == Some(f.id.receipt.value.executable) == f.box.nupkgExe == f.box.portableExe
    ensures f.inst.notice.Some? && f.box.sourceNotice.Some? && |f.inst.notice.value| == |f.box.sourceNotice.value| > 0
    ensures
      var notice := Some(Evidence(digest(f.inst.notice.value), |f.inst.notice.value|));
      notice == f.box.nupkgNotice == f.box.portableNotice && digest(f.inst.notice.value) == digest(f.box.sourceNotice.value)
    ensures f.inst.rust.Some? && f.box.sourceRust.Some? && |f.inst.rust.value| == |f.box.sourceRust.value| > 0
    ensures
      var rust := Some(Evidence(digest(f.inst.rust.value), |f.inst.rust.value|));
      rust == f.box.nupkgRust == f.box.portableRust && digest(f.inst.rust.value) == digest(f.box.sourceRust.value)
  {
  }

  /** Two different byte strings with one digest. */
  ghost predicate Collide(digest: Digest, x: Bytes, y: Bytes) { x != y && digest(x) == digest(y) }

  /** A promoted receipt means the installed notices are the source's, byte for byte, unless the
      two collide; and they are what the source still holds at the end. */
  lemma PromotedNoticesAreSource(f: Facts, digest: Digest)
    requires Consistent(f, digest)
    requires !Collide(digest, f.inst.notice.value, f.box.sourceNotice.value)
    requires !Collide(digest, f.inst.rust.value, f.box.sourceRust.value)
    ensures f.inst.notice == f.box.sourceNotice == f.late.notice
    ensures f.inst.rust == f.box.sourceRust == f.late.rust
  {
  }

  class Prover {
    const f: Facts
    const digest: Digest
    var phases: seq<Phase>
    var calls: seq<Call>

    constructor (f: Facts, digest: Digest)
      ensures this.f == f && this.digest == digest && phases == [] && calls == []
    {
      this.f := f;
      this.digest := digest;
      phases := [];
      calls := [];
    }

    method Record(p: Phase) returns (ok: bool)
      modifies this`phases
      ensures ok == f.records(p)
      ensures phases == if ok then old(phases) + [p] else old(phases)
    {
      ok := f.records(p);
      if ok {
        phases := phases + [p];
      }
    }

    /** `bind_finalization_receipt`: field by field. */
    method BindFinalizationReceipt(r: Binding, e: Binding) returns (ok: bool)
      ensures ok <==> r == e
    {
      if r.product != e.product || r.version != e.version || r.target != e.target {
        return false;
      }
      if r.sourceCommit != e.sourceCommit || r.cargoLock != e.cargoLock {
        return false;
      }
      if r.companionFile != e.companionFile || r.companionSha != e.companionSha {
        return false;
      }
      if r.relativePath != e.relativePath || r.fileCount != e.fileCount {
        return false;
      }
      ok := r.advisoryAt == e.advisoryAt;
    }

    /** `read_matching_finalization_receipt`. */
    method ReadMatchingFinalizationReceipt() returns (r: Result<Finalization, Error>)
      ensures r.Ok? <==> f.id.receipt.Some? && f.id.uiLock.Some? && f.id.receipt.value.binding == f.id.expected
                         && f.id.receipt.value.uiLockSha == digest(f.id.uiLock.value)
      ensures r.Ok? ==> r.value == f.id.receipt.value
    {
      if f.id.receipt.None? {
        return Err(FinalizationReceipt);
      }
      if f.id.uiLock.None? {
        return Err(FinalizationReceiptMismatch);
      }
      var bound := BindFinalizationReceipt(f.id.receipt.value.binding, f.id.expected);
      if !bound || f.id.receipt.value.uiLockSha != digest(f.id.uiLock.value) {
        return Err(FinalizationReceiptMismatch);
      }
      r := Ok(f.id.receipt.value);
    }

    /** Steps 1 and 2. */
    method Identify() returns (r: Result<Finalization, Error>)
      requires phases == []
      modifies this`phases
      ensures phases <= SUCCESS[..2] && (r.Ok? ==> phases == SUCCESS[..2])
      ensures r.Ok? <==> f.records(Classify) && f.records(Identity) && f.id.classified && f.id.checkout
                         && f.id.candidate && f.id.candidatePath && IdentifiesCandidate(f, digest)
      ensures r.Ok? ==> Some(r.value) == f.id.receipt
    {
      var ok := Record(Classify);
      if !ok {
        return Err(PhaseTransition);
      }
      if !f.id.classified {
        return Err(InitialClassification);
      }
      ok := Record(Identity);
      if !ok {
        return Err(PhaseTransition);
      }
      if !f.id.checkout {
        return Err(CheckoutContainment);
      }
      if !f.id.candidate || !f.id.candidatePath {
        return Err(CandidateIdentity);
      }
      if f.id.manifest.None? || !f.id.manifestValid {
        return Err(ManifestIdentity);
      }
      r := ReadMatchingFinalizationReceipt();
    }

    /** Step 3. */
    method SelectTools(receipt: Finalization) returns (r: Result<(), Error>)
      requires phases == SUCCESS[..2] && calls == []
      modifies this
      ensures phases <= SUCCESS[..3] && (r.Ok? ==> phases == SUCCESS[..3])
      ensures calls <= [Resolve] && (r.Ok? ==> calls == [Resolve])
      ensures r.Ok? <==> f.records(Tools) && f.tool.signedManifest && f.tool.toolsMatchCheckout && receipt.signed
                         && f.tool.resolves && f.tool.selectionParses && f.tool.selectionSigned && f.tool.projects
                         && f.tool.projectionMatches
    {
      var ok := Record(Tools);
      if !ok {
        return Err(PhaseTransition);
      }
      if !f.tool.signedManifest || !f.tool.toolsMatchCheckout || !receipt.signed {
        return Err(UnsignedCandidate);
      }
      calls := calls + [Resolve];
      if !f.tool.resolves {
        return Err(ToolResolver);
      }
      if !f.tool.selectionParses || !f.tool.selectionSigned || !f.tool.projects {
        return Err(ToolSelection);
      }
      if !f.tool.projectionMatches {
        return Err(ToolProjectionMismatch);
      }
      r := Ok(());
    }

    /** Step 4. */
    method CompareContainers(receipt: Finalization) returns (r: Result<(), Error>)
      requires phases == SUCCESS[..3]
      modifies this`phases
      ensures phases <= SUCCESS[..4] && (r.Ok? ==> phases == SUCCESS[..4])
      ensures r.Ok? <==>
                && f.records(Containers) && f.box.nupkgReads && f.box.portableReads
                && f.box.nupkgExe == f.box.portableExe == Some(receipt.executable)
                && f.box.sourceNotice.Some? && f.box.sourceNotice.value != []
                && f.box.nupkgNotice == f.box.portableNotice == ByteEvidence(digest, f.box.sourceNotice.value)
                && f.box.sourceRust.Some? && f.box.sourceRust.value != []
                && f.box.nupkgRust == f.box.portableRust == ByteEvidence(digest, f.box.sourceRust.value)
    {
      var ok := Record(Containers);
      if !ok {
        return Err(PhaseTransition);
      }
      if f.box.sourceNotice.None? || ByteEvidence(digest, f.box.sourceNotice.value).None? {
        return Err(ThirdPartyNotice);
      }
      var notice := ByteEvidence(digest, f.box.sourceNotice.value).value;
      if !f.box.nupkgReads || !f.box.portableReads {
        return Err(ExecutableRead);
      }
      if f.box.nupkgExe.None? || f.box.portableExe.None? {
        return Err(ExecutableContainer);
      }
      if f.box.nupkgExe.value != receipt.executable || f.box.portableExe.value != receipt.executable {
        return Err(ContainerBaseline);
      }
      if f.box.nupkgNotice.None? || f.box.portableNotice.None? {
        return Err(NoticeContainer);
      }
      if f.box.nupkgNotice.value != notice || f.box.portableNotice.value != notice {
        return Err(NoticeContainerBaseline);
      }
      if f.box.sourceRust.None? || ByteEvidence(digest, f.box.sourceRust.value).None? {
        return Err(RustDependencyNotice);
      }
      var rust := ByteEvidence(digest, f.box.sourceRust.value).value;
      if f.box.nupkgRust.None? || f.box.portableRust.None? {
        return Err(NoticeContainer);
      }
      if f.box.nupkgRust.value != rust || f.box.portableRust.value != rust {
        return Err(RustNoticeContainerBaseline);
      }
      r := Ok(());
    }

    /** Step 5 and the capture that opens step 6. */
    method PrepareAndCapture() returns (r: Result<(), Error>)
      requires phases == SUCCESS[..4]
      modifies this
      ensures phases <= SUCCESS[..7] && (r.Ok? ==> phases == SUCCESS[..7])
      ensures calls == old(calls) || calls == old(calls) + [CaptureHost]
      ensures r.Ok? ==> calls == old(calls) + [CaptureHost]
      ensures calls != old(calls) && f.root.captured ==> r.Ok?
      ensures r.Ok? <==> f.records(InstallRoot) && f.records(RootReady) && f.records(HostCapture) && f.root.created
                         && f.root.appAbsent && f.root.empty && f.root.guard && f.root.captured
    {
      var ok := Record(InstallRoot);
      if !ok {
        return Err(PhaseTransition);
      }
      if !f.root.created {
        return Err(ProofRoot);
      }
      ok := Record(RootReady);
      if !ok {
        return Err(PhaseTransition);
      }
      if !f.root.appAbsent {
        return Err(PreexistingInstalledApp);
      }
      if !f.root.empty {
        return Err(ProofRoot);
      }
      ok := Record(HostCapture);
      if !ok {
        return Err(PhaseTransition);
      }
      if !f.root.guard {
        return Err(HostStateCapture);
      }
      calls := calls + [CaptureHost];
      if !f.root.captured {
        return Err(HostStateCapture);
      }
      r := Ok(());
    }

    /** Step 6 after the capture: run setup. */
    method RunInstaller() returns (r: Result<int, Error>)
      requires phases == SUCCESS[..7]
      modifies this
      ensures phases <= SUCCESS[..8] && SUCCESS[..7] <= phases && (r.Ok? ==> phases == SUCCESS[..8])
      ensures calls == old(calls) || calls == old(calls) + [RunSetup]
      ensures r.Ok? ==> calls == old(calls) + [RunSetup]
      ensures r.Ok? <==> SetupFailure(f).None?
      ensures r.Err? ==> SetupFailure(f) == Some(r.error)
      ensures r.Ok? ==> f.inst.setup.Some? && r.value == digest(f.inst.setup.value)
    {
      var ok := Record(Install);
      if !ok {
        return Err(PhaseTransition);
      }
      if f.inst.setup.None? || !f.inst.paths {
        return Err(SetupInvocation);
      }
      calls := calls + [RunSetup];
      if f.inst.setupStatus.None? {
        return Err(SetupInvocation);
      }
      if f.inst.setupStatus.value != 0 {
        return Err(SetupFailed);
      }
      if f.inst.appFound.None? {
        return Err(InstalledAppInvalid);
      }
      if !f.inst.appFound.value {
        return Err(InstalledAppMissing);
      }
      r := Ok(digest(f.inst.setup.value));
    }

    /** Step 7. */
    method CompareInstalled(receipt: Finalization) returns (r: Result<Evidence, Error>)
      requires Baseline(f, digest, receipt) && phases == SUCCESS[..8]
      modifies this`phases
      ensures SUCCESS[..8] <= phases <= SUCCESS[..9] && (r.Ok? ==> phases == SUCCESS[..9])
      ensures r.Ok? <==> IdentityFailure(f, digest).None?
      ensures r.Err? ==> IdentityFailure(f, digest) == Some(r.error)
      ensures r.Ok? ==> r.value == receipt.executable
    {
      var ok := Record(InstalledIdentity);
      if !ok {
        return Err(PhaseTransition);
      }
      if !f.inst.rootOpens || f.inst.exe.None? {
        return Err(InstalledAppInvalid);
      }
      var exe := ByteEvidence(digest, f.inst.exe.value);
      if exe.None? {
        return Err(InstalledAppInvalid);
      }
      if exe.value != receipt.executable || exe != f.box.nupkgExe || exe != f.box.portableExe {
        return Err(InstalledBaselineMismatch);
      }
      if f.inst.notice.None? || ByteEvidence(digest, f.inst.notice.value).None? {
        return Err(InstalledNoticeInvalid);
      }
      var notice := ByteEvidence(digest, f.inst.notice.value);
      if notice != ByteEvidence(digest, f.box.sourceNotice.value) || notice != f.box.nupkgNotice || notice != f.box.portableNotice {
        return Err(InstalledNoticeBaselineMismatch);
      }
      if f.inst.rust.None? || ByteEvidence(digest, f.inst.rust.value).None? {
        return Err(InstalledRustNoticeInvalid);
      }
      var rust := ByteEvidence(digest, f.inst.rust.value);
      if rust != ByteEvidence(digest, f.box.sourceRust.value) || rust != f.box.nupkgRust || rust != f.box.portableRust {
        return Err(InstalledRustNoticeBaselineMismatch);
      }
      r := Ok(exe.value);
    }

    /** Steps 8 and 9. */
    method DumpAndSmoke() returns (r: Result<(), Error>)
      requires phases == SUCCESS[..9]
      modifies this
      ensures SUCCESS[..9] <= phases <= SUCCESS[..11] && (r.Ok? ==> phases == SUCCESS[..11])
      ensures old(calls) <= calls <= old(calls) + [RunDump, RunSmoke]
      ensures r.Ok? <==> SmokeFailure(f).None?
      ensures r.Err? ==> SmokeFailure(f) == Some(r.error)
    {
      var ok := Record(DumpState);
      if !ok {
        return Err(PhaseTransition);
      }
      if !f.inst.appPath {
        return Err(DumpStateInvocation);
      }
      calls := calls + [RunDump];
      if f.inst.dumpStatus.None? {
        return Err(DumpStateInvocation);
      }
      if f.inst.dumpStatus.value != 0 {
        return Err(DumpStateFailed);
      }
      if f.inst.dumpVersion.None? {
        return Err(DumpStateMalformed);
      }
      if f.inst.dumpVersion.value != f.id.expected.version {
        return Err(DumpStateVersionMismatch);
      }
      ok := Record(Smoke);
      if !ok {
        return Err(PhaseTransition);
      }
      if !f.inst.smokeArgs {
        return Err(SmokeInvocation);
      }
      calls := calls + [RunSmoke];
      if f.inst.smokeStatus.None? {
        return Err(SmokeInvocation);
      }
      if f.inst.smokeStatus.value != 0 {
        return Err(SmokeFailed);
      }
      if !f.inst.smokeLine {
        return Err(SmokeEvidenceMissing);
      }
      r := Ok(());
    }

    /** Everything between the capture and the restore. */
    method InstallAndSmoke(receipt: Finalization) returns (r: Result<(int, Evidence), Error>)
      requires Baseline(f, digest, receipt) && phases == SUCCESS[..7]
      modifies this
      ensures SUCCESS[..7] <= phases <= SUCCESS[..11] && (r.Ok? ==> phases == SUCCESS[..11])
      ensures old(calls) <= calls <= old(calls) + [RunSetup, RunDump, RunSmoke]
      ensures r.Ok? <==> InstallFailure(f, digest).None?
      ensures r.Err? ==> InstallFailure(f, digest) == Some(r.error)
      ensures r.Ok? ==> f.inst.setup.Some? && r.value == (digest(f.inst.setup.value), receipt.executable)
    {
      var setup := RunInstaller();
      if setup.Err? {
        return Err(setup.error);
      }
      var installed := CompareInstalled(receipt);
      if installed.Err? {
        return Err(installed.error);
      }
      var smoked := DumpAndSmoke();
      if smoked.Err? {
        return Err(smoked.error);
      }
      r := Ok((setup.value, installed.value));
    }

    /** Step 10 after the restore. */
    method RevalidateCandidate() returns (r: Result<(), Error>)
      requires phases == SUCCESS[..12] && f.id.manifest.Some? && f.box.sourceNotice.Some? && f.box.sourceRust.Some?
      modifies this`phases
      ensures SUCCESS[..12] <= phases <= SUCCESS[..13] && (r.Ok? ==> phases == SUCCESS[..13])
      ensures r.Ok? <==> f.records(Revalidate) && f.late.classified && Unchanged(f)
    {
      var ok := Record(Revalidate);
      if !ok {
        return Err(PhaseTransition);
      }
      if !f.late.classified {
        return Err(PostSmokeClassification);
      }
      if f.late.manifest.None? || f.late.manifest.value != f.id.manifest.value {
        return Err(CandidateMutated);
      }
      if f.late.notice.None? || f.late.notice.value != f.box.sourceNotice.value {
        return Err(NoticeSourceChanged);
      }
      if f.late.rust.None? || f.late.rust.value != f.box.sourceRust.value {
        return Err(NoticeSourceChanged);
      }
      r := Ok(());
    }

    /** Step 11. */
    method WriteReceipt(proof: Proof) returns (r: Result<Proof, Error>)
      requires phases == SUCCESS[..13]
      modifies this
      ensures SUCCESS[..13] <= phases <= SUCCESS && (r.Ok? ==> phases == SUCCESS && r.value == proof)
      ensures old(calls) <= calls <= old(calls) + [Promote]
      ensures r.Ok? <==> f.records(Receipt) && f.late.clock && f.late.staged && f.records(ReceiptStaged) && f.late.promoted
    {
      var ok := Record(Receipt);
      if !ok {
        return Err(PhaseTransition);
      }
      if !f.late.clock {
        return Err(Clock);
      }
      if !f.late.staged {
        return Err(ReceiptWrite);
      }
      ok := Record(ReceiptStaged);
      if !ok {
        return Err(PhaseTransition);
      }
      calls := calls + [Promote];
      if !f.late.promoted {
        return Err(ReceiptWrite);
      }
      r := Ok(proof);
    }

    /** Steps 1 to 5 and the capture. */
    method ReachCapture() returns (r: Result<Finalization, Error>)
      requires phases == [] && calls == []
      modifies this
      ensures phases <= SUCCESS[..7] && (r.Ok? ==> phases == SUCCESS[..7])
      ensures calls <= [Resolve, CaptureHost] && (r.Ok? ==> calls == [Resolve, CaptureHost])
      ensures CaptureHost in calls && f.root.captured ==> r.Ok?
      ensures r.Ok? ==> Baseline(f, digest, r.value) && f.root.captured
      ensures r.Ok? <==> ReachGates(f, digest)
    {
      assert SUCCESS[0] == Classify && SUCCESS[1] == Identity && SUCCESS[2] == Tools && SUCCESS[3] == Containers;
      assert SUCCESS[4] == InstallRoot && SUCCESS[5] == RootReady && SUCCESS[6] == HostCapture;
      r := Identify();
      if r.Err? {
        return;
      }
      var tools := SelectTools(r.value);
      if tools.Err? {
        return Err(tools.error);
      }
      var containers := CompareContainers(r.value);
      if containers.Err? {
        return Err(containers.error);
      }
      var captured := PrepareAndCapture();
      if captured.Err? {
        return Err(captured.error);
      }
    }

    /** The bracket: install and smoke, then restore whatever happened. */
    method Bracketed(receipt: Finalization) returns (r: Result<(int, Evidence), Error>)
      requires Baseline(f, digest, receipt) && phases == SUCCESS[..7]
      modifies this
      ensures PhaseShape(phases) && (r.Ok? ==> phases == SUCCESS[..12])
      ensures exists inside :: inside <= [RunSetup, RunDump, RunSmoke] && calls == old(calls) + inside + [RestoreHost]
      ensures r.Ok? <==> InstallFailure(f, digest).None? && f.records(HostRestore) && f.late.restored
      ensures !f.late.restored ==> r == Err(HostStateRestore(InstallFailure(f, digest)))
      ensures f.late.restored && InstallFailure(f, digest).Some? ==> r == Err(InstallFailure(f, digest).value)
      ensures r.Ok? ==> f.inst.setup.Some? && r.value == (digest(f.inst.setup.value), receipt.executable)
    {
      var installed := InstallAndSmoke(receipt);
      ghost var n := |phases|;
      ghost var inside := calls[|old(calls)|..];
      assert calls == old(calls) + inside;
      assert phases == SUCCESS[..n];
      var phaseOk := Record(HostRestore);
      calls := calls + [RestoreHost];
      if !f.late.restored {
        return Err(HostStateRestore(if installed.Err? then Some(installed.error) else None));
      }
      if installed.Err? {
        return Err(installed.error);
      }
      if !phaseOk {
        return Err(PhaseTransition);
      }
      r := installed;
    }

    /** Steps 10 and 11, after a successful bracket. */
    method Conclude(proof: Proof) returns (r: Result<Proof, Error>)
      requires phases == SUCCESS[..12] && f.id.manifest.Some? && f.box.sourceNotice.Some? && f.box.sourceRust.Some?
      modifies this
      ensures phases <= SUCCESS && (r.Ok? ==> phases == SUCCESS && r.value == proof)
      ensures calls == old(calls) || (calls == old(calls) + [Promote] && Unchanged(f))
      ensures r.Ok? <==>
                && f.records(Revalidate) && f.late.classified && Unchanged(f)
                && f.records(Receipt) && f.late.clock && f.late.staged && f.records(ReceiptStaged) && f.late.promoted
    {
      var valid := RevalidateCandidate();
      if valid.Err? {
        return Err(valid.error);
      }
      r := WriteReceipt(proof);
    }

    /** The whole run, against its gates. */
    method RunGated() returns (r: Result<Proof, Error>)
      requires phases == [] && calls == []
      modifies this
      ensures PhaseShape(phases) && (r.Ok? ==> phases == SUCCESS)
      ensures BracketShape(calls, CaptureHost in calls && f.root.captured)
      ensures r.Ok? <==> ReachGates(f, digest) && InstallFailure(f, digest).None? && LateGates(f)
      ensures CaptureHost in calls && f.root.captured ==> ReachGates(f, digest)
      ensures CaptureHost in calls && f.root.captured && !f.late.restored ==>
                r == Err(HostStateRestore(InstallFailure(f, digest)))
      ensures Promote in calls ==>
                ReachGates(f, digest) && InstallFailure(f, digest).None? && f.late.restored && Unchanged(f)
      ensures r.Ok? ==> r.value == Proof(f.id.receipt.value.executable, f.id.receipt.value.executable.sha,
                                         digest(f.id.manifest.value), digest(f.inst.setup.value))
    {
      var receipt := ReachCapture();
      if receipt.Err? {
        return Err(receipt.error);
      }
      ghost var before := calls;
      var installed := Bracketed(receipt.value);
      ghost var inside :| inside <= [RunSetup, RunDump, RunSmoke] && calls == before + inside + [RestoreHost];
      assert calls == [Resolve, CaptureHost] + inside + [RestoreHost] + [];
      BracketedCalls(inside, []);
      if installed.Err? {
        return Err(installed.error);
      }
      r := Conclude(Proof(receipt.value.executable, installed.value.1.sha,
                          digest(f.id.manifest.value), installed.value.0));
      BracketedCalls(inside, [Promote]);
    }

    /** `prove_native`: for every fault schedule, the recorded phases and the host bracket have
        their shape, a receipt is promoted exactly when everything was available and
        consistent, and a failed restore always surfaces with the earlier failure. */
    method ProveNative() returns (r: Result<Proof, Error>)
      requires phases == [] && calls == []
      modifies this
      ensures PhaseShape(phases) && (r.Ok? ==> phases == SUCCESS)
      ensures BracketShape(calls, CaptureHost in calls && f.root.captured)
      ensures r.Ok? <==> Available(f) && Consistent(f, digest)
      ensures Promote in calls ==> Consistent(f, digest)
      ensures CaptureHost in calls && f.root.captured && !f.late.restored ==>
                && f.id.receipt.Some? && f.box.sourceNotice.Some? && f.box.sourceRust.Some?
                && r == Err(HostStateRestore(InstallFailure(f, digest)))
      ensures r.Ok? ==> r.value == Proof(f.id.receipt.value.executable, f.id.receipt.value.executable.sha,
                                         digest(f.id.manifest.value), digest(f.inst.setup.value))
      ensures r.Ok? ==>
                && f.inst.exe.Some?
                && r.value.packaged == Evidence(digest(f.inst.exe.value), |f.inst.exe.value|)
                && r.value.installedSha == digest(f.inst.exe.value)
    {
      r := RunGated();
      GatesMeanConsistent(f, digest);
      if r.Ok? { PromotionMeans(f, digest); }
    }
  }
}
