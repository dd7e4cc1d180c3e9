# Verified model of the solstone Windows app's protocols and release checkers

This project models, in Dafny 4.11, the parts of the solstone Windows app whose correctness
spans several functions or a whole run, and proves what they keep. `dafny verify dfyconfig.toml`
checks everything.

| files | what they model |
|---|---|
| `ProofProtocol`, `ProofSafety`, `ProofFreshness`, `ProofWebview`, `ProofSystem` | the proof-preview protocol between the settings webview, the native proof gate and the capture engine, and the objects that run it |
| `HandoffOverlay`, `SetupJournal`, `SetupSafety`, `SetupApp` | opening the setup journal in the browser, with crash recovery, and retiring a finished handoff |
| `PackageCache`, `PackageScan`, `ApplyUpdate`, `UpdateFlight`, `UpdateSafety`, `UpdateRace`, `UpdateOrigin` | the updater: staging a package, choosing one, the apply transaction, the single in-flight operation |
| `NativeProof` | the native release proof: host-state bracket and receipt |
| `ExclusionRules`, `ExclusionStore`, `RulesDisk`, `RulesRefinement`, `ExclusionCode` | capture-exclusion rules, the policy across launches, the save on disk step by step, and the refinement between the two |
| `ArtifactPaths`, `ArtifactWalk`, `WalkExactness`, `BundleInventory` | the path grammar, the directory walk and the pinned-bundle verifier |
| `DependencyClosure`, `NoticeIndex` | the dependency closure and the notices file with its index |
| `BundleHeads`, `MicOrder` | the Git bundle-head parser and the displayed microphone order |
| `Prelude`, `Text`, `Seqs` | shared datatypes, strings and sequences |

Stateful protocols are given twice. A pure transition function over values, with runs as
sequences of events, carries the whole-run theorems. Classes with the source's own variables
and its order of assignments take those steps: in `ProofSystem` and `ExclusionCode` the class
invariant says that every variable is where a run of events puts it, so each theorem about runs
is one about the objects. History fields (`log`, `trace`, `sources`) exist only so that a
property of a run can be said.

## What the main theorems say

- **Proof preview.** In every interleaving of opens, closes, focus and health changes, native
  closes, lost calls and late previews, what is on screen carries the generation the gate issued
  to the webview's latest request, and that request was an open (`StalePreviewSafety`). Letting
  the promise chain finish always brings gate and webview into agreement (`DrainConverges`).
  The running objects keep this at every step (`ProofSystem.System`).
- **Samples can be stale under a fresh generation.** The engine restamps its snapshot with the
  current generation before the pending `ClearPreviews` is handled. `FreshExactlyWhenPrompt`
  gives the exact condition on runs; `StaleSampleCanBeShown` is a run where an old microphone
  level reaches the screen under the new generation.
- **Setup journal.** Over every run with opener failures, save failures (including a save that
  published and then reported an error), teardowns and crashes, `Done` follows the durable record,
  no open follows it, and opens are bounded by one plus the crashes and teardowns before it
  (`OrderAndOpenCount`); the bound is reached from a fresh install (`OpenCountIsTight`). A crash
  anywhere after the record is repaired exactly when the stored confirmation is the pairing's.
- **Updater.** With any number of threads and the cache changing at any time, the token is taken
  exactly while one thread holds it and every bracket is matched. The package a helper is started
  for was authentic in the cache when chosen, and the very same file lay at the installer's own
  path at the check and again at the start (`StartedPackageWasHeld`).
- **Native proof.** For every fault schedule the phases and the host bracket have their shape, a
  receipt is promoted exactly when everything was available and consistent, and a failed restore
  surfaces with the earlier failure (`ProveNative`).
- **Exclusions.** Stopped between any two steps, with unsynced bytes lost, the rules file is its prior
  bytes or the complete text of rules someone asked to save (`FileIsWhole`), and every such run
  refines the policy (`StepsRefineStore`). While the marker is there and seen a removed app never
  returns; a launch that does not see it brings every removed default back, exactly.
- **Checkers.** The walk returns exactly the tree, independent of enumeration order; the pins leave
  an accepted bundle no freedom; the closure is reachability; every notice reference resolves; the
  head parser accepts exactly four texts; an arrow press shows exactly the swapped list.

## Where the code does less than its comments say

- `crates/capture-engine/src/lib.rs:708-727` restamps samples of other sources, so a level captured
  under an earlier generation can be relabelled, also on behalf of desktop activity
  (`RestampExact`, `StaleSampleCanBeShown`).
- `src-tauri/src/app.rs:377-378` says a handoff whose journal has opened is finished. A refresh that
  cannot load the pairing file offers it again, exactly then (`HandoffStaysRetired`,
  `UnreadablePairingOffersAgain`).
- `src-tauri/src/exclusions.rs:138-142` says the merge never runs on rules the owner saved. It does
  when the marker write failed or the marker cannot be seen (`LaunchAddsExactlyWithoutMarker`,
  `RemovedAppReturnsWithoutMarker`, `KeepassReturns`).
- `src-tauri/src/update.rs:229-239` reports a refused cached entry as retired. A directory, or a file
  that cannot be deleted, stays and blocks every later call (`DirectoryBlocks`, `BlockedForever`,
  `TwoCallsSuffice`).
- `src-tauri/src/update.rs:645-647` says a check is a no-op while an update is staged. The test comes
  before the token is taken; `CheckBeginsStaged` says exactly when a check goes ahead all the same,
  and `CheckCanBeginStaged` is such a run.

## Assumptions

- Gate generations and request numbers never reach 2^64; they are natural numbers here.
- A pairing's binding (a certificate fingerprint) is never used by two pairings.
- A file replaced by rename survives a crash, and so does a marker that was written. Bytes that were
  synced survive too; others need not. The rules file found at launch is on the medium.
- Rules read back from their own text are the same rules (`RoundTrips`); `FileIsWhole` does not need it.
- A digest is any function. Where a result needs two files not to collide it names those two.
- File systems give every entry a nonempty name without a slash (`RealNames`).
- A download touches only the files of its own asset (`OwnNames`).

## Model

| member | source | states |
|---|---|---|
| ProofSafety.StalePreviewSafety | ui/src/main.ts:4263-4302 | in every run the preview on screen carries the generation issued to the latest request, an open of the kind believed open, and no other call ever got that generation |
| ProofSafety.StalePreviewRefused | ui/src/main.ts:4427-4435 | a preview stamped with an earlier request's generation changes nothing, in every reachable state |
| ProofSafety.PaintedExactly | ui/src/main.ts:4427-4454 | over every run, whatever happens, a preview comes on screen exactly by being delivered under the accepted generation to an active window with a visible document and a proof node whose source is on |
| ProofSafety.PagesAndSources | ui/src/main.ts:4278-4281 | which source each wizard page opens, and that the other pages open none |
| ProofSafety.OnlyLastReplyCounts | ui/src/main.ts:4290-4301 | in every reachable world a reply makes the webview accept a generation exactly when it is the last outstanding, a success and for an open; otherwise only the chain shrinks |
| ProofSafety.QuietGateAgrees | src-tauri/src/ipc.rs:1082-1104 | with the chain empty and no native close or lost call since the last executed one, gate source and accepted generation agree with the webview |
| ProofSafety.DrainConverges | ui/src/main.ts:4263-4302 | from every reachable state with a call still to run, finishing the chain makes gate and webview agree, whatever the answers |
| ProofSafety.OpenOnlyWhileEligible | ui/src/main.ts:5326-5329 | in every run the webview keeps a source open only while its window is active and the source is on |
| ProofSafety.NoticeAsksAfresh | ui/src/main.ts:4312-4319 | in every reachable world a late native notice ends, once the chain has run in an eligible window, with the gate open for the wizard's source at a newer generation that the webview accepts |
| ProofSafety.CurrentSampleIsShown | ui/src/main.ts:4427-4454 | in every reachable quiet world with a source open and the page visible, the source's next sample reaches the screen |
| ProofSafety.RunKeepsInv | ui/src/main.ts:4263-4319 | the chain holds the latest consecutive requests, the log is strictly increasing, and an accepted generation belongs to the latest request |
| ProofFreshness.RestampExact | crates/capture-engine/src/lib.rs:708-727 | restamping keeps a snapshot's samples honest exactly when generations agree or no other source is present |
| ProofFreshness.FreshExactlyWhenPrompt | crates/capture-engine/src/lib.rs:695-727 | every snapshot ever sent is honest exactly for the runs in which every restamp is prompt |
| ProofFreshness.ShownSampleIsCurrent | crates/capture-engine/src/lib.rs:1838-1910 | in a prompt run the sample on screen was captured by the source the latest request opened, under its generation |
| ProofFreshness.StaleSampleCanBeShown | crates/capture-engine/src/lib.rs:708-727 | a run that shows an earlier visit's sample under the new generation, for a restamp on behalf of any other source, desktop activity included |
| ProofSystem.System.constructor | ui/src/main.ts:472-476 | the objects start in the protocol's initial state |
| ProofSystem.System.EnsureProofConsumer | ui/src/main.ts:4278-4302 | keeps the objects a reachable world with an honest screen; afterwards a source is believed open exactly if it is the page's own, on, in an active window with a visible document, and a change is one new request |
| ProofSystem.System.SetProofWindowActive | ui/src/main.ts:4304-4310 | keeps the objects a reachable world with an honest screen; an inactive window shows and accepts nothing, an active one asks again exactly on the home page of a wizard |
| ProofSystem.System.HandleProofInactive | ui/src/main.ts:4312-4319 | keeps the objects a reachable world with an honest screen; no older generation is accepted, a close is queued, and the window counts as active exactly if focused and visible |
| ProofSystem.System.SetLatestHealth | ui/src/main.ts:5326-5329 | keeps the objects a reachable world with an honest screen; an open source that is no longer on is closed, otherwise only the report changes |
| ProofSystem.System.NavigateTo | ui/src/main.ts:3507-3513 | keeps the objects a reachable world with an honest screen; nothing shown on one page is still shown on the next |
| ProofSystem.System.WizardStepAnswered | ui/src/main.ts:4591-4603 | keeps the objects a reachable world with an honest screen; a saved step leaves its page's preview behind |
| ProofSystem.System.ApplyPreview | ui/src/main.ts:4427-4454 | for every preview ever sent, however late: shown exactly in an active window, with a visible document, a proof node whose source is on, and the accepted generation; otherwise nothing changes |
| ProofSystem.System.SettleOperation | ui/src/main.ts:4290-4301 | keeps the objects a reachable world with an honest screen; the answer's generation is accepted exactly when the chain is done with a successful open, and a failed last call leaves nothing open |
| ProofSystem.System.SetProofConsumer | src-tauri/src/ipc.rs:1082-1104 | keeps the objects a reachable world with an honest screen; a fresh generation, for the asked source exactly in an eligible window, and a refusal that closes otherwise |
| ProofSystem.System.WizardStepSaved | src-tauri/src/ipc.rs:1005-1016 | keeps the objects a reachable world with an honest screen; a saved step ends every generation issued so far |
| ProofSystem.System.RevokeSettingsProof | src-tauri/src/windows.rs:62-80 | keeps the objects a reachable world with an honest screen; an open gate is closed, a closed one untouched, and the webview told exactly if it was open or the notice is forced |
| ProofSystem.System.ClearPreviews | crates/capture-engine/src/lib.rs:695-705 | keeps the objects a reachable world with an honest screen; no sample is left in the snapshot |
| ProofSystem.System.ClearSourcePreview | crates/capture-engine/src/lib.rs:708-727 | keeps the objects a reachable world with an honest screen; exactly that source's sample is gone, none for desktop activity, and the rest is sent under the gate's generation |
| ProofSystem.System.UpdatePreview | crates/capture-engine/src/lib.rs:1838-1910 | keeps the objects a reachable world with an honest screen; a sample is recorded and sent exactly while the gate is open for its source at its generation |
| HandoffOverlay.UpdateHandoffOverlay | src-tauri/src/app.rs:285-395 | the overlay for every mailbox outcome and every readable or unreadable file; a handoff is hidden exactly when its progress cannot be read or its journal was opened for it |
| HandoffOverlay.ShownMeans | src-tauri/src/app.rs:264-393 | field by field: when a handoff is offered, with what revision and expiry, and when each flag is set |
| HandoffOverlay.CompletedNeverHidesAnother | src-tauri/src/app.rs:352-383 | a completed handoff never hides a distinct one |
| HandoffOverlay.RetiredExactlyWhenReadable | src-tauri/src/app.rs:355-393 | a finished handoff is retired exactly when the refresh can read the pairing file, and otherwise offered again with a failure reported |
| HandoffOverlay.UnreadablePairingOffersAgain | src-tauri/src/app.rs:391-391 | such a refresh, for every mailbox outcome |
| SetupSafety.OrderAndOpenCount | src-tauri/src/ipc.rs:1420-1564 | over every run, `Done` follows the record, no open follows it, and opens are at most one plus the crashes and teardowns before it |
| SetupSafety.OpenCountIsTight | src-tauri/src/ipc.rs:1483-1522 | for every k there is a run from a fresh install with k crashes before the record and k + 1 opens |
| SetupSafety.OpenIsForLiveBinding | src-tauri/src/ipc.rs:1428-1511 | a browser open happens only for the binding held, saved and shown as paired, not yet recorded, and exactly when nothing refused it |
| SetupSafety.BeginExactly | src-tauri/src/ipc.rs:1428-1482 | a call goes ahead exactly for the held, shown and saved binding from a handoff, not being retired, with the wizard at its connection step or done; and needs the browser exactly if the journal was never opened and no bridge is up |
| SetupSafety.FinishIsForLiveBinding | src-tauri/src/ipc.rs:1523-1564 | the wizard is finished only for the binding held and saved, whose open is on record; recovery only for the saved one |
| SetupSafety.RecordIsDurable | crates/pl-transport-win/src/credential.rs:772-870 | the file's flag is exactly the history's record through every save, and a recorded binding's next call skips the browser |
| SetupSafety.CrashIsRepaired | src-tauri/src/ipc.rs:1568-1597 | a crash anywhere after the record and before `Done` is acted on at restart exactly when the stored confirmation is the saved pairing's: to `Done` or to a pending flag, without an open |
| SetupSafety.CrashKeepsOnlyFiles | src-tauri/src/ipc.rs:1566-1597 | a crash keeps pairing and wizard and nothing in memory; a binding is held again only if the session resumes with the saved credential |
| SetupSafety.RecoveryIsIdempotent | src-tauri/src/ipc.rs:1568-1597 | running recovery again changes nothing |
| SetupSafety.FinishedLasts | crates/pl-transport-win/src/credential.rs:852-868 | a finished handoff stays finished until the pairing itself changes |
| SetupSafety.DoneIsFinished | src-tauri/src/ipc.rs:1523-1597 | when a call or a recovery is done with a pairing, its handoff is finished on disk |
| SetupSafety.HandoffStaysRetired | src-tauri/src/app.rs:355-393 | from then on, until the pairing changes, a refresh shows the handoff retired exactly when it can read the pairing file, for every mailbox outcome |
| SetupSafety.RunKeepsInv | src-tauri/src/ipc.rs:1420-1597 | for each binding: counts, order, file flag and call stage stay consistent |
| SetupApp.CallIsRun | src-tauri/src/ipc.rs:1420-1544 | an uninterrupted call is the run of its six steps |
| SetupApp.Shell.OpenSetupJournalWith | src-tauri/src/ipc.rs:1420-1544 | the call is the run of its six steps; the exact condition for success in the fields; success means recorded, done, not pending, and this pairing's handoff retired exactly if its file could be read; a call whose checks fail changes nothing |
| SetupApp.Shell.CheckConnection | src-tauri/src/ipc.rs:1428-1475 | passes exactly for the held, paired, activated binding, not being retired, with the source steps finished |
| SetupApp.Shell.BrowseJournal | src-tauri/src/ipc.rs:1483-1522 | bridge, second check, open, and the old bridge shut down |
| SetupApp.Shell.RecoverSetupBrowserCompletion | src-tauri/src/ipc.rs:1568-1597 | acts exactly on a live pairing from a handoff, opened, confirmed as its own, with the wizard at its connection step; never touches pairing or bridge |
| PackageCache.Cache.StageFullPackage | src-tauri/src/update.rs:213-260 | result, directory and actions of a staging call; success means package and sidecar are regular files in the cache, the signature holds of their contents and the version is the feed's |
| PackageCache.StagedExactly | src-tauri/src/update.rs:189-260 | success means the file now in the cache is admitted at the feed's version, and exactly when the cached copy or else the download is |
| PackageCache.AdmittedIsSigned | crates/observer-update/src/admission.rs:378-407 | admission is a plain name and a signed package at the version; "not ready" only a regular file without a sidecar |
| PackageCache.StagedIsSigned | src-tauri/src/update.rs:213-260 | a call succeeds exactly when the cached copy, or else the download, is signed at the feed's version |
| PackageCache.FailedCallClearsUp | src-tauri/src/update.rs:229-260 | a failed call leaves nothing of the asset that could be deleted, except a download whose sidecar is missing |
| PackageCache.UnplainNameRefused | crates/observer-update/src/admission.rs:41-52 | a name with a separator, a leading dot or two dots in a row is refused before anything is touched |
| PackageCache.PlainExactly | crates/observer-update/src/admission.rs:41-52 | the accepted names, character by character |
| PackageCache.FileStemIs | crates/observer-update/src/admission.rs:355-368 | the partial download is named after the package without its last extension |
| PackageCache.RetireFrame | crates/observer-update/src/admission.rs:355-368 | every other file stays, and of the asset only what cannot be deleted |
| PackageCache.StagingFrame | src-tauri/src/update.rs:213-260 | no other asset's file is touched, and a name that is not plain reaches neither disk nor network |
| PackageCache.BadCacheCostsOneCall | src-tauri/src/update.rs:229-246 | after a refused cached copy the next call downloads exactly when the entry could be deleted |
| PackageCache.DirectoryBlocks | src-tauri/src/update.rs:229-239 | a directory at a plain package name blocks the cache |
| PackageCache.BlockedForever | src-tauri/src/update.rs:229-239 | a refused entry that cannot be deleted fails every later call, however many there are and whatever they could download |
| PackageCache.TwoCallsSuffice | src-tauri/src/update.rs:229-260 | from any cache, two calls whose downloads deliver end staged exactly when the cache is not blocked |
| PackageScan.ScanAuthenticatedPackages | crates/observer-update/src/admission.rs:415-467 | selects a signed full package newer than the installed one, at least as new as every other in the listing, at its own path with its file held; rejected exactly when an entry is unreadable or a candidate unsigned |
| PackageScan.SelectionIsNewest | crates/observer-update/src/admission.rs:415-467 | whether anything is selected, and at what version, does not depend on the listing's order |
| UpdateFlight.RunKeepsInv | src-tauri/src/update.rs:633-873 | in every interleaving the history of the token is legal and matches who holds it |
| UpdateSafety.SingleFlight | src-tauri/src/update.rs:633-641 | busy exactly while one thread is between taking and releasing, never two |
| UpdateSafety.StagedWasAdmitted | src-tauri/src/update.rs:789-813 | every staged asset was admitted under the same hold of the token |
| UpdateSafety.StagedIsLastNoted | src-tauri/src/update.rs:566-574 | the field is the construction-time scan's result or the last value a holder wrote |
| UpdateSafety.StartedWasChecked | src-tauri/src/update.rs:319-345 | the helper starts last, for the package its thread chose and then checked under the same hold |
| UpdateSafety.MarksAreEarned | src-tauri/src/update.rs:301-345 | over every run, each admission, choice, check and start was left by one step of its thread, with the signature or the held file in the cache as it stood at that step |
| UpdateSafety.StartedPackageWasHeld | src-tauri/src/update.rs:301-345 | over every run that ends in a start: the chosen file passed the signature check, and the cache entry at the installer's own path was one and the same file when chosen, when checked and when started |
| UpdateSafety.StagedWasSigned | src-tauri/src/update.rs:789-813 | over every run, an asset noted as staged was signed in the cache at its version at an earlier step of the same thread |
| UpdateOrigin.KnownWasFound | src-tauri/src/update.rs:648-815 | over every run, whatever is on offer, downloaded, admitted or staged by a thread was found by an earlier feed check |
| UpdateOrigin.OfferChangesExactly | src-tauri/src/update.rs:669-755 | how each step changes what is on offer: found, withdrawn by an empty feed or a dismissal, kept by a failed check |
| UpdateOrigin.WithdrawnStaysWithdrawn | src-tauri/src/update.rs:759-878 | over every run, a withdrawn offer stays withdrawn until a check is told of an update, and a download meanwhile does nothing |
| UpdateOrigin.CheckGoesOn | src-tauri/src/update.rs:701-714 | a check goes on to download exactly when it found an update and that is wanted |
| UpdateOrigin.UnmanagedDoesNothing | src-tauri/src/update.rs:648-873 | without an update manager no number of calls checks, downloads, stages, starts or touches the cache |
| UpdateSafety.InstallIsSpawnAdmitted | src-tauri/src/update.rs:319-345 | an install's steps have exactly the effects, result and cache of the apply transaction |
| UpdateSafety.BracketsBalance | src-tauri/src/update.rs:648-873 | takes equal releases and quiesces equal resumes, but for the operation in flight or the started install |
| UpdateRace.CheckBeginsStaged | src-tauri/src/update.rs:648-667 | in every run a check takes the token with an update staged exactly when the last note since it looked was a staged asset |
| UpdateRace.CheckCanBeginStaged | src-tauri/src/update.rs:648-667 | a run in which it does, for every asset and every download that delivers it |
| UpdateRace.SomethingDelivers | src-tauri/src/update.rs:248-260 | there is such an asset and such a download |
| ApplyUpdate.Installer.SpawnAdmitted | src-tauri/src/update.rs:319-345 | the helper starts exactly if the entry at the installer's own path is the held file before and after the quiesce; nothing happens if it differed before, and the host resumes if it differed during |
| ApplyUpdate.Installer.ApplyFromCache | src-tauri/src/update.rs:347-368 | started exactly when the helper ran, and then for the newest signed package, its own path holding the same file before and after the quiesce; effects balanced; nothing pending exactly with no candidate and no rejection |
| NativeProof.Prover.ProveNative | xtask/src/native_release_proof.rs:358-705 | phases and host bracket keep their shape under every fault schedule; a receipt exactly when available and consistent, with the installed executable's digest and length; a failed restore surfaces with the earlier failure |
| NativeProof.PromotionMeans | xtask/src/native_release_proof.rs:364-705 | fact by fact, what a promoted receipt needs of every phase, read, command and copy |
| NativeProof.GatesMeanConsistent | xtask/src/native_release_proof.rs:433-668 | the gates passed in order are exactly availability and consistency of all copies |
| NativeProof.PromotedNoticesAreSource | xtask/src/native_release_proof.rs:553-576 | the installed notices are the source's, byte for byte, at install and at the end, unless those two files collide |
| NativeProof.Prover.ReadMatchingFinalizationReceipt | xtask/src/native_release_proof.rs:781-815 | the receipt must bind this candidate and this UI lock |
| NativeProof.Prover.BindFinalizationReceipt | xtask/src/release_receipt.rs:454-490 | field by field is equality of the binding |
| NativeProof.Prover.ReachCapture | xtask/src/native_release_proof.rs:364-493 | steps 1 to 5 and the capture, against their gates |
| NativeProof.Prover.CompareContainers | xtask/src/native_release_proof.rs:433-477 | both containers carry the receipt's executable and the source's notices |
| NativeProof.Prover.CompareInstalled | xtask/src/native_release_proof.rs:532-576 | the installed copies carry the same evidence, or the first failure is named |
| NativeProof.Prover.InstallAndSmoke | xtask/src/native_release_proof.rs:494-630 | everything inside the bracket, with the first failure |
| NativeProof.Prover.Bracketed | xtask/src/native_release_proof.rs:491-642 | the restore runs once after everything inside, whatever failed, and decides the error |
| NativeProof.Prover.RevalidateCandidate | xtask/src/native_release_proof.rs:644-669 | manifest and source notices read the same bytes as before |
| NativeProof.Prover.WriteReceipt | xtask/src/native_release_proof.rs:671-705 | staged, then promoted |
| ExclusionRules.DedupeLower | crates/observer-exclusion/src/lib.rs:127-137 | the loop computes the canonical list |
| ExclusionRules.DedupeExact | crates/observer-exclusion/src/lib.rs:127-137 | canonical, without repeats, holding exactly the inputs' canonical forms |
| ExclusionRules.DedupeIsLower | crates/observer-exclusion/src/lib.rs:127-137 | no entry is empty, holds a capital ASCII letter, or begins or ends with white space |
| ExclusionRules.CaseTwinAddsNothing | crates/observer-exclusion/src/lib.rs:127-137 | a value differing from another only in ASCII case adds nothing |
| ExclusionRules.PaddingIgnored | crates/observer-exclusion/src/lib.rs:130-130 | white space around a value is ignored |
| ExclusionRules.DedupePrefix | crates/observer-exclusion/src/lib.rs:127-137 | order of first occurrence: appending values never disturbs what was there |
| ExclusionRules.DedupeFixed | crates/observer-exclusion/src/lib.rs:127-137 | a canonical list is left as it is |
| ExclusionRules.CanonIdempotent | crates/observer-exclusion/src/lib.rs:130-130 | trimming and lowercasing again changes nothing |
| ExclusionRules.NormalizedIdempotent | crates/observer-exclusion/src/lib.rs:118-124 | normalized rules are their own normal form |
| ExclusionRules.MergeExact | crates/observer-exclusion/src/lib.rs:107-113 | the owner's rules first and in order, every default, no app twice, and nothing else changed |
| ExclusionRules.MergeIdempotent | crates/observer-exclusion/src/lib.rs:107-113 | merging twice adds nothing |
| ExclusionStore.UnreadableStays | src-tauri/src/exclusions.rs:179-190 | an unreadable policy keeps its bytes and stays unavailable until an edit is saved |
| ExclusionStore.SavedEditRepairs | src-tauri/src/exclusions.rs:120-145 | a saved edit is the file, available, and what the next launch loads |
| ExclusionStore.LoadMeans | src-tauri/src/exclusions.rs:75-84 | case by case what a launch goes by, whether it is available, and whether it is saved back |
| ExclusionStore.DefaultsAreListed | crates/observer-exclusion/src/lib.rs:73-94 | the defaults name each of the seven password managers |
| ExclusionStore.RemovedAppStaysRemoved | src-tauri/src/exclusions.rs:74-96 | while the marker is there and every launch sees it, a removed app returns only by an edit that names it |
| ExclusionStore.LaunchAddsExactlyWithoutMarker | src-tauri/src/exclusions.rs:74-96 | a launch adds a removed default back exactly when it does not see the marker, and otherwise writes nothing |
| ExclusionStore.MergeAgainAddsNothing | src-tauri/src/exclusions.rs:198-209 | a lost marker write costs nothing at the next launch |
| ExclusionStore.RemovedAppReturnsWithoutMarker | src-tauri/src/exclusions.rs:134-144 | a saved edit whose marker write failed loses every removed default at the next launch |
| ExclusionStore.KeepassReturns | src-tauri/src/exclusions.rs:134-144 | such a run exists |
| RulesDisk.FileIsWhole | src-tauri/src/exclusions.rs:211-244 | over every run of steps, stopped anywhere with unsynced bytes lost, the file is its prior bytes or the complete text of canonical rules an edit or a launch asked to save |
| RulesDisk.SaveInv | src-tauri/src/exclusions.rs:214-244 | at every step the sibling holds exactly the part of the text written so far, is synced before it is renamed, and a text being saved was asked for |
| RulesRefinement.StepsRefineStore | src-tauri/src/exclusions.rs:74-145 | at every step files and controller are where a run of whole launches and edits leaves them |
| RulesRefinement.RemovedAppStaysRemovedOnDisk | src-tauri/src/exclusions.rs:74-145 | a removed app stays removed through torn saves and crashes, while every start sees the marker and no edit names it |
| ExclusionCode.ExclusionController.FollowsPolicy | src-tauri/src/exclusions.rs:74-145 | the controller's own files are whole and follow the policy |
| ExclusionCode.ExclusionController.WriteAll | src-tauri/src/exclusions.rs:232-236 | partial writes add up to the whole text, or the save is given up |
| ExclusionCode.ExclusionController.PersistRules | src-tauri/src/exclusions.rs:214-244 | the complete text replaces the file or the file stays; other processes' siblings are untouched, and an own one stays only when its removal failed |
| ExclusionCode.ExclusionController.New | src-tauri/src/exclusions.rs:74-96 | what is loaded takes effect; only a seed or a merge is saved; a policy that could not be loaded leaves file and marker alone |
| ExclusionCode.ExclusionController.Set | src-tauri/src/exclusions.rs:120-145 | an edit takes effect at once; the answer says whether the file is now its complete text, and if not the file is what it was |
| ArtifactPaths.ValidateRelativePath | xtask/src/artifact_fs.rs:278-348 | accepts exactly the paths whose every component is portable, and names what is wrong with the whole path first |
| ArtifactPaths.CheckComponent | xtask/src/artifact_fs.rs:301-346 | the component checks amount to one rule |
| ArtifactPaths.PortableNameExactly | xtask/src/artifact_fs.rs:301-346 | character by character: the allowed alphabet, no trailing dot, and none of the twenty-two device names in any case or with any extension |
| ArtifactPaths.FoldSame | xtask/src/artifact_fs.rs:397-408 | folded paths are equal exactly when they differ at most in ASCII case |
| ArtifactPaths.AcceptanceComposes | xtask/src/artifact_fs.rs:278-348 | `a/b` is accepted exactly when `a` and `b` are |
| ArtifactWalk.Walk.WalkRecursive | xtask/src/artifact_fs.rs:483-535 | succeeds exactly when everything below is acceptable and case-distinct, with exactly those files and directories |
| WalkExactness.WalkDirectory | xtask/src/artifact_fs.rs:452-481 | the inventory of a whole tree |
| WalkExactness.InventoryIsTree | xtask/src/artifact_fs.rs:483-535 | the inventory is exactly what following names from the root finds |
| WalkExactness.GoodIsInjective | xtask/src/artifact_fs.rs:397-408 | files and directories are disjoint, valid and distinct under case folding |
| WalkExactness.SiblingTwinsRefused | xtask/src/artifact_fs.rs:397-408 | two entries of one directory whose names differ only in ASCII case refuse the walk |
| WalkExactness.CaseTwinsRefused | xtask/src/artifact_fs.rs:397-408 | so do any two paths in the tree |
| WalkExactness.GoodIsWholesome | xtask/src/artifact_fs.rs:483-535 | a walk that succeeds found only readable regular files and directories at every depth |
| WalkExactness.InventoryIsParentClosed | xtask/src/artifact_fs.rs:518-521 | every ancestor of an inventoried path is an inventoried directory |
| WalkExactness.OrderDoesNotMatter | xtask/src/artifact_fs.rs:483-535 | success and result do not depend on enumeration order |
| BundleInventory.VerifyDeclaredPaths | xtask/src/observer_contract.rs:635-648 | passes exactly for valid declarations of which no two differ only in case |
| BundleInventory.ParentsOf | xtask/src/observer_contract.rs:691-700 | popping a path yields exactly its ancestors |
| BundleInventory.VerifyInventory | xtask/src/observer_contract.rs:650-712 | passes exactly when declarations equal pins, files equal pins plus manifest, and directories equal their ancestors |
| BundleInventory.FirstMismatchIsFirst | xtask/src/observer_contract.rs:411-428 | the deferred error is the first disagreement, and none means all agree |
| BundleInventory.DigestPass | xtask/src/observer_contract.rs:411-428 | the loop keeps the first mismatch over manifest, declarations and pins |
| BundleInventory.Verify | xtask/src/observer_contract.rs:385-460 | accepts exactly well-formed bundles whose every digest agrees; a digest error is the first one of an otherwise well-formed bundle |
| BundleInventory.ComparisonsCover | xtask/src/observer_contract.rs:411-428 | no mismatch means the manifest has its digest and every file both its declared and its pinned one |
| BundleInventory.AcceptedBundlesAreIdentical | xtask/src/observer_contract.rs:385-460 | two accepted bundles hold the same paths in the same directories with the same digests, and the same bytes unless the two files at one path collide |
| DependencyClosure.Closure | scripts/generate-rust-notices.py:99-119 | fails exactly without one root package, and returns exactly the packages reachable by non-dev edges: closed under them, and nothing without one |
| DependencyClosure.KindsFollowed | scripts/generate-rust-notices.py:114-118 | a normal or build edge is followed, one that is only for development is not |
| DependencyClosure.Worklist | scripts/generate-rust-notices.py:105-119 | terminates on every graph and returns exactly the reachable set |
| DependencyClosure.ClosedHoldsPath | scripts/generate-rust-notices.py:105-119 | a closed set holds everything reachable from its members |
| NoticeIndex.FiledLast | scripts/generate-rust-notices.py:222-224 | under each digest the table holds the last file with it |
| NoticeIndex.CollectTexts | scripts/generate-rust-notices.py:202-235 | one text per digest, every file filed, references carrying digest and length |
| NoticeIndex.BuildNotice | scripts/generate-rust-notices.py:274-290 | the file is the header and one section per digest in ascending order, with every text's range |
| NoticeIndex.RecordsPointAtTexts | scripts/generate-rust-notices.py:276-290 | the file begins with the header; every range is exactly its text, headed by its digest, followed by a blank line, disjoint and ascending |
| NoticeIndex.Generate | scripts/generate-rust-notices.py:197-292 | fails exactly on a package without texts, or else on an oversized file, and otherwise returns the file, its index and the references |
| NoticeIndex.ReferencesResolve | scripts/generate-rust-notices.py:222-231 | every reference resolves to exactly one record of the same length and bytes, unless another shipped text has its digest |
| BundleHeads.VerifyBundleHeads | xtask/src/advisory_audit.rs:592-607 | accepts exactly the four texts: both lines at the commit, in either order, with at most one trailing newline |
| BundleHeads.ParseHeads | xtask/src/advisory_audit.rs:594-602 | every line is the commit and a plain name, all names distinct |
| BundleHeads.StrictLine | xtask/src/advisory_audit.rs:609-616 | the exact inverse of appending a newline to a nonempty single line |
| MicOrder.OrderedMicDevices | ui/src/main.ts:3301-3319 | the two loops compute the specified order |
| MicOrder.DisplayedOrder | ui/src/main.ts:3299-3319 | prioritised devices in order of first mention, then the rest as listed, each id once; a permutation exactly when no two devices share an id |
| MicOrder.StoredOrderIsDisplayed | ui/src/main.ts:3301-3319 | any stored arrangement of the present ids is displayed as it is |
| MicOrder.ReorderedPriority | ui/src/main.ts:3399-3414 | the arrows exchange two neighbours of the displayed ids |
| MicOrder.ArrowSwapsNeighbours | ui/src/main.ts:3394-3416 | after an arrow press the ids shown are the old ones with the neighbours exchanged, for every input; the exact condition for the devices themselves |
| MicOrder.DistinctLooksUp | ui/src/main.ts:3301-3302 | that condition holds whenever no two devices share an id |

## Left out

- The update display reducer and its events, preferences, notes and the timer's due test: a tick is a call at an arbitrary time.
- PackageScan.ScanAuthenticatedPackages: the order of versions and the version in a canonical file name are functions given to it; a version is not parsed.
- In a run of the updater an install may choose any authentic package, not only the newest; the runs of the real scan are among these.
- PackageCache.Admit: does not model a file replaced while it is being authenticated.
- The engine's rate limits on previews: a dropped sample is an event that does not happen.
- ProofSystem.System.UpdatePreview: does not model the level computation or the frame downscale; a sample is a tag and a number.
- The webview's rendering, routing beyond "home or not", and the derivation of a source's status: health arrives as the set of sources that are on.
- The pairing ceremony, retirement and confirmation: they are events that replace, retire, drop or resave the pairing.
- The proof gate's close at the end of setup: it is the `NativeClose` event of the preview protocol.
- SetupApp.Shell.OpenSetupJournalWith: does not model waiting for the journal-open lock; it starts with the lock held.
- The setup sequence switch, a constant that is on in this version.
- NativeProof.Prover.ProveNative: does not model JSON, archives, path text, argument substitution or literal-line search; each is a fact of the run.
- BundleInventory.Verify: does not model the adoption record read before the walk; one late check stands for the document checks made after the digests.
- ArtifactWalk.Walk.WalkRecursive: one flag per entry stands for metadata, reparse-point, mode and name-encoding failures, so their error names are not told apart.
- The notices generator's license-file search, overrides and prebuilt allowlist.
- Panics, poisoned locks, thread-spawn failure, lock order, logging, window building, tray, hotkey, Git, PowerShell and the network.
