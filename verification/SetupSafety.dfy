/**
  What every run of the setup-journal protocol keeps: the order of the two durable records,
  how often one binding's journal may be opened, and what a restart repairs.
*/
module SetupSafety {
  import opened Prelude
  import opened HandoffOverlay
  import opened SetupJournal

  // ----- counting over the history ----------------------------------------------------

  /** How many times the browser was opened for `b`. */
  function Opens(t: seq<Mark>, b: Binding): nat {
    if t == [] then 0
    else Opens(t[..|t| - 1], b) + if t[|t| - 1] == OpenedBrowser(b) then 1 else 0
  }

  /** How many crashes, and teardowns of `b`'s bridge, came before `b` was recorded. */
  function Breaks(t: seq<Mark>, b: Binding): nat {
    if t == [] then 0
    else
      var before := t[..|t| - 1];
      var last := t[|t| - 1];
      Breaks(before, b) + if (last == Crashed || last == TornDown(b)) && Recorded(b) !in before then 1 else 0
  }

  lemma CountNote(t: seq<Mark>, m: Mark, b: Binding)
    ensures Opens(t + [m], b) == Opens(t, b) + if m == OpenedBrowser(b) then 1 else 0
    ensures Breaks(t + [m], b) ==
              Breaks(t, b) + if (m == Crashed || m == TornDown(b)) && Recorded(b) !in t then 1 else 0
  {
    assert (t + [m])[..|t|] == t;
  }

  // ----- the invariant, for one binding -----------------------------------------------

  /** `b`'s journal is open in the browser, behind a bridge this process holds. */
  predicate Held(a: App, b: Binding) { a.bridge == Some(b) || a.stage == Holding(b) }

  ghost predicate CountInv(a: App, b: Binding) {
    && Opens(a.trace, b) <= 1 + Breaks(a.trace, b)
    && (Recorded(b) !in a.trace ==> Opens(a.trace, b) <= Breaks(a.trace, b) + if Held(a, b) then 1 else 0)
  }

  /** `Done` follows the record, and no open does. */
  ghost predicate OrderInv(t: seq<Mark>, b: Binding) {
    && (forall i :: 0 <= i < |t| && t[i] == WroteDone(b) ==> Recorded(b) in t[..i])
    && (forall i, j :: 0 <= i < j < |t| && t[i] == Recorded(b) ==> t[j] != OpenedBrowser(b))
  }

  ghost predicate RecordInv(a: App, b: Binding) {
    && (a.paired.credential == Some(b) ==> b in a.known && (a.paired.journalOpened <==> Recorded(b) in a.trace))
    && (Recorded(b) in a.trace ==> b in a.known)
  }

  predicate InCall(stage: Stage, b: Binding) {
    stage in {Opening(b), Holding(b), Marking(b), Finishing(b), Closing(b)}
  }

  /** The saved pairing is `b`'s and came from a handoff. */
  predicate CameFrom(p: Paired, b: Binding) {
    p.credential == Some(b) && p.activation.Some? && p.activation.value.binding == b
  }

  ghost predicate StageInv(a: App, b: Binding) {
    && (a.stage == Opening(b) || a.stage == Holding(b) ==> Recorded(b) !in a.trace && a.bridge != Some(b))
    && (a.stage == Finishing(b) || a.stage == Closing(b) ==> Recorded(b) in a.trace)
    && (InCall(a.stage, b) ==> a.access == Some(b) && CameFrom(a.paired, b))
  }

  ghost predicate Inv(a: App, b: Binding) {
    CountInv(a, b) && OrderInv(a.trace, b) && RecordInv(a, b) && StageInv(a, b)
  }

  lemma NoteKeepsOrder(t: seq<Mark>, m: Mark, b: Binding)
    requires OrderInv(t, b)
    requires m == WroteDone(b) ==> Recorded(b) in t
    requires m == OpenedBrowser(b) ==> Recorded(b) !in t
    ensures OrderInv(t + [m], b)
  {
    var u := t + [m];
    forall i | 0 <= i < |u| && u[i] == WroteDone(b)
      ensures Recorded(b) in u[..i]
    {
      assert u[..i] == t[..i];
      assert t[..|t|] == t;
    }
  }

  lemma BeginKeepsInv(a: App, expected: Binding, loads: bool, b: Binding)
    requires Inv(a, b) && a.stage.Idle?
    ensures Inv(Begin(a, expected, loads), b)
  {
  }

  lemma OpenBrowserKeepsInv(a: App, starts: bool, refused: bool, opens: bool, b: Binding)
    requires Inv(a, b) && a.stage.Opening?
    ensures Inv(OpenBrowser(a, starts, refused, opens), b)
  {
    CountNote(a.trace, OpenedBrowser(a.stage.binding), b);
    NoteKeepsOrder(a.trace, OpenedBrowser(a.stage.binding), b);
  }

  /** The flag is set and the history notes it. */
  lemma FlagKeepsInv(a: App, b: Binding)
    requires Inv(a, b) && a.stage.Marking? && BoundTo(a.paired, a.stage.binding) && !a.paired.journalOpened
    ensures Inv(Note(a, Recorded(a.stage.binding)).(paired := a.paired.(journalOpened := true)), b)
  {
    CountNote(a.trace, Recorded(a.stage.binding), b);
    NoteKeepsOrder(a.trace, Recorded(a.stage.binding), b);
  }

  lemma MarkedStageKeepsInv(a: App, ok: bool, b: Binding)
    requires Inv(a, b) && a.stage.Marking?
    requires ok ==> BoundTo(a.paired, a.stage.binding) && a.paired.journalOpened
    ensures Inv(a.(stage := if ok then Finishing(a.stage.binding) else Idle), b)
  {
  }

  lemma RecordKeepsInv(a: App, loads: bool, save: Save, b: Binding)
    requires Inv(a, b) && a.stage.Marking?
    ensures Inv(RecordOpened(a, loads, save), b)
  {
    var (paired, ok) := MarkOpened(a.paired, a.stage.binding, loads, save);
    if paired == a.paired {
      MarkedStageKeepsInv(a, ok, b);
    } else {
      FlagKeepsInv(a, b);
      MarkedStageKeepsInv(Note(a, Recorded(a.stage.binding)).(paired := paired), ok, b);
    }
  }

  lemma FinishKeepsInv(a: App, c: Binding, saves: bool, b: Binding)
    requires Inv(a, b) && (c == b ==> Recorded(b) in a.trace)
    ensures Inv(Finish(a, c, saves).0, b)
  {
    CountNote(a.trace, WroteDone(c), b);
    NoteKeepsOrder(a.trace, WroteDone(c), b);
  }

  lemma RecoverKeepsInv(a: App, loads: bool, saves: bool, b: Binding)
    requires Inv(a, b) && a.stage.Launching?
    ensures Inv(Recover(a, loads, saves).(stage := Idle), b)
  {
    if loads && Unfinished(a) { FinishKeepsInv(a, a.paired.credential.value, saves, b); }
  }

  lemma TearDownKeepsInv(a: App, b: Binding)
    requires Inv(a, b)
    ensures Inv(TearDown(a), b)
    ensures TearDown(a).trace == a.trace || (a.bridge.Some? && TearDown(a).trace == a.trace + [TornDown(a.bridge.value)])
  {
    if a.bridge.Some? {
      CountNote(a.trace, TornDown(a.bridge.value), b);
      NoteKeepsOrder(a.trace, TornDown(a.bridge.value), b);
    }
  }

  lemma KeepBridgeKeepsInv(a: App, b: Binding)
    requires Inv(a, b) && a.stage.Holding?
    ensures Inv(KeepBridge(a), b)
  {
    TearDownKeepsInv(a, b);
  }

  lemma CrashKeepsInv(a: App, resumes: bool, confirmation: Binding, b: Binding)
    requires Inv(a, b)
    ensures Inv(Crash(a, resumes, confirmation), b)
  {
    CountNote(a.trace, Crashed, b);
    NoteKeepsOrder(a.trace, Crashed, b);
  }

  /** Events outside the call touch neither the history nor the call in progress. */
  lemma OtherKeepsInv(a: App, e: Event, b: Binding)
    requires Inv(a, b) && Enabled(a, e)
    requires e.ESetWizard? || e.EPhase? || e.EConfirm? || e.EResave? || e.ERetire? || e.EPair? || e.EDropCredential? || e.EBind?
    ensures Inv(Apply(a, e), b)
  {
  }

  lemma FinishSetupKeepsInv(a: App, saves: bool, b: Binding)
    requires Inv(a, b) && a.stage.Finishing?
    ensures Inv(FinishSetup(a, saves), b)
  {
    FinishKeepsInv(a, a.stage.binding, saves, b);
  }

  lemma CompleteKeepsInv(a: App, b: Binding)
    requires Inv(a, b) && a.stage.Closing?
    ensures Inv(Complete(a), b)
  {
  }

  /** The steps of the journal-open call. */
  predicate InsideCall(e: Event) {
    e.EBegin? || e.EOpenBrowser? || e.EKeepBridge? || e.ERecord? || e.EFinish? || e.EComplete?
  }

  lemma CallStepKeepsInv(a: App, e: Event, b: Binding)
    requires Inv(a, b) && Enabled(a, e) && InsideCall(e)
    ensures Inv(Apply(a, e), b)
  {
    match e
    case EBegin(expected, loads) => BeginKeepsInv(a, expected, loads, b);
    case EOpenBrowser(starts, refused, opens) => OpenBrowserKeepsInv(a, starts, refused, opens, b);
    case EKeepBridge => KeepBridgeKeepsInv(a, b);
    case ERecord(loads, save) => RecordKeepsInv(a, loads, save, b);
    case EFinish(saves) => FinishSetupKeepsInv(a, saves, b);
    case EComplete => CompleteKeepsInv(a, b);
  }

  lemma StepKeepsInv(a: App, e: Event, b: Binding)
    requires Inv(a, b)
    ensures Inv(Step(a, e), b)
  {
    if Enabled(a, e) {
      match e
      case ECrash(resumes, confirmation) => CrashKeepsInv(a, resumes, confirmation, b);
      case ERecover(loads, saves) => RecoverKeepsInv(a, loads, saves, b);
      case ETearDown => TearDownKeepsInv(a, b);
      case _ => if InsideCall(e) { CallStepKeepsInv(a, e, b); } else { OtherKeepsInv(a, e, b); }
    }
  }

  lemma {:induction false} RunKeepsInv(events: seq<Event>, b: Binding)
    ensures Inv(Run(events), b)
  {
    if events == [] {
    } else {
      RunKeepsInv(events[..|events| - 1], b);
      StepKeepsInv(Run(events[..|events| - 1]), events[|events| - 1], b);
    }
  }

  // ----- main results -----------------------------------------------------------------

  /** Over every run: the browser path writes `Done` only after the open was recorded for that
      binding, no open follows the record, and the opens for one binding number at most one
      plus the crashes and teardowns of its bridge before the record. */
  lemma OrderAndOpenCount(events: seq<Event>, b: Binding)
    ensures
      var t := Run(events).trace;
      && (forall i :: 0 <= i < |t| && t[i] == WroteDone(b) ==> Recorded(b) in t[..i])
      && (forall i, j :: 0 <= i < j < |t| && t[i] == Recorded(b) ==> t[j] != OpenedBrowser(b))
      && Opens(t, b) <= 1 + Breaks(t, b)
  {
    RunKeepsInv(events, b);
  }

  /** A browser open happens only for the binding the app holds and shows as paired, after the
      call found it recorded nowhere; and exactly when nothing refused it. */
  lemma OpenIsForLiveBinding(events: seq<Event>, starts: bool, refused: bool, opens: bool)
    requires Run(events).stage.Opening?
    ensures
      var a := Run(events);
      var b := a.stage.binding;
      var x := OpenBrowser(a, starts, refused, opens);
      && a.access == Some(b) && CameFrom(a.paired, b) && Recorded(b) !in a.trace
      && (x.trace == a.trace || x.trace == a.trace + [OpenedBrowser(b)])
      && (x.trace != a.trace <==> starts && !refused && opens && a.phasePaired && a.phaseBinding == b)
  {
    RunKeepsInv(events, Run(events).stage.binding);
  }

  /** A call goes ahead exactly when each of these holds: the app holds the expected binding and
      shows it as paired, the wizard has reached its connection step, the pairing file loads,
      and what it holds is that binding's credential, from a handoff, not being retired. Then it
      needs the browser exactly when the journal was never opened and no bridge is up for it. */
  lemma BeginExactly(a: App, expected: Binding, loads: bool)
    requires a.stage == Idle
    ensures
      var ready :=
        && expected != "" && a.access == Some(expected)
        && a.phasePaired && a.phaseBinding == expected
        && (a.wizard == StepConnection || a.wizard == StepDone)
        && loads
        && a.paired.credential == Some(expected)
        && a.paired.activation.Some? && a.paired.activation.value.binding == expected
        && !a.paired.retiring;
      Begin(a, expected, loads) ==
        if !ready then a
        else if !a.paired.journalOpened && a.bridge != Some(expected) then a.(stage := Opening(expected))
        else a.(stage := Marking(expected))
  {
  }

  /** The call finishes the wizard only for the binding the app holds and has saved, whose open
      is on record; recovery only for the saved one. */
  lemma FinishIsForLiveBinding(events: seq<Event>, saves: bool, loads: bool)
    ensures
      var a := Run(events);
      a.stage.Finishing? && FinishSetup(a, saves).trace != a.trace ==>
        && FinishSetup(a, saves).trace == a.trace + [WroteDone(a.stage.binding)]
        && a.access == Some(a.stage.binding) && CameFrom(a.paired, a.stage.binding)
        && a.paired.journalOpened && Recorded(a.stage.binding) in a.trace
    ensures
      var a := Run(events);
      Recover(a, loads, saves).trace != a.trace ==>
        && a.paired.credential.Some?
        && Recover(a, loads, saves).trace == a.trace + [WroteDone(a.paired.credential.value)]
        && CameFrom(a.paired, a.paired.credential.value) && Recorded(a.paired.credential.value) in a.trace
  {
    var a := Run(events);
    if a.stage.Finishing? { RunKeepsInv(events, a.stage.binding); }
    if a.paired.credential.Some? { RunKeepsInv(events, a.paired.credential.value); }
  }

  /** The flag in the file is exactly the history's record for the saved pairing, whatever was
      saved over it; so a recorded binding's next call never opens the browser. */
  lemma RecordIsDurable(events: seq<Event>, b: Binding, loads: bool)
    requires Run(events).paired.credential == Some(b)
    ensures Run(events).paired.journalOpened <==> Recorded(b) in Run(events).trace
    ensures Run(events).stage.Idle? && Recorded(b) in Run(events).trace ==>
              !Begin(Run(events), b, loads).stage.Opening?
  {
    RunKeepsInv(events, b);
  }

  /** Wherever a crash falls once the open is on record and the wizard is not finished - in the
      call, after a save that published and then reported an error, or long after it - restart
      acts exactly when the stored confirmation is the saved pairing's. It then never opens the
      browser, and ends at `Done`, or at a pending flag with nothing lost. */
  lemma CrashIsRepaired(events: seq<Event>, b: Binding, resumes: bool, confirmation: Binding, saves: bool)
    requires BoundTo(Run(events).paired, b) && Recorded(b) in Run(events).trace
    requires Run(events).wizard == StepConnection
    ensures
      var down := Crash(Run(events), resumes, confirmation);
      var a := Recover(down, true, saves);
      && (a != down <==> confirmation == b)
      && a.paired == Run(events).paired && a.bridge == None && Opens(a.trace, b) == Opens(Run(events).trace, b)
      && (confirmation == b && saves ==> a.wizard == StepDone && !a.ready)
      && (confirmation == b && !saves ==> a.wizard == StepConnection && a.ready && Unfinished(a))
  {
    RunKeepsInv(events, b);
    var c := Crash(Run(events), resumes, confirmation);
    CountNote(Run(events).trace, Crashed, b);
    CountNote(c.trace, WroteDone(b), b);
  }

  /** A crash keeps what is durable and nothing else: the saved pairing and the wizard's step stay,
      the bridge, the pending flag and the call are gone, and a binding is held again only if the
      session resumes with the saved credential. */
  lemma CrashKeepsOnlyFiles(a: App, resumes: bool, confirmation: Binding)
    ensures
      var c := Crash(a, resumes, confirmation);
      && c.paired == a.paired && c.wizard == a.wizard && c.known == a.known
      && c.bridge == None && !c.ready && c.stage == Launching
      && (c.access.Some? <==> resumes && a.paired.credential.Some?)
      && (c.access.Some? ==> c.access == a.paired.credential && c.phasePaired && Some(c.phaseBinding) == a.paired.credential)
      && (c.access.None? ==> !c.phasePaired)
      && c.trace == a.trace + [Crashed]
  {
  }

  /** Running recovery again changes nothing. */
  lemma RecoveryIsIdempotent(a: App, loads: bool, saves: bool)
    ensures Recover(Recover(a, loads, saves), loads, saves) == Recover(a, loads, saves)
  {
  }

  // ----- the bound is reached ---------------------------------------------------------

  /** A pairing from a handoff, its journal not yet opened, ready for the next call. */
  predicate Waiting(a: App, b: Binding) {
    && b != "" && a.stage == Idle && a.access == Some(b) && a.phasePaired && a.phaseBinding == b
    && BoundTo(a.paired, b) && !a.paired.journalOpened && a.bridge == None && a.wizard == StepConnection
  }

  lemma {:induction false} RunFromConcat(a: App, x: seq<Event>, y: seq<Event>)
    ensures RunFrom(a, x + y) == RunFrom(RunFrom(a, x), y)
  {
    if y == [] {
      assert x + y == x;
    } else {
      RunFromConcat(a, x, y[..|y| - 1]);
      assert (x + y)[..|x + y| - 1] == x + y[..|y| - 1];
    }
  }

  /** The browser opens and the process dies before the open could be recorded. */
  function CrashedOpen(b: Binding): seq<Event> {
    [EBegin(b, true), EOpenBrowser(true, false, true), ECrash(true, b), ERecover(true, true)]
  }

  lemma RunFromFour(a: App, p: Event, q: Event, r: Event, s: Event)
    ensures RunFrom(a, [p, q, r, s]) == Step(Step(Step(Step(a, p), q), r), s)
  {
    assert [p][..0] == [] && [p, q][..1] == [p] && [p, q, r][..2] == [p, q] && [p, q, r, s][..3] == [p, q, r];
    assert RunFrom(a, [p]) == Step(a, p);
    assert RunFrom(a, [p, q]) == Step(RunFrom(a, [p]), q);
  }

  lemma CrashedOpenRepeats(a: App, b: Binding)
    requires Waiting(a, b)
    ensures Waiting(RunFrom(a, CrashedOpen(b)), b)
    ensures RunFrom(a, CrashedOpen(b)).trace == a.trace + [OpenedBrowser(b)] + [Crashed]
  {
    RunFromFour(a, EBegin(b, true), EOpenBrowser(true, false, true), ECrash(true, b), ERecover(true, true));
    var opening := Step(a, EBegin(b, true));
    assert opening == a.(stage := Opening(b));
    var holding := Step(opening, EOpenBrowser(true, false, true));
    assert holding == Note(a, OpenedBrowser(b)).(stage := Holding(b));
    var down := Step(holding, ECrash(true, b));
    assert down == Crash(holding, true, b);
    assert !Unfinished(down);
  }

  lemma CountCrashedOpen(t: seq<Mark>, b: Binding)
    requires Recorded(b) !in t
    ensures
      var u := t + [OpenedBrowser(b)] + [Crashed];
      Recorded(b) !in u && Opens(u, b) == Opens(t, b) + 1 && Breaks(u, b) == Breaks(t, b) + 1
  {
    CountNote(t, OpenedBrowser(b), b);
    CountNote(t + [OpenedBrowser(b)], Crashed, b);
  }

  /** A fresh install, paired through a handoff and brought to its last step. */
  function PairingEvents(b: Binding): seq<Event> {
    [ERecover(true, true), EPair(b, Some("h")), EBind, EPhase(true, b)]
  }

  const LAST_STEP: seq<Event> := [ESetWizard(StepConnection, true)]

  lemma PairedApp(b: Binding)
    requires b != ""
    ensures Run(PairingEvents(b)) ==
              FRESH.(stage := Idle, paired := Paired(Some(b), false, Some(Activation("h", b)), false), known := {b},
                     access := Some(b), phasePaired := true, phaseBinding := b)
  {
    RunFromFour(FRESH, ERecover(true, true), EPair(b, Some("h")), EBind, EPhase(true, b));
    var launched := Step(FRESH, ERecover(true, true));
    assert launched == FRESH.(stage := Idle);
    var joined := Step(launched, EPair(b, Some("h")));
    assert joined == launched.(paired := Paired(Some(b), false, Some(Activation("h", b)), false), known := {b});
    var bound := Step(joined, EBind);
    assert bound == joined.(access := Some(b));
  }

  lemma FreshReachesWaiting(b: Binding)
    requires b != ""
    ensures Waiting(Run(PairingEvents(b) + LAST_STEP), b) && Run(PairingEvents(b) + LAST_STEP).trace == []
  {
    PairedApp(b);
    RunFromConcat(FRESH, PairingEvents(b), LAST_STEP);
    RunFromOne(Run(PairingEvents(b)), ESetWizard(StepConnection, true));
  }

  lemma RunFromOne(a: App, e: Event)
    ensures RunFrom(a, [e]) == Step(a, e)
  {
    assert [e][..0] == [];
  }

  lemma {:induction false} MoreOpens(a: App, b: Binding, k: nat) returns (events: seq<Event>)
    requires Waiting(a, b) && Recorded(b) !in a.trace
    ensures
      var u := RunFrom(a, events);
      && Waiting(u, b) && Recorded(b) !in u.trace
      && Opens(u.trace, b) == Opens(a.trace, b) + k
      && Breaks(u.trace, b) == Breaks(a.trace, b) + k
  {
    if k == 0 {
      events := [];
    } else {
      var before := MoreOpens(a, b, k - 1);
      var v := RunFrom(a, before);
      events := before + CrashedOpen(b);
      RunFromConcat(a, before, CrashedOpen(b));
      CrashedOpenRepeats(v, b);
      CountCrashedOpen(v.trace, b);
    }
  }

  /** The bound on opens cannot be improved: for every `k` there is a run of the application in
      which `k` crashes come before the record and the browser is opened `k + 1` times. */
  lemma OpenCountIsTight(b: Binding, k: nat) returns (events: seq<Event>)
    requires b != ""
    ensures
      var t := Run(events).trace;
      Recorded(b) !in t && Breaks(t, b) == k && Opens(t, b) == k + 1
  {
    var paired := PairingEvents(b) + LAST_STEP;
    FreshReachesWaiting(b);
    var more := MoreOpens(Run(paired), b, k);
    RunFromConcat(FRESH, paired, more);
    var u := Run(paired + more);
    WaitingCallOpens(u, b);
    CountNote(u.trace, OpenedBrowser(b), b);
    events := paired + more + [EBegin(b, true), EOpenBrowser(true, false, true)];
    RunFromConcat(FRESH, paired + more, [EBegin(b, true), EOpenBrowser(true, false, true)]);
  }

  lemma WaitingCallOpens(u: App, b: Binding)
    requires Waiting(u, b)
    ensures RunFrom(u, [EBegin(b, true), EOpenBrowser(true, false, true)]).trace == u.trace + [OpenedBrowser(b)]
  {
    RunFromOne(u, EBegin(b, true));
    assert [EBegin(b, true), EOpenBrowser(true, false, true)][..1] == [EBegin(b, true)];
    assert Step(u, EBegin(b, true)) == u.(stage := Opening(b));
  }

  // ----- retirement of a finished handoff ---------------------------------------------

  /** The events that change the saved pairing itself. */
  predicate Repairs(e: Event) { e.EPair? || e.EDropCredential? || e.ERetire? }

  lemma FinishedStep(a: App, e: Event, handoff: string)
    requires Finished(a.paired, handoff) && !Repairs(e)
    ensures Finished(Step(a, e).paired, handoff)
  {
  }

  lemma {:induction false} FinishedLasts(a: App, events: seq<Event>, handoff: string)
    requires Finished(a.paired, handoff)
    requires forall e :: e in events ==> !Repairs(e)
    ensures Finished(RunFrom(a, events).paired, handoff)
  {
    if events == [] {
    } else {
      var before := events[..|events| - 1];
      assert forall e :: e in before ==> e in events;
      FinishedLasts(a, before, handoff);
      FinishedStep(RunFrom(a, before), events[|events| - 1], handoff);
    }
  }

  /** The journal-open call is done with `b`, or a restart is about to finish it. */
  ghost predicate Done(a: App, b: Binding) {
    && (a.stage == Closing(b) || (a.stage.Launching? && Unfinished(a) && a.paired.credential == Some(b)))
    && !a.paired.retiring
  }

  /** When a call or a recovery is done with a pairing, its handoff is finished on disk. */
  lemma DoneIsFinished(events: seq<Event>, b: Binding)
    requires Done(Run(events), b)
    ensures CameFrom(Run(events).paired, b) && Finished(Run(events).paired, Run(events).paired.activation.value.handoff)
  {
    RunKeepsInv(events, b);
  }

  /** From any reachable state in which a call or a recovery is done, through any later events
      that do not change the pairing: a refresh that reads this handoff's progress shows it
      retired exactly when it can also read the pairing file, whatever the mailbox says. */
  lemma HandoffStaysRetired(events: seq<Event>, b: Binding, handoff: string, more: seq<Event>, f: Facts)
    requires Done(Run(events), b) && Run(events).paired.activation == Some(Activation(handoff, b))
    requires forall e :: e in more ==> !Repairs(e)
    requires Readable(f) && f.progress.value.value.handoff == handoff
    requires f.paired == Ok(RunFrom(Run(events), more).paired) || f.paired.Err?
    ensures Shown(f).id == None <==> f.paired.Ok?
    ensures f.paired.Ok? ==> Shown(f).revision == None && !Shown(f).expired && !Shown(f).newConnection
    ensures f.paired.Err? ==> Shown(f).id == Some(handoff) && Shown(f).persistFailed
  {
    DoneIsFinished(events, b);
    FinishedLasts(Run(events), more, handoff);
    RetiredExactlyWhenReadable(f, RunFrom(Run(events), more).paired);
  }
}
