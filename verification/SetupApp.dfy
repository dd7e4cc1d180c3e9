/**
  The setup-journal code as it is written: one long call that changes shared state and two
  durable files in sequence, and the startup recovery. Both are proved equal to runs of the
  step system, so every property of runs holds of the code between any two crashes.
*/
module SetupApp {
  import opened Prelude
  import opened HandoffOverlay
  import opened SetupJournal
  import opened SetupSafety

  /** How the outside world answers one call. */
  datatype Answers = Answers(
    loads: bool,
    starts: bool,
    refused: bool,
    opens: bool,
    markLoads: bool,
    mark: Save,
    saves: bool,
    readings: Facts,     // what the closing refresh reads, but for the pairing file
    refreshLoads: bool)  // whether it can read that too

  function CallEvents(expected: Binding, w: Answers): seq<Event> {
    [EBegin(expected, w.loads), EOpenBrowser(w.starts, w.refused, w.opens), EKeepBridge,
     ERecord(w.markLoads, w.mark), EFinish(w.saves), EComplete]
  }

  function Browse(a: App, w: Answers): App
    requires a.stage.Opening?
  {
    var c := OpenBrowser(a, w.starts, w.refused, w.opens);
    if c.stage.Holding? then KeepBridge(c) else c
  }

  function FinishAndComplete(a: App, w: Answers): App
    requires a.stage.Finishing?
  {
    var f := FinishSetup(a, w.saves);
    if f.stage.Closing? then Complete(f) else f
  }

  function Conclude(a: App, w: Answers): App
    requires a.stage.Marking?
  {
    var e := RecordOpened(a, w.markLoads, w.mark);
    if e.stage.Finishing? then FinishAndComplete(e, w) else e
  }

  function Call(a: App, expected: Binding, w: Answers): App {
    var b := Begin(a, expected, w.loads);
    var d := if b.stage.Opening? then Browse(b, w) else b;
    if d.stage.Marking? then Conclude(d, w) else d
  }

  lemma RunFromSnoc(a: App, events: seq<Event>, e: Event)
    ensures RunFrom(a, events + [e]) == Step(RunFrom(a, events), e)
  {
    assert (events + [e])[..|events|] == events;
  }

  lemma BrowseSteps(b: App, w: Answers)
    requires b.stage.Idle? || b.stage.Opening? || b.stage.Marking?
    ensures Step(Step(b, EOpenBrowser(w.starts, w.refused, w.opens)), EKeepBridge)
         == if b.stage.Opening? then Browse(b, w) else b
  {
  }

  lemma ConcludeSteps(d: App, w: Answers)
    requires d.stage.Idle? || d.stage.Marking?
    ensures Step(Step(Step(d, ERecord(w.markLoads, w.mark)), EFinish(w.saves)), EComplete)
         == if d.stage.Marking? then Conclude(d, w) else d
  {
    if d.stage.Marking? {
      var e := RecordOpened(d, w.markLoads, w.mark);
      assert Step(d, ERecord(w.markLoads, w.mark)) == e;
      if e.stage.Finishing? { assert Step(e, EFinish(w.saves)) == FinishSetup(e, w.saves); }
    }
  }

  lemma StepsAreCall(a: App, expected: Binding, w: Answers)
    requires a.stage.Idle?
    ensures
      var b := Step(a, EBegin(expected, w.loads));
      var d := Step(Step(b, EOpenBrowser(w.starts, w.refused, w.opens)), EKeepBridge);
      Step(Step(Step(d, ERecord(w.markLoads, w.mark)), EFinish(w.saves)), EComplete) == Call(a, expected, w)
  {
    var b := Begin(a, expected, w.loads);
    assert Step(a, EBegin(expected, w.loads)) == b;
    BrowseSteps(b, w);
    ConcludeSteps(if b.stage.Opening? then Browse(b, w) else b, w);
  }

  /** A call that is not interrupted is the run of its six steps. */
  lemma CallIsRun(a: App, expected: Binding, w: Answers)
    requires a.stage.Idle?
    ensures Call(a, expected, w) == RunFrom(a, CallEvents(expected, w))
  {
    var es := CallEvents(expected, w);
    RunFromSnoc(a, [], es[0]);
    assert es[..1] == [] + [es[0]] && es[..2] == es[..1] + [es[1]] && es[..3] == es[..2] + [es[2]];
    RunFromSnoc(a, es[..1], es[1]);
    RunFromSnoc(a, es[..2], es[2]);
    assert es[..4] == es[..3] + [es[3]] && es[..5] == es[..4] + [es[4]] && es == es[..5] + [es[5]];
    RunFromSnoc(a, es[..3], es[3]);
    RunFromSnoc(a, es[..4], es[4]);
    RunFromSnoc(a, es[..5], es[5]);
    StepsAreCall(a, expected, w);
  }

  datatype Failure = ConnectionChanged | NotPaired | SourcesUnfinished | BridgeFailed | OpenFailed | NotRecorded | ProgressNotSaved

  class Shell {
    var paired: Paired
    var wizard: WizardStep
    var access: Option<Binding>
    var phasePaired: bool
    var phaseBinding: Binding
    var confirmation: Binding
    var bridge: Option<Binding>
    var ready: bool
    var overlay: Overlay
    var stage: Stage
    ghost var known: set<Binding>
    ghost var trace: seq<Mark>

    ghost function View(): App
      reads this
    {
      App(paired, wizard, access, phasePaired, phaseBinding, confirmation, bridge, ready,
          stage, known, trace)
    }

    /** `PairedState::mark_setup_browser_opened`. */
    method MarkSetupBrowserOpened(b: Binding, loads: bool, save: Save) returns (ok: bool)
      modifies this`paired
      ensures (paired, ok) == MarkOpened(old(paired), b, loads, save)
    {
      if !loads || !BoundTo(paired, b) {
        return false;
      }
      if paired.journalOpened {
        return true;
      }
      if save.NotSaved? {
        return false;
      }
      paired := paired.(journalOpened := true);
      ok := save.Saved?;
    }

    method FinishSetupAfterBrowser(b: Binding, saves: bool) returns (ok: bool)
      modifies this`wizard, this`trace
      ensures (View(), ok) == Finish(old(View()), b, saves)
    {
      if wizard == StepDone {
        return true;
      }
      if !saves {
        return false;
      }
      wizard := StepDone;
      trace := trace + [WroteDone(b)];
      ok := true;
    }

    /** Start a bridge, open its URL in the browser and keep the bridge. */
    method BrowseJournal(w: Answers) returns (r: Result<(), Failure>)
      requires stage.Opening?
      modifies this`stage, this`trace, this`bridge
      ensures View() == Browse(old(View()), w)
      ensures r.Ok? <==> stage == Marking(old(stage.binding))
      ensures r.Ok? <==> w.starts && phasePaired && phaseBinding == old(stage.binding) && !w.refused && w.opens
      ensures r.Ok? ==> bridge == Some(old(stage.binding)) && OpenedBrowser(old(stage.binding)) in trace
      ensures r.Err? ==> stage == Idle && bridge == old(bridge) && trace == old(trace)
    {
      var b := stage.binding;
      if !w.starts {
        stage := Idle;
        return Err(BridgeFailed);
      }
      if !phasePaired || phaseBinding != b || w.refused {
        stage := Idle;
        return Err(ConnectionChanged);
      }
      if !w.opens {
        stage := Idle;
        return Err(OpenFailed);
      }
      trace := trace + [OpenedBrowser(b)];
      trace := if bridge.Some? then trace + [TornDown(bridge.value)] else trace;
      bridge, stage := Some(b), Marking(b);
      r := Ok(());
    }

    method RecordOpen(w: Answers) returns (ok: bool)
      requires stage.Marking?
      modifies this`paired, this`stage, this`trace
      ensures View() == RecordOpened(old(View()), w.markLoads, w.mark)
      ensures ok <==> stage == Finishing(old(stage.binding))
      ensures !ok ==> stage == Idle
      ensures ok ==> paired.journalOpened && BoundTo(paired, old(stage.binding))
      ensures ok <==>
                && w.markLoads && paired.credential == Some(old(stage.binding)) && !paired.retiring
                && paired.activation.Some? && paired.activation.value.binding == old(stage.binding)
                && (old(paired).journalOpened || w.mark == Saved)
      ensures paired == old(paired).(journalOpened := paired.journalOpened)
    {
      var before := paired;
      ok := MarkSetupBrowserOpened(stage.binding, w.markLoads, w.mark);
      trace := if paired.journalOpened && !before.journalOpened then trace + [Recorded(stage.binding)] else trace;
      stage := if ok then Finishing(stage.binding) else Idle;
    }

    /** What the closing refresh reads. */
    function RefreshFacts(w: Answers): Facts
      reads this`paired
    {
      w.readings.(paired := if w.refreshLoads then Ok(paired) else Err(()))
    }

    /** This pairing's own handoff, if the refresh reads its progress, is retired exactly when the
        refresh can read the pairing file. */
    ghost predicate Refreshed(w: Answers)
      reads this
    {
      && overlay == Shown(RefreshFacts(w))
      && (Readable(w.readings) && paired.activation.Some?
          && paired.activation.value.handoff == w.readings.progress.value.value.handoff ==>
            (overlay.id == None <==> w.refreshLoads))
    }

    /** Finish the wizard and refresh the overlay from this pairing's own files. */
    method FinishAndRefresh(w: Answers) returns (ok: bool)
      requires stage.Finishing? && paired.journalOpened && BoundTo(paired, stage.binding)
      modifies this`wizard, this`trace, this`ready, this`overlay, this`stage
      ensures View() == FinishAndComplete(old(View()), w)
      ensures ok <==> old(wizard) == StepDone || w.saves
      ensures ok ==> wizard == StepDone && !ready && Refreshed(w)
      ensures !ok ==> wizard == old(wizard) && ready == old(ready) && overlay == old(overlay)
    {
      ok := FinishSetupAfterBrowser(stage.binding, w.saves);
      if ok {
        ready := false;
        overlay := UpdateHandoffOverlay(RefreshFacts(w));
        if Readable(w.readings) && paired.activation.value.handoff == w.readings.progress.value.value.handoff {
          RetiredExactlyWhenReadable(RefreshFacts(w), paired);
        }
      }
      stage := Idle;
    }

    /** Record the open, then finish. */
    method ConcludeSetup(w: Answers) returns (r: Result<(), Failure>)
      requires stage.Marking?
      modifies this
      ensures View() == Conclude(old(View()), w)
      ensures r.Ok? <==>
                && w.markLoads && old(paired).credential == Some(old(stage.binding)) && !old(paired).retiring
                && old(paired).activation.Some? && old(paired).activation.value.binding == old(stage.binding)
                && (old(paired).journalOpened || w.mark == Saved)
                && (old(wizard) == StepDone || w.saves)
      ensures r.Ok? ==> paired.journalOpened && wizard == StepDone && !ready && Refreshed(w)
      ensures r.Err? ==> wizard == old(wizard) && ready == old(ready) && overlay == old(overlay)
    {
      var ok := RecordOpen(w);
      if !ok {
        return Err(NotRecorded);
      }
      ok := FinishAndRefresh(w);
      r := if ok then Ok(()) else Err(ProgressNotSaved);
    }

    /** The checks that precede any effect, in the source's order. */
    method CheckConnection(expected: Binding, loads: bool) returns (r: Result<(), Failure>)
      ensures r.Ok? <==>
                && expected != "" && access == Some(expected)
                && phasePaired && phaseBinding == expected
                && (wizard == StepConnection || wizard == StepDone)
                && loads
                && paired.credential == Some(expected) && !paired.retiring
                && paired.activation.Some? && paired.activation.value.binding == expected
    {
      if access.None? || expected == "" || access.value != expected {
        return Err(ConnectionChanged);
      }
      if !phasePaired || phaseBinding != expected {
        return Err(NotPaired);
      }
      if wizard != StepConnection && wizard != StepDone {
        return Err(SourcesUnfinished);
      }
      if !loads || !BoundTo(paired, expected) {
        return Err(ConnectionChanged);
      }
      r := Ok(());
    }

    /** Decide whether a browser open is needed. */
    method BeginCall(expected: Binding, loads: bool) returns (r: Result<(), Failure>)
      requires stage.Idle?
      modifies this`stage
      ensures View() == Begin(old(View()), expected, loads)
      ensures r.Ok? <==> stage == Opening(expected) || stage == Marking(expected)
      ensures r.Err? ==> stage == Idle
      ensures r.Ok? <==>
                && expected != "" && access == Some(expected)
                && phasePaired && phaseBinding == expected
                && (wizard == StepConnection || wizard == StepDone)
                && loads
                && paired.credential == Some(expected) && !paired.retiring
                && paired.activation.Some? && paired.activation.value.binding == expected
      ensures stage == Opening(expected) <==> r.Ok? && !paired.journalOpened && bridge != Some(expected)
    {
      r := CheckConnection(expected, loads);
      if r.Ok? {
        var bridgeLive := bridge == Some(expected);
        stage := if !paired.journalOpened && !bridgeLive then Opening(expected) else Marking(expected);
      }
    }

    /** The checks, and the browser if it is needed. */
    method BeginAndBrowse(expected: Binding, w: Answers) returns (r: Result<(), Failure>)
      requires stage.Idle?
      modifies this`stage, this`trace, this`bridge
      ensures
        var b := Begin(old(View()), expected, w.loads);
        View() == if b.stage.Opening? then Browse(b, w) else b
      ensures r.Ok? <==> stage == Marking(expected)
      ensures r.Err? ==> View() == old(View())
      ensures r.Ok? <==>
                && expected != "" && access == Some(expected)
                && phasePaired && phaseBinding == expected
                && (wizard == StepConnection || wizard == StepDone)
                && w.loads
                && paired.credential == Some(expected) && !paired.retiring
                && paired.activation.Some? && paired.activation.value.binding == expected
                && (paired.journalOpened || old(bridge) == Some(expected) || (w.starts && !w.refused && w.opens))
    {
      r := BeginCall(expected, w.loads);
      if r.Ok? && stage.Opening? {
        r := BrowseJournal(w);
      }
    }

    /** `open_setup_journal_with`, once the journal-open lock is held. Success means the open is
        on record, the wizard done, nothing pending, and the overlay refreshed from this very
        pairing; failure leaves wizard, pending flag and overlay alone. It succeeds exactly when
        every check passes, the browser was opened before or now, the open is or gets recorded,
        and the wizard is or gets finished. A call whose checks fail changes nothing at all. */
    method OpenSetupJournalWith(expected: Binding, w: Answers) returns (r: Result<(), Failure>)
      requires stage.Idle?
      modifies this
      ensures View() == Call(old(View()), expected, w) == RunFrom(old(View()), CallEvents(expected, w))
      ensures r.Ok? ==> paired.journalOpened && wizard == StepDone && !ready && Refreshed(w)
      ensures r.Err? ==> wizard == old(wizard) && ready == old(ready) && overlay == old(overlay)
      ensures
        var checked :=
          && expected != "" && old(access) == Some(expected)
          && old(phasePaired) && old(phaseBinding) == expected
          && (old(wizard) == StepConnection || old(wizard) == StepDone)
          && w.loads
          && old(paired).credential == Some(expected) && !old(paired).retiring
          && old(paired).activation.Some? && old(paired).activation.value.binding == expected;
        && (!checked ==> r.Err? && View() == old(View()))
        && (r.Ok? <==>
              && checked
              && (old(paired).journalOpened || old(bridge) == Some(expected) || (w.starts && !w.refused && w.opens))
              && w.markLoads && (old(paired).journalOpened || w.mark == Saved)
              && (old(wizard) == StepDone || w.saves))
    {
      CallIsRun(View(), expected, w);
      r := BeginAndBrowse(expected, w);
      if r.Ok? {
        r := ConcludeSetup(w);
      }
    }

    /** `recover_setup_browser_completion`: it acts exactly on a live pairing from a handoff whose
        journal was opened and whose stored confirmation is its own, with the wizard at its
        connection step; it never touches pairing or bridge. */
    method RecoverSetupBrowserCompletion(loads: bool, saves: bool)
      modifies this
      ensures View() == Recover(old(View()), loads, saves)
      ensures paired == old(paired) && bridge == old(bridge)
      ensures
        if && loads && paired.credential.Some? && paired.journalOpened && !paired.retiring
           && paired.activation.Some? && Some(paired.activation.value.binding) == paired.credential
           && Some(confirmation) == paired.credential && old(wizard) == StepConnection
        then ready == !saves && wizard == (if saves then StepDone else StepConnection)
        else View() == old(View())
    {
      if !loads || paired.credential.None? {
        return;
      }
      var binding := paired.credential.value;
      if !paired.journalOpened || !BoundTo(paired, binding) || confirmation != binding || wizard != StepConnection {
        return;
      }
      var ok := FinishSetupAfterBrowser(binding, saves);
      ready := !ok;
    }
  }
}
