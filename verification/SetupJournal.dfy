/**
  Opening the setup journal in the owner's browser, with crash recovery.

  Two durable records (the pairing file's "journal opened" flag and the wizard step) and one
  in-memory bridge are changed in sequence. The opener and both saves can fail, the process
  can crash between any two steps, and startup repairs what it finds. The pairing code can
  replace the pairing between calls, but not during one: both hold the journal-open lock.
*/
module SetupJournal {
  import opened Prelude
  import opened HandoffOverlay

  /** What a durable save did. `Uncertain` published the new file but reported an error. */
  datatype Save = NotSaved | Uncertain | Saved

  /** `PairedState::mark_setup_browser_opened`: the file afterwards, and whether it succeeded. */
  function MarkOpened(p: Paired, b: Binding, loads: bool, save: Save): (Paired, bool) {
    if !loads || !BoundTo(p, b) then (p, false)
    else if p.journalOpened then (p, true)
    else match save
      case NotSaved => (p, false)
      case Uncertain => (p.(journalOpened := true), false)
      case Saved => (p.(journalOpened := true), true)
  }

  /** `PairedState::save_inner`: saving over the same activation and credential never forgets
      that the journal was opened. */
  function SaveOver(previous: Paired, next: Paired): Paired {
    if previous.activation == next.activation && previous.credential == next.credential && previous.journalOpened
    then next.(journalOpened := true) else next
  }

  /** Where the journal-open call in progress stands; every value but `Idle` holds the lock. */
  datatype Stage =
    | Launching                   // process start, before recovery has run
    | Idle
    | Opening(binding: Binding)   // a new bridge and a browser open are needed
    | Holding(binding: Binding)   // the browser was opened; the bridge is not yet kept
    | Marking(binding: Binding)
    | Finishing(binding: Binding)
    | Closing(binding: Binding)

  /** History marks, kept only to state the properties. */
  datatype Mark =
    | OpenedBrowser(binding: Binding)
    | Recorded(binding: Binding)
    | WroteDone(binding: Binding)
    | TornDown(binding: Binding)
    | Crashed

  datatype App = App(
    // durable
    paired: Paired,
    wizard: WizardStep,
    // in memory
    access: Option<Binding>,
    phasePaired: bool,
    phaseBinding: Binding,
    confirmation: Binding,
    bridge: Option<Binding>,
    ready: bool,
    stage: Stage,
    // history
    known: set<Binding>,
    trace: seq<Mark>)

  const FRESH := App(Paired(None, false, None, false), StepMic, None, false, "", "", None, false,
                     Launching, {}, [])

  function Note(a: App, m: Mark): App { a.(trace := a.trace + [m]) }

  // ----- the journal-open call --------------------------------------------------------

  /** The checks that precede any effect. */
  predicate MayOpen(a: App, expected: Binding, loads: bool) {
    && a.access.Some? && expected != "" && a.access.value == expected
    && a.phasePaired && a.phaseBinding == expected
    && (a.wizard.StepConnection? || a.wizard.StepDone?)
    && loads && BoundTo(a.paired, expected)
  }

  function Begin(a: App, expected: Binding, loads: bool): App {
    if !MayOpen(a, expected, loads) then a
    else if a.paired.journalOpened || a.bridge == Some(expected) then a.(stage := Marking(expected))
    else a.(stage := Opening(expected))
  }

  /** Start a bridge, check the pairing again, and hand its URL to the browser. */
  function OpenBrowser(a: App, starts: bool, refused: bool, opens: bool): App
    requires a.stage.Opening?
  {
    var b := a.stage.binding;
    if starts && a.phasePaired && a.phaseBinding == b && !refused && opens
    then Note(a, OpenedBrowser(b)).(stage := Holding(b))
    else a.(stage := Idle)
  }

  /** Empty the bridge slot, shutting down what it held. */
  function TearDown(a: App): App {
    if a.bridge.Some? then Note(a, TornDown(a.bridge.value)).(bridge := None) else a
  }

  function KeepBridge(a: App): App
    requires a.stage.Holding?
  {
    TearDown(a).(bridge := Some(a.stage.binding), stage := Marking(a.stage.binding))
  }

  function RecordOpened(a: App, loads: bool, save: Save): App
    requires a.stage.Marking?
  {
    var b := a.stage.binding;
    var (paired, ok) := MarkOpened(a.paired, b, loads, save);
    var marked := if paired.journalOpened && !a.paired.journalOpened then Note(a, Recorded(b)) else a;
    marked.(paired := paired, stage := if ok then Finishing(b) else Idle)
  }

  /** `finish_setup_after_browser`: whether it succeeded, and the state afterwards. */
  function Finish(a: App, b: Binding, saves: bool): (App, bool) {
    if a.wizard.StepDone? then (a, true)
    else if saves then (Note(a, WroteDone(b)).(wizard := StepDone), true)
    else (a, false)
  }

  function FinishSetup(a: App, saves: bool): App
    requires a.stage.Finishing?
  {
    var (x, ok) := Finish(a, a.stage.binding, saves);
    x.(stage := if ok then Closing(a.stage.binding) else Idle)
  }

  function Complete(a: App): App { a.(ready := false, stage := Idle) }

  // ----- startup ----------------------------------------------------------------------

  function Crash(a: App, resumes: bool, confirmation: Binding): App {
    Note(a, Crashed).(
      access := if resumes then a.paired.credential else None,
      phasePaired := resumes && a.paired.credential.Some?,
      phaseBinding := if a.paired.credential.Some? then a.paired.credential.value else "",
      confirmation := confirmation,
      bridge := None,
      ready := false,
      stage := Launching)
  }

  /** The durable state a crash between the two saves leaves behind. */
  predicate Unfinished(a: App) {
    && a.paired.credential.Some?
    && BoundTo(a.paired, a.paired.credential.value)
    && a.paired.journalOpened
    && a.confirmation == a.paired.credential.value
    && a.wizard.StepConnection?
  }

  /** `recover_setup_browser_completion`. */
  function Recover(a: App, loads: bool, saves: bool): App {
    if !loads || !Unfinished(a) then a
    else
      var (x, ok) := Finish(a, a.paired.credential.value, saves);
      x.(ready := !ok)
  }

  // ----- every event ------------------------------------------------------------------

  datatype Event =
    | EBegin(expected: Binding, loads: bool)
    | EOpenBrowser(starts: bool, refused: bool, opens: bool)
    | EKeepBridge
    | ERecord(loads: bool, save: Save)
    | EFinish(saves: bool)
    | EComplete
    | ECrash(resumes: bool, confirmation: Binding)
    | ERecover(loads: bool, saves: bool)
    // the rest of the application
    | ESetWizard(step: WizardStep, saves: bool)
    | EPhase(paired: bool, binding: Binding)
    | EConfirm(binding: Binding)
    | EResave(copy: Paired)
    | ERetire
    | EPair(binding: Binding, handoff: Option<string>)
    | EDropCredential
    | EBind
    | ETearDown

  /** The pairing code holds the same lock as the journal-open call. */
  predicate Enabled(a: App, e: Event) {
    match e
    case EBegin(_, _) => a.stage.Idle?
    case EOpenBrowser(_, _, _) => a.stage.Opening?
    case EKeepBridge => a.stage.Holding?
    case ERecord(_, _) => a.stage.Marking?
    case EFinish(_) => a.stage.Finishing?
    case EComplete => a.stage.Closing?
    case ERecover(_, _) => a.stage.Launching?
    case EPair(b, _) => a.stage.Idle? && b !in a.known && b != ""
    case EDropCredential => a.stage.Idle?
    case EBind => a.stage.Idle?
    case ETearDown => a.stage.Idle?
    // a background save writes back a copy of the current pairing, its flag possibly old
    case EResave(copy) => copy.credential == a.paired.credential && copy.activation == a.paired.activation
                          && copy.retiring == a.paired.retiring
                          && (copy.journalOpened ==> a.paired.journalOpened)
    case _ => true
  }

  function Apply(a: App, e: Event): App
    requires Enabled(a, e)
  {
    match e
    case EBegin(expected, loads) => Begin(a, expected, loads)
    case EOpenBrowser(starts, refused, opens) => OpenBrowser(a, starts, refused, opens)
    case EKeepBridge => KeepBridge(a)
    case ERecord(loads, save) => RecordOpened(a, loads, save)
    case EFinish(saves) => FinishSetup(a, saves)
    case EComplete => Complete(a)
    case ECrash(resumes, confirmation) => Crash(a, resumes, confirmation)
    case ERecover(loads, saves) => Recover(a, loads, saves).(stage := Idle)
    case ESetWizard(step, saves) => if saves then a.(wizard := step) else a
    case EPhase(paired, b) => a.(phasePaired := paired, phaseBinding := b)
    case EConfirm(b) => a.(confirmation := b)
    case EResave(copy) => a.(paired := SaveOver(a.paired, copy))
    case ERetire => a.(paired := a.paired.(retiring := true))
    case EPair(b, handoff) =>
      var activation := if handoff.Some? then Some(Activation(handoff.value, b)) else None;
      a.(paired := SaveOver(a.paired, Paired(Some(b), false, activation, false)), known := a.known + {b})
    case EDropCredential => a.(paired := a.paired.(credential := None))
    case EBind => a.(access := a.paired.credential)
    case ETearDown => TearDown(a)
  }

  function Step(a: App, e: Event): App { if Enabled(a, e) then Apply(a, e) else a }

  function RunFrom(a: App, events: seq<Event>): App {
    if events == [] then a
    else Step(RunFrom(a, events[..|events| - 1]), events[|events| - 1])
  }

  /** The application after a run, from a fresh install. */
  function Run(events: seq<Event>): App { RunFrom(FRESH, events) }
}
