/**
  The proof-preview consumer protocol.

  The settings webview asks native code to open a "proof gate" for one capture source,
  through a first-in first-out promise chain. Native code may close the gate on its own,
  the capture engine stamps every preview with the gate's generation, and previews
  reach the webview late, in any order, or not at all. This file holds the values and
  the pure transition functions; ProofWebview.dfy proves the imperative code equal to them.
*/
module ProofProtocol {
  import opened Prelude

  /** The capture sources. Desktop activity has no preview of its own. */
  datatype Source = Mic | SystemAudio | Screen | DesktopActivity

  /** What a source contributes to a snapshot: its own sample, or nothing. */
  function Slot(kind: Source): set<Source> { if kind.DesktopActivity? then {} else {kind} }

  function SourceOf(step: WizardStep): Option<Source> {
    match step
    case StepMic => Some(Mic)
    case StepSystemAudio => Some(SystemAudio)
    case StepScreen => Some(Screen)
    case _ => None
  }

  // ----- native side: the gate and the capture engine's preview ------------------------

  datatype Gate = Gate(generation: nat, source: Option<Source>)

  function OpenGate(g: Gate, kind: Source): Gate { Gate(g.generation + 1, Some(kind)) }

  function CloseGate(g: Gate): Gate { Gate(g.generation + 1, None) }

  /** `set_proof_consumer`: the gate afterwards, and the generation or the refusal returned.
      A refused open closes the gate. */
  function SetConsumer(g: Gate, target: Option<Source>, eligible: bool): (Gate, Result<nat, ()>) {
    match target
    case None => (CloseGate(g), Ok(g.generation + 1))
    case Some(kind) =>
      if eligible then (OpenGate(g, kind), Ok(g.generation + 1)) else (CloseGate(g), Err(()))
  }

  /** A captured sample, tagged with the gate generation it was admitted under. */
  datatype Sample = Sample(admitted: nat, level: int)

  /** A preview snapshot: the generation it claims, and the samples it carries. */
  datatype Preview = Preview(generation: nat, samples: map<Source, Sample>)

  const EMPTY := Preview(0, map[])

  /** `clear_previews`: an empty snapshot under the current generation. */
  function ClearAll(g: Gate): Preview { Preview(g.generation, map[]) }

  /** `clear_source_preview`: drops one sample and stamps the rest with the current generation. */
  function ClearOne(p: Preview, g: Gate, kind: Source): Preview {
    Preview(g.generation, p.samples - Slot(kind))
  }

  /** The gate is open for a previewed source at the generation the sample was admitted under. */
  predicate Admits(g: Gate, kind: Source, s: Sample) {
    g.source == Some(kind) && g.generation == s.admitted && !kind.DesktopActivity?
  }

  /** `update_audio_preview` and `update_screen_preview`. */
  function UpdateOne(p: Preview, g: Gate, kind: Source, s: Sample): Preview {
    if Admits(g, kind, s)
    then Preview(g.generation, p.samples[kind := s])
    else p
  }

  // ----- webview side -----------------------------------------------------------------

  /** One `set_proof_consumer` call waiting in the promise chain. `None` closes the gate. */
  datatype Op = Op(request: nat, target: Option<Source>)

  /** What a health report says about the protocol: the sources whose derived status is "on"
      and the saved wizard step, when the report has a setup section. */
  datatype Health = Health(eligible: set<Source>, wizard: Option<WizardStep>)

  datatype Ui = Ui(
    request: nat,
    openKind: Option<Source>,
    accepted: nat,
    active: bool,
    visible: bool,
    home: bool,
    health: Option<Health>,
    queue: seq<Op>,
    shown: Preview)

  const INITIAL_UI := Ui(0, None, 0, true, true, true, None, [], EMPTY)

  predicate Eligible(h: Option<Health>, kind: Source) { h.Some? && kind in h.value.eligible }

  function Request(u: Ui, target: Option<Source>): Ui {
    u.(request := u.request + 1, accepted := 0, openKind := target, shown := EMPTY,
       queue := u.queue + [Op(u.request + 1, target)])
  }

  function CloseConsumer(u: Ui): Ui { Request(u, None) }

  function Target(u: Ui, step: WizardStep): Option<Source> {
    match SourceOf(step)
    case Some(kind) => if u.active && u.visible && Eligible(u.health, kind) then Some(kind) else None
    case None => None
  }

  function EnsureConsumer(u: Ui, step: WizardStep): Ui {
    var target := Target(u, step);
    if u.openKind == target then u else Request(u, target)
  }

  function SetActive(u: Ui, active: bool): Ui {
    var v := u.(active := active);
    if !active then CloseConsumer(v)
    else if v.home && v.health.Some? && v.health.value.wizard.Some?
    then EnsureConsumer(v, v.health.value.wizard.value)
    else v
  }

  function HandleInactive(u: Ui, hasFocus: bool): Ui {
    var v := SetActive(u, false);
    if hasFocus && v.visible then SetActive(v, true) else v
  }

  function SetHealth(u: Ui, h: Option<Health>): Ui {
    var v := u.(health := h);
    if v.openKind.Some? && !Eligible(h, v.openKind.value) then CloseConsumer(v) else v
  }

  function NavigateTo(u: Ui, home: bool): Ui { CloseConsumer(u.(home := home)) }

  function ApplyPreview(u: Ui, p: Preview, node: Option<Source>): Ui {
    if u.active && u.visible && p.generation != 0 && p.generation == u.accepted
       && node.Some? && Eligible(u.health, node.value)
    then u.(shown := p) else u
  }

  /** The handlers chained on the head call run: `reply` is the returned generation or a refusal. */
  function Settle(u: Ui, reply: Result<nat, ()>): Ui
    requires u.queue != []
  {
    var op := u.queue[0];
    var v := u.(queue := u.queue[1..]);
    match (op.target, reply)
    case (None, _) => v
    case (Some(_), Ok(gen)) =>
      if op.request == v.request && v.openKind == op.target
      then v.(accepted := gen, shown := EMPTY) else v
    case (Some(_), Err(_)) =>
      if op.request == v.request then v.(accepted := 0, openKind := None, shown := EMPTY) else v
  }

  // ----- the whole system -------------------------------------------------------------

  /** What one executed `set_proof_consumer` call did; kept only to state the properties. */
  datatype Issue = Issue(request: nat, target: Option<Source>, generation: nat, accepted: bool)

  datatype World = World(
    ui: Ui,
    gate: Gate,
    reply: Option<Result<nat, ()>>,  // the head call has run and its answer is on the way
    engine: Preview,                 // the engine's own snapshot
    flight: set<Preview>,            // every snapshot sent so far; delivery may be late
    sources: seq<Option<Source>>,    // history: the gate's source at each generation
    log: seq<Issue>,                 // history: executed calls, oldest first
    settled: bool)                   // no native close or lost call since the last executed call

  const INITIAL := World(INITIAL_UI, Gate(0, None), None, EMPTY, {}, [None], [], true)

  datatype Event =
    // webview
    | Ensure(step: WizardStep)
    | Active(active: bool)
    | InactiveNotice(hasFocus: bool)
    | HealthChanged(health: Option<Health>)
    | Visibility(visible: bool)
    | Navigate(home: bool)
    | WizardSavedReply
    | Deliver(preview: Preview, node: Option<Source>)
    | SettleHead
    // native commands
    | Execute(eligible: bool)
    | Lose
    | Revoke
    | NativeClose
    // capture engine
    | ClearPreviews
    | ClearSource(kind: Source)
    | Capture(kind: Source, sample: Sample)

  function MoveGate(w: World, g: Gate): World {
    w.(gate := g, sources := w.sources + [g.source])
  }

  function Publish(w: World, p: Preview): World { w.(engine := p, flight := w.flight + {p}) }

  /** `set_proof_consumer` runs for the head of the chain. */
  function ExecuteHead(w: World, eligible: bool): World
    requires w.ui.queue != []
  {
    var op := w.ui.queue[0];
    var (g, reply) := SetConsumer(w.gate, op.target, eligible);
    MoveGate(w, g).(reply := Some(reply),
                    log := w.log + [Issue(op.request, op.target, g.generation, reply.Ok?)],
                    settled := true)
  }

  /** One step. An event that cannot happen in `w` leaves it unchanged. */
  function Step(w: World, e: Event): World {
    match e
    case Ensure(step) => w.(ui := EnsureConsumer(w.ui, step))
    case Active(active) => w.(ui := SetActive(w.ui, active))
    case InactiveNotice(hasFocus) => w.(ui := HandleInactive(w.ui, hasFocus))
    case HealthChanged(health) => w.(ui := SetHealth(w.ui, health))
    case Visibility(visible) => w.(ui := w.ui.(visible := visible))
    case Navigate(home) => w.(ui := NavigateTo(w.ui, home))
    case WizardSavedReply => w.(ui := CloseConsumer(w.ui))
    case Deliver(preview, node) =>
      if preview in w.flight then w.(ui := ApplyPreview(w.ui, preview, node)) else w
    case SettleHead =>
      if w.reply.Some? && w.ui.queue != []
      then w.(ui := Settle(w.ui, w.reply.value), reply := None) else w
    case Execute(eligible) =>
      if w.reply.None? && w.ui.queue != [] then ExecuteHead(w, eligible) else w
    case Lose =>
      if w.reply.None? && w.ui.queue != [] then w.(reply := Some(Err(())), settled := false) else w
    case Revoke =>
      if w.gate.source.Some? then MoveGate(w, CloseGate(w.gate)).(settled := false) else w
    case NativeClose => MoveGate(w, CloseGate(w.gate)).(settled := false)
    case ClearPreviews => Publish(w, ClearAll(w.gate))
    case ClearSource(kind) => Publish(w, ClearOne(w.engine, w.gate, kind))
    case Capture(kind, sample) =>
      if Admits(w.gate, kind, sample)
      then Publish(w, UpdateOne(w.engine, w.gate, kind, sample)) else w
  }

  /** The world after a run, from launch. */
  function Run(events: seq<Event>): World {
    if events == [] then INITIAL
    else Step(Run(events[..|events| - 1]), events[|events| - 1])
  }

  lemma RunSnoc(events: seq<Event>, e: Event)
    ensures Run(events + [e]) == Step(Run(events), e)
  {
    assert (events + [e])[..|events|] == events;
  }
}
