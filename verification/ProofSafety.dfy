/**
  What every run of the proof-preview protocol keeps: stale replies and stale previews
  are never accepted, and the gate converges to what the webview last asked for.
*/
module ProofSafety {
  import opened Prelude
  import opened ProofProtocol

  // ----- the invariant ----------------------------------------------------------------

  /** The chain holds the latest consecutive requests, and a generation is accepted only
      once the chain is empty. */
  ghost predicate UiInv(u: Ui) {
    && |u.queue| <= u.request
    && (forall i :: 0 <= i < |u.queue| ==> u.queue[i].request == u.request - |u.queue| + 1 + i)
    && (u.queue != [] ==> u.queue[|u.queue| - 1].target == u.openKind)
    && (u.accepted != 0 ==> u.queue == [] && u.openKind.Some?)
    && (u.shown != EMPTY ==> u.accepted != 0 && u.shown.generation == u.accepted)
  }

  /** `sources` is the gate's history. */
  ghost predicate GateInv(w: World) {
    && |w.sources| == w.gate.generation + 1
    && w.sources[w.gate.generation] == w.gate.source
    && w.sources[0] == None
  }

  /** The source an executed call left the gate with. */
  function Left(r: Issue): Option<Source> { if r.accepted then r.target else None }

  /** The log is strictly increasing, and each entry names what the gate did. */
  ghost predicate LogInv(w: World) {
    && |w.sources| == w.gate.generation + 1
    && (forall i :: 0 <= i < |w.log| ==>
          && 0 < w.log[i].generation <= w.gate.generation
          && w.sources[w.log[i].generation] == Left(w.log[i])
          && w.log[i].request <= w.ui.request - |w.ui.queue| + (if w.reply.Some? then 1 else 0))
    && (forall i, j :: 0 <= i < j < |w.log| ==>
          w.log[i].generation < w.log[j].generation && w.log[i].request < w.log[j].request)
  }

  ghost predicate ReplyInv(w: World) {
    && (w.reply.Some? ==> w.ui.queue != [])
    && (w.reply.Some? && w.reply.value.Ok? ==>
          && w.log != []
          && w.log[|w.log| - 1] ==
               Issue(w.ui.queue[0].request, w.ui.queue[0].target, w.reply.value.value, true))
  }

  /** The accepted generation is the one issued to the webview's latest request, an open. */
  ghost predicate AcceptInv(w: World) {
    w.ui.accepted != 0 ==>
      && w.log != []
      && w.log[|w.log| - 1] == Issue(w.ui.request, w.ui.openKind, w.ui.accepted, true)
  }

  ghost predicate FlightInv(w: World) {
    && (forall p :: p in w.flight ==> p.generation <= w.gate.generation)
    && (w.ui.shown != EMPTY ==> w.ui.shown in w.flight)
  }

  /** With nothing closed behind the webview's back, the gate is where the last executed call
      left it, and an accepted generation is the gate's own. */
  ghost predicate AgreeInv(w: World) {
    w.settled ==>
      && (w.ui.queue == [] ==> w.gate.source == w.ui.openKind)
      && (w.ui.queue == [] && w.ui.openKind.Some? ==> w.ui.accepted == w.gate.generation)
      && (w.reply.Some? && w.ui.queue != [] ==>
            w.gate.source == if w.reply.value.Ok? then w.ui.queue[0].target else None)
      && (w.reply.Some? && w.reply.value.Ok? ==> w.reply.value.value == w.gate.generation)
  }

  ghost predicate Inv(w: World) {
    UiInv(w.ui) && GateInv(w) && LogInv(w) && ReplyInv(w) && AcceptInv(w) && FlightInv(w) && AgreeInv(w)
  }

  // ----- every step keeps it ----------------------------------------------------------

  /** Webview code either leaves the protocol's fields alone or adds requests at the end. */
  ghost predicate Extends(u: Ui, v: Ui) {
    && u.queue <= v.queue
    && v.request - u.request == |v.queue| - |u.queue|
    && (v.queue == u.queue ==> v.accepted == u.accepted && v.openKind == u.openKind && v.shown == u.shown)
    && (v.queue != u.queue ==> v.accepted == 0 && v.shown == EMPTY)
  }

  lemma RequestExtends(u: Ui, target: Option<Source>)
    requires UiInv(u)
    ensures UiInv(Request(u, target)) && Extends(u, Request(u, target))
  {
  }

  lemma EnsureExtends(u: Ui, step: WizardStep)
    requires UiInv(u)
    ensures UiInv(EnsureConsumer(u, step)) && Extends(u, EnsureConsumer(u, step))
  {
    RequestExtends(u, Target(u, step));
  }

  lemma SetHealthExtends(u: Ui, h: Option<Health>)
    requires UiInv(u)
    ensures UiInv(SetHealth(u, h)) && Extends(u, SetHealth(u, h))
  {
    RequestExtends(u.(health := h), None);
  }

  lemma SetActiveExtends(u: Ui, active: bool)
    requires UiInv(u)
    ensures UiInv(SetActive(u, active)) && Extends(u, SetActive(u, active))
  {
    var v := u.(active := active);
    RequestExtends(v, None);
    if v.health.Some? && v.health.value.wizard.Some? {
      EnsureExtends(v, v.health.value.wizard.value);
    }
  }

  lemma InactiveExtends(u: Ui, hasFocus: bool)
    requires UiInv(u)
    ensures UiInv(HandleInactive(u, hasFocus)) && Extends(u, HandleInactive(u, hasFocus))
  {
    SetActiveExtends(u, false);
    SetActiveExtends(SetActive(u, false), true);
  }

  lemma ExtendsKeepsInv(w: World, v: Ui)
    requires Inv(w) && UiInv(v) && Extends(w.ui, v)
    ensures Inv(w.(ui := v))
  {
    if w.ui.queue != [] { assert v.queue[0] == w.ui.queue[0]; }
  }

  ghost predicate WebviewEvent(e: Event) {
    e.Ensure? || e.Active? || e.InactiveNotice? || e.HealthChanged? || e.Visibility? || e.Navigate? || e.WizardSavedReply?
  }

  lemma WebviewStepExtends(w: World, e: Event)
    requires UiInv(w.ui) && WebviewEvent(e)
    ensures Step(w, e) == w.(ui := Step(w, e).ui)
    ensures UiInv(Step(w, e).ui) && Extends(w.ui, Step(w, e).ui)
  {
    match e
    case Ensure(step) => EnsureExtends(w.ui, step);
    case Active(active) => SetActiveExtends(w.ui, active);
    case InactiveNotice(hasFocus) => InactiveExtends(w.ui, hasFocus);
    case HealthChanged(h) => SetHealthExtends(w.ui, h);
    case Visibility(_) =>
    case Navigate(home) => RequestExtends(w.ui.(home := home), None);
    case WizardSavedReply => RequestExtends(w.ui, None);
  }

  lemma WebviewStepKeepsInv(w: World, e: Event)
    requires Inv(w) && WebviewEvent(e)
    ensures Inv(Step(w, e))
  {
    WebviewStepExtends(w, e);
    ExtendsKeepsInv(w, Step(w, e).ui);
  }

  lemma SettleKeepsInv(w: World)
    requires Inv(w)
    ensures Inv(Step(w, SettleHead))
  {
    if w.reply.Some? && w.ui.queue != [] {
      var u := w.ui;
      var v := Settle(u, w.reply.value);
      assert u.queue[0].request == u.request - |u.queue| + 1;
      assert v.queue == u.queue[1..];
      assert forall i :: 0 <= i < |v.queue| ==> v.queue[i] == u.queue[i + 1];
    }
  }

  lemma ExecuteKeepsInv(w: World, eligible: bool)
    requires Inv(w)
    ensures Inv(Step(w, Execute(eligible)))
  {
    if w.reply.None? && w.ui.queue != [] {
      var x := ExecuteHead(w, eligible);
      assert forall i :: 0 <= i < |w.log| ==> x.log[i] == w.log[i];
      assert x.log[|w.log|].generation == w.gate.generation + 1;
      assert w.ui.queue[0].request == w.ui.request - |w.ui.queue| + 1;
      assert w.ui.accepted == 0;
    }
  }

  lemma GateMoveKeepsInv(w: World)
    requires Inv(w)
    ensures Inv(MoveGate(w, CloseGate(w.gate)).(settled := false))
  {
  }

  lemma PublishKeepsInv(w: World, p: Preview)
    requires Inv(w) && p.generation <= w.gate.generation
    ensures Inv(Publish(w, p))
  {
  }

  lemma DeliverKeepsInv(w: World, p: Preview, node: Option<Source>)
    requires Inv(w) && p in w.flight
    ensures Inv(w.(ui := ApplyPreview(w.ui, p, node)))
  {
  }

  lemma StepKeepsInv(w: World, e: Event)
    requires Inv(w)
    ensures Inv(Step(w, e))
  {
    match e
    case SettleHead => SettleKeepsInv(w);
    case Execute(eligible) => ExecuteKeepsInv(w, eligible);
    case Lose =>
    case Revoke => GateMoveKeepsInv(w);
    case NativeClose => GateMoveKeepsInv(w);
    case ClearPreviews => PublishKeepsInv(w, ClearAll(w.gate));
    case ClearSource(kind) => PublishKeepsInv(w, ClearOne(w.engine, w.gate, kind));
    case Capture(kind, s) =>
      if Admits(w.gate, kind, s) {
        PublishKeepsInv(w, UpdateOne(w.engine, w.gate, kind, s));
      }
    case Deliver(p, node) => if p in w.flight { DeliverKeepsInv(w, p, node); }
    case _ => WebviewStepKeepsInv(w, e);
  }

  lemma {:induction false} RunKeepsInv(events: seq<Event>)
    ensures Inv(Run(events))
  {
    if events == [] {
    } else {
      RunKeepsInv(events[..|events| - 1]);
      StepKeepsInv(Run(events[..|events| - 1]), events[|events| - 1]);
    }
  }

  // ----- stale-preview safety ---------------------------------------------------------

  /** The preview on screen carries the generation the gate issued to the webview's most recent
      request; that request was an open of the kind the webview believes open, and it is the
      only executed call that ever got that generation. */
  ghost predicate Current(w: World) {
    w.ui.shown != EMPTY ==>
      && w.ui.openKind.Some?
      && (exists i :: 0 <= i < |w.log|
            && w.log[i] == Issue(w.ui.request, w.ui.openKind, w.ui.shown.generation, true))
      && (forall i :: 0 <= i < |w.log| && w.log[i].generation == w.ui.shown.generation ==>
            w.log[i].request == w.ui.request)
      && w.ui.shown.generation < |w.sources|
      && w.sources[w.ui.shown.generation] == w.ui.openKind
  }

  /** So it is in every reachable world. */
  lemma StalePreviewSafety(events: seq<Event>)
    ensures Current(Run(events))
  {
    RunKeepsInv(events);
    var w := Run(events);
    if w.ui.shown != EMPTY {
      var k := |w.log| - 1;
      assert w.log[k] == Issue(w.ui.request, w.ui.openKind, w.ui.shown.generation, true);
    }
  }

  /** Over every run, whatever the event: what is shown changes to a preview only when that
      preview is delivered to an active window with a visible document and a proof node whose
      source the latest health report says is on, under the accepted generation; and under
      exactly those conditions a delivery shows it. */
  lemma PaintedExactly(events: seq<Event>, e: Event)
    ensures
      var u, v := Run(events).ui, Step(Run(events), e).ui;
      v.shown != u.shown && v.shown != EMPTY ==>
        && e.Deliver? && v.shown == e.preview
        && u.active && u.visible && e.node.Some? && u.health.Some? && e.node.value in u.health.value.eligible
        && e.preview.generation == u.accepted && u.accepted != 0
    ensures
      var u, v := Run(events).ui, Step(Run(events), e).ui;
      e.Deliver? && e.preview in Run(events).flight ==>
        v == u.(shown :=
          if && u.active && u.visible && e.node.Some? && u.health.Some? && e.node.value in u.health.value.eligible
             && e.preview.generation == u.accepted && u.accepted != 0
          then e.preview else u.shown)
  {
    RunKeepsInv(events);
    if WebviewEvent(e) { WebviewStepExtends(Run(events), e); }
  }

  /** What a page's request leaves: the page's own source if it may be shown, and nothing
      otherwise; a change of belief is one new request. */
  lemma EnsureDecides(u: Ui, step: WizardStep, kind: Source)
    ensures
      var v := EnsureConsumer(u, step);
      && (v.openKind == Some(kind) <==>
            && u.active && u.visible && u.health.Some? && kind in u.health.value.eligible
            && ((step == StepMic && kind == Mic) || (step == StepSystemAudio && kind == SystemAudio)
                || (step == StepScreen && kind == Screen)))
      && (v.openKind == u.openKind ==> v == u)
      && (v.openKind != u.openKind ==>
            v.accepted == 0 && v.shown == EMPTY && v.queue == u.queue + [Op(u.request + 1, v.openKind)])
  {
  }

  /** The page a wizard step belongs to. */
  lemma PagesAndSources(step: WizardStep)
    ensures SourceOf(step) == Some(Mic) <==> step == StepMic
    ensures SourceOf(step) == Some(SystemAudio) <==> step == StepSystemAudio
    ensures SourceOf(step) == Some(Screen) <==> step == StepScreen
    ensures SourceOf(step) == None <==> step == StepConnection || step == StepDone
  {
  }

  lemma OldGenerationNotAccepted(w: World, i: nat)
    requires LogInv(w) && AcceptInv(w) && i < |w.log| && w.log[i].request != w.ui.request
    ensures w.log[i].generation != w.ui.accepted
  {
    if w.ui.accepted != 0 && i < |w.log| - 1 {
      assert w.log[i].generation < w.log[|w.log| - 1].generation;
    }
  }

  /** A preview stamped with the generation of any earlier request's call is refused. */
  lemma StalePreviewRefused(events: seq<Event>, i: nat, preview: Preview, node: Option<Source>)
    requires i < |Run(events).log| && Run(events).log[i].request != Run(events).ui.request
    requires preview.generation == Run(events).log[i].generation
    ensures Step(Run(events), Deliver(preview, node)) == Run(events)
  {
    RunKeepsInv(events);
    OldGenerationNotAccepted(Run(events), i);
  }

  /** In every reachable world, an arriving reply makes the webview accept a generation exactly
      when it is the last one outstanding, a success, and for an open; while others are
      outstanding it changes nothing but the chain. */
  lemma OnlyLastReplyCounts(events: seq<Event>)
    requires Run(events).reply.Some?
    ensures
      var w := Run(events);
      var v := Step(w, SettleHead).ui;
      && w.ui.queue != []
      && (v.accepted != 0 <==> |w.ui.queue| == 1 && w.reply.value.Ok? && w.ui.openKind.Some?)
      && (|w.ui.queue| > 1 ==> v == w.ui.(queue := w.ui.queue[1..]))
  {
    RunKeepsInv(events);
    var w := Run(events);
    assert w.ui.queue[0].request == w.ui.request - |w.ui.queue| + 1;
    if w.reply.value.Ok? { assert w.log[|w.log| - 1].generation > 0; }
  }

  // ----- convergence ------------------------------------------------------------------

  /** With the chain empty, and no native close or lost call since the last executed call, the
      gate's source is what the webview believes open, and the webview accepts exactly the
      gate's current generation. */
  lemma QuietGateAgrees(events: seq<Event>)
    ensures
      var w := Run(events);
      w.ui.queue == [] && w.settled ==>
        w.gate.source == w.ui.openKind && (w.ui.openKind.Some? ==> w.ui.accepted == w.gate.generation)
  {
    RunKeepsInv(events);
  }

  /** The head call, run unless its answer is already on the way. */
  function RunHead(w: World, answer: bool): World {
    if w.reply.Some? then w else Step(w, Execute(answer))
  }

  lemma DrainStep(w: World, answer: bool)
    requires w.ui.queue != []
    ensures
      var y := Step(RunHead(w, answer), SettleHead);
      && y.reply.None? && y.ui.queue == w.ui.queue[1..] && y.ui.request == w.ui.request
      && (w.reply.None? ==> y.settled)
      && (w.reply.Some? ==> y.settled == w.settled)
  {
  }

  /** Running and settling every call now in the chain, one eligibility answer each. */
  function Drain(w: World, answers: seq<bool>): World
    requires |answers| == |w.ui.queue|
    decreases |answers|
  {
    if w.ui.queue == [] then w
    else
      DrainStep(w, answers[0]);
      Drain(Step(RunHead(w, answers[0]), SettleHead), answers[1..])
  }

  lemma {:induction false} DrainSettles(w: World, answers: seq<bool>)
    requires Inv(w) && |answers| == |w.ui.queue|
    requires |w.ui.queue| > (if w.reply.Some? then 1 else 0) || w.settled
    ensures
      var d := Drain(w, answers);
      Inv(d) && d.ui.queue == [] && d.settled && d.ui.request == w.ui.request
    decreases |answers|
  {
    if w.ui.queue != [] {
      DrainStep(w, answers[0]);
      TurnKeepsInv(w, answers[0]);
      DrainSettles(Step(RunHead(w, answers[0]), SettleHead), answers[1..]);
    }
  }

  /** From every reachable world with a request still to run - after any revocations, lost
      calls or bursts - letting the chain finish makes the gate agree with the webview,
      whatever the eligibility answers. */
  lemma DrainConverges(events: seq<Event>, answers: seq<bool>)
    requires |answers| == |Run(events).ui.queue|
    requires Run(events).ui.queue != []
    requires Run(events).reply.Some? ==> |answers| > 1
    ensures
      var d := Drain(Run(events), answers);
      && d.ui.queue == [] && d.ui.request == Run(events).ui.request
      && d.gate.source == d.ui.openKind
      && (d.ui.openKind.Some? ==> d.ui.accepted == d.gate.generation)
  {
    RunKeepsInv(events);
    DrainSettles(Run(events), answers);
  }

  // ----- what the webview keeps open --------------------------------------------------

  /** The webview asks for a source only while its window is active and the source is on. */
  ghost predicate OpenInv(u: Ui) {
    u.openKind.Some? ==> u.active && Eligible(u.health, u.openKind.value)
  }

  lemma SetActiveKeepsOpen(u: Ui, active: bool)
    requires OpenInv(u)
    ensures OpenInv(SetActive(u, active))
  {
  }

  lemma StepKeepsOpen(w: World, e: Event)
    requires OpenInv(w.ui)
    ensures OpenInv(Step(w, e).ui)
  {
    match e
    case Active(active) => SetActiveKeepsOpen(w.ui, active);
    case InactiveNotice(_) =>
      SetActiveKeepsOpen(w.ui, false);
      SetActiveKeepsOpen(SetActive(w.ui, false), true);
    case _ =>
  }

  lemma {:induction false} OpenOnlyWhileEligible(events: seq<Event>)
    ensures OpenInv(Run(events).ui)
  {
    if events == [] {
    } else {
      OpenOnlyWhileEligible(events[..|events| - 1]);
      StepKeepsOpen(Run(events[..|events| - 1]), events[|events| - 1]);
    }
  }

  // ----- the webview gets what it asks for --------------------------------------------

  lemma TurnKeepsInv(w: World, answer: bool)
    requires Inv(w) && w.ui.queue != []
    ensures Inv(Step(RunHead(w, answer), SettleHead))
  {
    ExecuteKeepsInv(w, answer);
    SettleKeepsInv(RunHead(w, answer));
  }

  /** What one turn of the chain does to the webview's belief and to the gate. */
  lemma TurnOutcome(w: World, answer: bool)
    requires w.ui.queue != [] && w.ui.queue[0].request == w.ui.request - |w.ui.queue| + 1
    ensures
      var y := Step(RunHead(w, answer), SettleHead);
      && y.gate.generation == w.gate.generation + (if w.reply.None? then 1 else 0)
      && (|w.ui.queue| > 1 || (w.reply.None? && answer) ==> y.ui.openKind == w.ui.openKind)
  {
  }

  /** The last call decides: if it opens a source and the window is then eligible, that source
      is what the webview believes open at the end. */
  lemma {:induction false} DrainOpens(w: World, answers: seq<bool>)
    requires Inv(w) && |answers| == |w.ui.queue| > (if w.reply.Some? then 1 else 0)
    requires answers[|answers| - 1]
    ensures Drain(w, answers).ui.openKind == w.ui.openKind
    ensures w.gate.generation < Drain(w, answers).gate.generation
    decreases |answers|
  {
    var y := Step(RunHead(w, answers[0]), SettleHead);
    DrainStep(w, answers[0]);
    TurnKeepsInv(w, answers[0]);
    TurnOutcome(w, answers[0]);
    if |answers| == 1 {
      assert Drain(y, answers[1..]) == y;
    } else {
      DrainOpens(y, answers[1..]);
    }
  }

  /** After the notice the chain ends with a close and an open of the wizard's source. */
  lemma NoticeQueues(u: Ui, kind: Source, step: WizardStep)
    requires u.visible && u.home && u.health.Some? && u.health.value.wizard == Some(step)
    requires SourceOf(step) == Some(kind) && kind in u.health.value.eligible
    ensures
      var v := HandleInactive(u, true);
      v.openKind == Some(kind) && v.queue == u.queue + [Op(u.request + 1, None), Op(u.request + 2, Some(kind))]
  {
    var closed := SetActive(u, false);
    assert closed.queue == u.queue + [Op(u.request + 1, None)];
  }

  /** A native notice that arrives after focus returned, in any reachable world: once the chain
      has finished in an eligible window, the gate is open for the wizard's source at a newer
      generation, and that is the one the webview accepts. */
  lemma NoticeAsksAfresh(events: seq<Event>, kind: Source, step: WizardStep, answers: seq<bool>)
    requires
      var u := Run(events).ui;
      && u.visible && u.home && u.health.Some? && u.health.value.wizard == Some(step)
      && SourceOf(step) == Some(kind) && kind in u.health.value.eligible
    requires |answers| == |Run(events).ui.queue| + 2 && answers[|answers| - 1]
    ensures
      var v := Step(Run(events), InactiveNotice(true));
      && |v.ui.queue| == |answers|
      && var d := Drain(v, answers);
         && d.gate.source == d.ui.openKind == Some(kind)
         && d.ui.accepted == d.gate.generation > Run(events).gate.generation
  {
    NoticeQueues(Run(events).ui, kind, step);
    RunKeepsInv(events);
    WebviewStepKeepsInv(Run(events), InactiveNotice(true));
    var v := Step(Run(events), InactiveNotice(true));
    DrainOpens(v, answers);
    DrainSettles(v, answers);
  }

  /** In every reachable quiet world with a source open and the page visible, the source's next
      sample reaches the screen. */
  lemma CurrentSampleIsShown(events: seq<Event>, kind: Source, level: int)
    requires
      var w := Run(events);
      w.ui.queue == [] && w.settled && w.ui.openKind == Some(kind) && w.ui.visible && !kind.DesktopActivity?
    ensures
      var w := Run(events);
      var s := Sample(w.gate.generation, level);
      var x := Step(w, Capture(kind, s));
      var y := Step(x, Deliver(x.engine, Some(kind)));
      kind in y.ui.shown.samples && y.ui.shown.samples[kind] == s && y.ui.shown.generation == w.ui.accepted
  {
    RunKeepsInv(events);
    QuietGateAgrees(events);
    OpenOnlyWhileEligible(events);
    var w := Run(events);
    var x := Step(w, Capture(kind, Sample(w.gate.generation, level)));
    assert w.ui.accepted == w.gate.generation != 0;
    assert x.engine in x.flight && x.engine.generation == w.ui.accepted;
  }
}
