/**
  Generations are honest, samples need not be: the engine restamps its snapshot with the
  gate's current generation, and a sample taken under an older generation rides along
  unless the pending `ClearPreviews` command was handled first. This file gives the exact
  condition under which every snapshot's samples were taken under the generation it claims.
*/
module ProofFreshness {
  import opened Prelude
  import opened ProofProtocol
  import opened ProofSafety

  /** Every sample was admitted under the generation the snapshot claims. */
  ghost predicate Fresh(p: Preview) {
    forall k :: k in p.samples ==> p.samples[k].admitted == p.generation
  }

  /** Restamping `p` on behalf of `kind` cannot relabel another source's old sample. */
  predicate Prompt(p: Preview, g: Gate, kind: Source) {
    p.generation == g.generation || p.samples.Keys <= Slot(kind)
  }

  /** Both restamping operations keep a snapshot fresh exactly when they are prompt. */
  lemma RestampExact(p: Preview, g: Gate, kind: Source, s: Sample)
    requires Fresh(p)
    ensures Fresh(ClearOne(p, g, kind)) <==> Prompt(p, g, kind)
    ensures Admits(g, kind, s) ==>
              (Fresh(UpdateOne(p, g, kind, s)) <==> Prompt(p, g, kind))
  {
    if !(p.samples.Keys <= Slot(kind)) {
      var other :| other in p.samples.Keys && other !in Slot(kind);
      assert ClearOne(p, g, kind).samples[other] == p.samples[other];
      if Admits(g, kind, s) {
        assert UpdateOne(p, g, kind, s).samples[other] == p.samples[other];
      }
    }
  }

  /** The engine restamps its snapshot in this step only when that is prompt. */
  predicate PromptStep(w: World, e: Event) {
    match e
    case ClearSource(kind) => Prompt(w.engine, w.gate, kind)
    case Capture(kind, s) =>
      Admits(w.gate, kind, s) ==> Prompt(w.engine, w.gate, kind)
    case _ => true
  }

  predicate PromptRun(events: seq<Event>) {
    events == [] ||
    (PromptRun(events[..|events| - 1])
     && PromptStep(Run(events[..|events| - 1]), events[|events| - 1]))
  }

  ghost predicate AllFresh(w: World) { forall p :: p in w.flight ==> Fresh(p) }

  lemma StepFreshness(w: World, e: Event)
    requires AllFresh(w) && Fresh(w.engine)
    ensures PromptStep(w, e) <==> AllFresh(Step(w, e))
    ensures PromptStep(w, e) ==> Fresh(Step(w, e).engine)
  {
    match e
    case ClearSource(kind) =>
      RestampExact(w.engine, w.gate, kind, Sample(0, 0));
      assert Step(w, e).engine in Step(w, e).flight;
    case Capture(kind, s) =>
      if Admits(w.gate, kind, s) {
        RestampExact(w.engine, w.gate, kind, s);
        assert Step(w, e).engine in Step(w, e).flight;
      }
    case _ =>
  }

  lemma FlightGrows(w: World, e: Event)
    ensures w.flight <= Step(w, e).flight
  {
  }

  /** Every snapshot ever sent is fresh, exactly for the runs in which every restamp is prompt. */
  lemma {:induction false} FreshExactlyWhenPrompt(events: seq<Event>)
    ensures PromptRun(events) <==> AllFresh(Run(events))
    ensures PromptRun(events) ==> Fresh(Run(events).engine)
  {
    if events == [] {
    } else {
      var before := Run(events[..|events| - 1]);
      FreshExactlyWhenPrompt(events[..|events| - 1]);
      if AllFresh(before) { StepFreshness(before, events[|events| - 1]); }
      FlightGrows(before, events[|events| - 1]);
    }
  }

  /** In a prompt run, a snapshot only ever carries the source its generation was open for. */
  ghost predicate OneSource(w: World, p: Preview) {
    && p.generation < |w.sources|
    && forall k :: k in p.samples ==> w.sources[p.generation] == Some(k)
  }

  ghost predicate SourceInv(w: World) {
    && OneSource(w, w.engine)
    && forall p :: p in w.flight ==> OneSource(w, p)
  }

  lemma StepKeepsSources(w: World, e: Event)
    requires GateInv(w) && SourceInv(w) && Fresh(w.engine) && PromptStep(w, e)
    ensures SourceInv(Step(w, e))
  {
    match e
    case Execute(_) =>
    case Revoke =>
    case NativeClose =>
    case ClearSource(kind) =>
    case Capture(kind, s) =>
      if Admits(w.gate, kind, s) {
        var p := UpdateOne(w.engine, w.gate, kind, s);
        assert forall k :: k in p.samples ==> k == kind || k in w.engine.samples;
        assert OneSource(w, p);
      }
    case _ =>
  }

  lemma {:induction false} PromptRunKeepsSources(events: seq<Event>)
    requires PromptRun(events)
    ensures SourceInv(Run(events))
  {
    if events == [] {
    } else {
      var before := events[..|events| - 1];
      PromptRunKeepsSources(before);
      RunKeepsInv(before);
      FreshExactlyWhenPrompt(before);
      StepKeepsSources(Run(before), events[|events| - 1]);
    }
  }

  /** In a prompt run, whatever sample is on screen was captured by the very source the
      webview's latest request opened, under the generation that request was given. */
  lemma ShownSampleIsCurrent(events: seq<Event>, kind: Source)
    requires PromptRun(events)
    requires kind in Run(events).ui.shown.samples
    ensures
      var w := Run(events);
      && w.ui.openKind == Some(kind)
      && w.ui.shown.samples[kind].admitted == w.ui.accepted != 0
      && w.gate.generation >= w.ui.accepted
  {
    RunKeepsInv(events);
    FreshExactlyWhenPrompt(events);
    PromptRunKeepsSources(events);
    StalePreviewSafety(events);
  }

  // ----- the condition is needed ------------------------------------------------------

  const MIC_ON := Some(Health({Mic}, Some(StepMic)))
  const OLD := Sample(1, 5)
  const RELABELLED := Preview(3, map[Mic := OLD])

  const VISIT: seq<Event> := [Active(true), Execute(true), SettleHead]
  const LEAVE: seq<Event> := [Active(false), Execute(true), SettleHead]

  /** The microphone page opened, sampled, left and reopened. */
  const SAMPLED: seq<Event> := [HealthChanged(MIC_ON)] + VISIT + [Capture(Mic, OLD)]
  const REOPENED: seq<Event> := SAMPLED + LEAVE + VISIT

  lemma RunThree(events: seq<Event>, a: Event, b: Event, c: Event)
    ensures Run(events + [a, b, c]) == Step(Step(Step(Run(events), a), b), c)
  {
    RunSnoc(events, a);
    RunSnoc(events + [a], b);
    RunSnoc(events + [a] + [b], c);
    assert events + [a] + [b] + [c] == events + [a, b, c];
  }

  lemma VisitOpens(events: seq<Event>)
    requires
      var w := Run(events);
      && w.ui == Ui(w.ui.request, None, 0, w.ui.active, true, true, MIC_ON, [], EMPTY)
      && w.reply.None?
    ensures
      var w, x := Run(events), Run(events + VISIT);
      && x.ui == Ui(w.ui.request + 1, Some(Mic), w.gate.generation + 1, true, true, true, MIC_ON, [], EMPTY)
      && x.gate == Gate(w.gate.generation + 1, Some(Mic))
      && x.engine == w.engine && x.reply.None?
  {
    RunThree(events, Active(true), Execute(true), SettleHead);
    var a := Step(Run(events), Active(true));
    assert a.ui.queue == [Op(a.ui.request, Some(Mic))];
  }

  lemma LeaveCloses(events: seq<Event>)
    requires Run(events).ui.queue == [] && Run(events).reply.None?
    ensures
      var w, x := Run(events), Run(events + LEAVE);
      && x.ui == w.ui.(request := w.ui.request + 1, openKind := None, accepted := 0, active := false, shown := EMPTY)
      && x.gate == Gate(w.gate.generation + 1, None)
      && x.engine == w.engine && x.reply.None?
  {
    RunThree(events, Active(false), Execute(true), SettleHead);
    var a := Step(Run(events), Active(false));
    assert a.ui.queue == [Op(a.ui.request, None)];
  }

  lemma ReopenedWorld()
    ensures
      var w := Run(REOPENED);
      && w.ui == Ui(3, Some(Mic), 3, true, true, true, MIC_ON, [], EMPTY)
      && w.gate == Gate(3, Some(Mic))
      && w.engine == Preview(1, map[Mic := OLD])
  {
    RunSnoc([], HealthChanged(MIC_ON));
    assert [] + [HealthChanged(MIC_ON)] == [HealthChanged(MIC_ON)];
    VisitOpens([HealthChanged(MIC_ON)]);
    RunSnoc([HealthChanged(MIC_ON)] + VISIT, Capture(Mic, OLD));
    LeaveCloses(SAMPLED);
    VisitOpens(SAMPLED + LEAVE);
  }

  /** A late restamp for another source, desktop activity included, puts the first visit's
      sample on screen under the second visit's generation. */
  lemma StaleSampleCanBeShown(kind: Source)
    requires kind != Mic
    ensures
      var w := Run(REOPENED + [ClearSource(kind)] + [Deliver(RELABELLED, Some(Mic))]);
      && Mic in w.ui.shown.samples
      && w.ui.shown.samples[Mic].admitted < w.ui.accepted
    ensures !PromptRun(REOPENED + [ClearSource(kind)])
  {
    ReopenedWorld();
    RunSnoc(REOPENED, ClearSource(kind));
    RunSnoc(REOPENED + [ClearSource(kind)], Deliver(RELABELLED, Some(Mic)));
    var w := Run(REOPENED + [ClearSource(kind)]);
    assert w.engine.samples == map[Mic := OLD];
    assert RELABELLED in w.flight;
    FreshExactlyWhenPrompt(REOPENED + [ClearSource(kind)]);
    assert Mic in RELABELLED.samples && RELABELLED.samples[Mic].admitted != RELABELLED.generation;
  }
}
