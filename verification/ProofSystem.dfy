/**
  The running system: one webview, one gate, the native commands and the capture engine, with
  the promise chain's pending answer and the previews on their way. Its history says which
  events have happened; `Valid` says that every variable is where the protocol's run of those
  events puts it, so every theorem about runs is a theorem about these objects.
*/
module ProofSystem {
  import opened Prelude
  import opened ProofProtocol
  import opened ProofSafety
  import opened ProofWebview

  class System {
    const webview: Webview
    const gate: ProofGate
    const commands: ProofCommands
    const engine: PreviewEngine
    var reply: Option<Result<nat, ()>>   // the answer of the call at the head of the chain
    var sent: set<Preview>               // every preview the engine has sent
    ghost var events: seq<Event>

    ghost predicate Valid()
      reads this, webview, gate, commands, engine
    {
      && commands.gate == gate && engine.gate == gate
      && webview.View() == Run(events).ui
      && gate.View() == Run(events).gate
      && engine.preview == Run(events).engine
      && reply == Run(events).reply
      && sent == Run(events).flight
    }

    /** What the owner sees is current: the window is active, the source shown is on, and the
        preview carries the generation issued to the webview's latest request, an open of that
        source; no other call ever got that generation. */
    ghost predicate Honest()
      reads this, webview
    {
      webview.latestPreview != EMPTY ==>
        && webview.windowActive
        && webview.openProofKind.Some? && Eligible(webview.latestHealth, webview.openProofKind.value)
        && webview.latestPreview.generation == webview.acceptedGeneration
        && var log := Run(events).log;
           && (exists i :: 0 <= i < |log|
                 && log[i] == Issue(webview.proofRequest, webview.openProofKind, webview.acceptedGeneration, true))
           && (forall i :: 0 <= i < |log| && log[i].generation == webview.acceptedGeneration ==>
                 log[i].request == webview.proofRequest)
    }

    lemma ValidIsHonest()
      requires Valid()
      ensures Honest()
    {
      RunKeepsInv(events);
      StalePreviewSafety(events);
      OpenOnlyWhileEligible(events);
    }

    constructor ()
      ensures Valid() && Honest() && events == []
      ensures fresh(webview) && fresh(gate) && fresh(commands) && fresh(engine)
    {
      webview := new Webview();
      var shared := new ProofGate();
      gate := shared;
      commands := new ProofCommands(shared);
      engine := new PreviewEngine(shared);
      reply, sent, events := None, {}, [];
    }

    // ----- webview --------------------------------------------------------------------

    /** The page of `step` may show `kind`: it is that source's page, the window is active, the
        document visible, and the latest health report says the source is on. */
    ghost predicate MayShow(step: WizardStep, kind: Source)
      reads webview
    {
      && webview.windowActive && webview.documentVisible
      && webview.latestHealth.Some? && kind in webview.latestHealth.value.eligible
      && ((step == StepMic && kind == Mic) || (step == StepSystemAudio && kind == SystemAudio)
          || (step == StepScreen && kind == Screen))
    }

    lemma PageDecides(before: Ui, step: WizardStep)
      requires webview.View() == EnsureConsumer(before, step)
      ensures forall kind :: webview.openProofKind == Some(kind) <==> MayShow(step, kind)
      ensures webview.openProofKind == before.openKind ==> webview.View() == before
      ensures webview.openProofKind != before.openKind ==>
                && webview.acceptedGeneration == 0 && webview.latestPreview == EMPTY
                && webview.operations == before.queue + [Op(before.request + 1, webview.openProofKind)]
    {
      forall kind ensures webview.openProofKind == Some(kind) <==> MayShow(step, kind) {
        EnsureDecides(before, step, kind);
      }
      EnsureDecides(before, step, Mic);
    }

    /** A wizard page asks for its source's preview. What it then believes open is exactly the
        source it may show; a change of belief is one new request, nothing accepted or shown. */
    method EnsureProofConsumer(step: WizardStep)
      requires Valid()
      modifies this`events, webview
      ensures Valid() && Honest() && events == old(events) + [Ensure(step)]
      ensures forall kind :: webview.openProofKind == Some(kind) <==> MayShow(step, kind)
      ensures webview.openProofKind == old(webview.openProofKind) ==> webview.View() == old(webview.View())
      ensures webview.openProofKind != old(webview.openProofKind) ==>
                && webview.acceptedGeneration == 0 && webview.latestPreview == EMPTY
                && webview.operations == old(webview.operations) + [Op(old(webview.proofRequest) + 1, webview.openProofKind)]
    {
      ghost var before := webview.View();
      AskForPage(step);
      PageDecides(before, step);
    }

    method AskForPage(step: WizardStep)
      requires Valid()
      modifies this`events, webview
      ensures Valid() && Honest() && events == old(events) + [Ensure(step)]
      ensures webview.View() == EnsureConsumer(old(webview.View()), step)
    {
      webview.EnsureProofConsumer(step);
      RunSnoc(events, Ensure(step));
      events := events + [Ensure(step)];
      ValidIsHonest();
    }

    /** An inactive window shows nothing and accepts nothing; one that becomes active asks again on
        the home page of a wizard step, and otherwise changes nothing else. */
    method SetProofWindowActive(active: bool)
      requires Valid()
      modifies this`events, webview
      ensures Valid() && Honest() && events == old(events) + [Active(active)]
      ensures webview.windowActive == active
      ensures !active ==> webview.latestPreview == EMPTY && webview.acceptedGeneration == 0 && webview.openProofKind.None?
      ensures active && webview.onHome && webview.latestHealth.Some? && webview.latestHealth.value.wizard.Some? ==>
                forall kind :: webview.openProofKind == Some(kind) <==> MayShow(webview.latestHealth.value.wizard.value, kind)
      ensures active && !(webview.onHome && webview.latestHealth.Some? && webview.latestHealth.value.wizard.Some?) ==>
                webview.View() == old(webview.View()).(active := true)
    {
      webview.SetProofWindowActive(active);
      RunSnoc(events, Active(active));
      events := events + [Active(active)];
      ValidIsHonest();
    }

    /** A native notice never leaves an older generation accepted. */
    method HandleProofInactive(hasFocus: bool)
      requires Valid()
      modifies this`events, webview
      ensures Valid() && Honest() && events == old(events) + [InactiveNotice(hasFocus)]
      ensures webview.latestPreview == EMPTY && webview.acceptedGeneration == 0
      ensures webview.windowActive == (hasFocus && webview.documentVisible)
      ensures old(webview.operations) + [Op(old(webview.proofRequest) + 1, None)] <= webview.operations
    {
      webview.HandleProofInactive(hasFocus);
      RunSnoc(events, InactiveNotice(hasFocus));
      events := events + [InactiveNotice(hasFocus)];
      ValidIsHonest();
    }

    /** A source that is no longer on is no longer shown; otherwise only the report changes. */
    method SetLatestHealth(dump: Option<Health>)
      requires Valid()
      modifies this`events, webview
      ensures Valid() && Honest() && events == old(events) + [HealthChanged(dump)]
      ensures
        var kind := old(webview.openProofKind);
        if kind.Some? && (dump.None? || kind.value !in dump.value.eligible)
        then webview.latestPreview == EMPTY && webview.acceptedGeneration == 0 && webview.openProofKind.None?
        else webview.View() == old(webview.View()).(health := dump)
      ensures webview.latestHealth == dump
    {
      webview.SetLatestHealth(dump);
      RunSnoc(events, HealthChanged(dump));
      events := events + [HealthChanged(dump)];
      ValidIsHonest();
    }

    method SetVisible(visible: bool)
      requires Valid()
      modifies this`events, webview
      ensures Valid() && Honest() && events == old(events) + [Visibility(visible)]
    {
      webview.documentVisible := visible;
      RunSnoc(events, Visibility(visible));
      events := events + [Visibility(visible)];
      ValidIsHonest();
    }

    /** Nothing shown on one page is still shown on the next. */
    method NavigateTo(home: bool)
      requires Valid()
      modifies this`events, webview
      ensures Valid() && Honest() && events == old(events) + [Navigate(home)]
      ensures webview.latestPreview == EMPTY && webview.acceptedGeneration == 0 && webview.openProofKind.None?
      ensures webview.onHome == home
      ensures webview.operations == old(webview.operations) + [Op(old(webview.proofRequest) + 1, None)]
    {
      webview.NavigateTo(home);
      RunSnoc(events, Navigate(home));
      events := events + [Navigate(home)];
      ValidIsHonest();
    }

    /** The answer to a wizard step: a saved step leaves its page's preview behind. */
    method WizardStepAnswered(saved: bool)
      requires Valid()
      modifies this`events, webview
      ensures Valid() && Honest() && events == old(events) + if saved then [WizardSavedReply] else []
      ensures saved ==>
                && webview.latestPreview == EMPTY && webview.acceptedGeneration == 0 && webview.openProofKind.None?
                && webview.operations == old(webview.operations) + [Op(old(webview.proofRequest) + 1, None)]
      ensures !saved ==> webview.View() == old(webview.View())
    {
      webview.WizardStepAnswered(saved);
      if saved {
        RunSnoc(events, WizardSavedReply);
        events := events + [WizardSavedReply];
      }
      ValidIsHonest();
    }

    /** A preview arrives, however late. It is shown exactly when the window is active, the
        document visible, a proof node present whose source is on, and the preview is of the
        accepted generation; otherwise nothing changes. */
    method ApplyPreview(preview: Preview, node: Option<Source>)
      requires Valid() && preview in sent
      modifies this`events, webview
      ensures Valid() && Honest() && events == old(events) + [Deliver(preview, node)]
      ensures webview.View() == old(webview.View()).(shown := webview.latestPreview)
      ensures webview.latestPreview ==
                if && webview.windowActive && webview.documentVisible
                   && node.Some? && webview.latestHealth.Some? && node.value in webview.latestHealth.value.eligible
                   && preview.generation == webview.acceptedGeneration && webview.acceptedGeneration != 0
                then preview else old(webview.latestPreview)
    {
      webview.ApplyPreview(preview, node);
      RunSnoc(events, Deliver(preview, node));
      events := events + [Deliver(preview, node)];
      ValidIsHonest();
    }

    /** The pending answer reaches the chain's handlers. With it the chain is done, the webview
        accepts a generation exactly for a successful open; before that it accepts none. */
    method SettleOperation()
      requires Valid() && reply.Some?
      modifies this`events, this`reply, webview
      ensures Valid() && Honest() && events == old(events) + [SettleHead]
      ensures old(webview.operations) != [] && webview.operations == old(webview.operations)[1..]
      ensures webview.acceptedGeneration != 0 <==>
                webview.operations == [] && old(reply).value.Ok? && old(webview.openProofKind).Some?
      ensures webview.acceptedGeneration != 0 ==> old(reply).value == Ok(webview.acceptedGeneration)
      ensures webview.openProofKind ==
                if webview.operations == [] && old(reply).value.Err? then None else old(webview.openProofKind)
    {
      RunKeepsInv(events);
      OnlyLastReplyCounts(events);
      webview.SettleOperation(reply.value);
      reply := None;
      RunSnoc(events, SettleHead);
      events := events + [SettleHead];
      ValidIsHonest();
    }

    // ----- native commands ------------------------------------------------------------

    /** The call at the head of the chain runs: a fresh generation, for its source only in an
        eligible window. */
    method SetProofConsumer(windowEligible: bool)
      requires Valid() && reply.None? && webview.operations != []
      modifies this`events, this`reply, commands`clears, gate
      ensures Valid() && Honest() && events == old(events) + [Execute(windowEligible)]
      ensures gate.generation > old(gate.generation) && commands.clears == old(commands.clears) + 1
      ensures webview.operations[0].target.None? || windowEligible ==>
                reply == Some(Ok(gate.generation)) && gate.source == webview.operations[0].target
      ensures webview.operations[0].target.Some? && !windowEligible ==> reply == Some(Err(())) && gate.source.None?
    {
      var answer := commands.SetProofConsumer(webview.operations[0].target, windowEligible);
      reply := Some(answer);
      RunSnoc(events, Execute(windowEligible));
      events := events + [Execute(windowEligible)];
      ValidIsHonest();
    }

    /** The head call never reaches native code; its promise is rejected. */
    method LoseCall()
      requires Valid() && reply.None? && webview.operations != []
      modifies this`events, this`reply
      ensures Valid() && Honest() && events == old(events) + [Lose]
    {
      reply := Some(Err(()));
      RunSnoc(events, Lose);
      events := events + [Lose];
      ValidIsHonest();
    }

    /** The gate's part of a wizard save: a saved step ends every generation issued so far. */
    method WizardStepSaved(saved: bool) returns (generation: nat)
      requires Valid()
      modifies this`events, commands`clears, gate
      ensures Valid() && Honest() && events == old(events) + if saved then [NativeClose] else []
      ensures generation == gate.generation
      ensures saved ==> gate.source.None? && old(gate.generation) < gate.generation && commands.clears == old(commands.clears) + 1
      ensures !saved ==> gate.View() == old(gate.View()) && commands.clears == old(commands.clears)
    {
      generation := commands.WizardStepSaved(saved);
      if saved {
        RunSnoc(events, NativeClose);
        events := events + [NativeClose];
      }
      ValidIsHonest();
    }

    /** The window is gone or hidden: the gate is closed, and the webview told if it was open. */
    method RevokeSettingsProof(forceNotice: bool) returns (notice: bool)
      requires Valid()
      modifies this`events, commands`clears, gate
      ensures Valid() && Honest() && events == old(events) + [Revoke]
      ensures gate.source.None? && notice == (old(gate.source).Some? || forceNotice)
      ensures old(gate.source).Some? ==>
                old(gate.generation) < gate.generation && commands.clears == old(commands.clears) + 1
      ensures old(gate.source).None? ==> gate.View() == old(gate.View()) && commands.clears == old(commands.clears)
    {
      notice := commands.RevokeSettingsProof(forceNotice);
      RunSnoc(events, Revoke);
      events := events + [Revoke];
      ValidIsHonest();
    }

    // ----- capture engine -------------------------------------------------------------

    method ClearPreviews()
      requires Valid()
      modifies this`events, this`sent, engine
      ensures Valid() && Honest() && events == old(events) + [ProofProtocol.ClearPreviews]
      ensures engine.preview.samples == map[] && engine.preview.generation == gate.generation
      ensures sent == old(sent) + {engine.preview}
    {
      var preview := engine.ClearPreviews();
      sent := sent + {preview};
      RunSnoc(events, ProofProtocol.ClearPreviews);
      events := events + [ProofProtocol.ClearPreviews];
      ValidIsHonest();
    }

    method ClearSourcePreview(kind: Source)
      requires Valid()
      modifies this`events, this`sent, engine
      ensures Valid() && Honest() && events == old(events) + [ClearSource(kind)]
      ensures engine.preview.samples ==
                if kind == DesktopActivity then old(engine.preview).samples else old(engine.preview).samples - {kind}
      ensures engine.preview.generation == gate.generation && sent == old(sent) + {engine.preview}
    {
      var preview := engine.ClearSourcePreview(kind);
      sent := sent + {preview};
      RunSnoc(events, ClearSource(kind));
      events := events + [ClearSource(kind)];
      ValidIsHonest();
    }

    /** A captured sample is sent only while the gate is open for it, at its own generation. */
    method UpdatePreview(kind: Source, sample: Sample)
      requires Valid()
      modifies this`events, this`sent, engine
      ensures Valid() && Honest() && events == old(events) + [Capture(kind, sample)]
      ensures
        if gate.source == Some(kind) && sample.admitted == gate.generation && kind != DesktopActivity
        then engine.preview == Preview(gate.generation, old(engine.preview).samples[kind := sample]) && sent == old(sent) + {engine.preview}
        else engine.preview == old(engine.preview) && sent == old(sent)
    {
      var preview := engine.UpdatePreview(kind, sample);
      if preview.Some? {
        sent := sent + {preview.value};
      }
      RunSnoc(events, Capture(kind, sample));
      events := events + [Capture(kind, sample)];
      ValidIsHonest();
    }
  }
}
