/**
  The parts of the proof-preview code as they are written: module variables of the webview
  and a shared native gate, changed step by step. ProofSystem.dfy puts them together.
*/
module ProofWebview {
  import opened Prelude
  import opened ProofProtocol

  /** The webview's module variables. */
  class Webview {
    var proofRequest: nat
    var openProofKind: Option<Source>
    var acceptedGeneration: nat
    var windowActive: bool
    var documentVisible: bool
    var onHome: bool
    var latestHealth: Option<Health>
    var operations: seq<Op>
    var latestPreview: Preview

    ghost function View(): Ui
      reads this
    {
      Ui(proofRequest, openProofKind, acceptedGeneration, windowActive, documentVisible, onHome,
         latestHealth, operations, latestPreview)
    }

    constructor ()
      ensures View() == INITIAL_UI
    {
      proofRequest, openProofKind, acceptedGeneration := 0, None, 0;
      windowActive, documentVisible, onHome := true, true, true;
      latestHealth, operations, latestPreview := None, [], EMPTY;
    }

    method CloseProofConsumer()
      modifies this
      ensures View() == CloseConsumer(old(View()))
    {
      proofRequest := proofRequest + 1;
      acceptedGeneration := 0;
      openProofKind := None;
      latestPreview := EMPTY;
      operations := operations + [Op(proofRequest, None)];
    }

    method EnsureProofConsumer(step: WizardStep)
      modifies this
      ensures View() == EnsureConsumer(old(View()), step)
    {
      var target := None;
      var kind := SourceOf(step);
      if windowActive && documentVisible && kind.Some? && Eligible(latestHealth, kind.value) {
        target := kind;
      }
      if openProofKind == target {
        return;
      }
      if target.None? {
        CloseProofConsumer();
        return;
      }
      proofRequest := proofRequest + 1;
      var request := proofRequest;
      acceptedGeneration := 0;
      openProofKind := target;
      latestPreview := EMPTY;
      operations := operations + [Op(request, target)];
    }

    method SetProofWindowActive(active: bool)
      modifies this
      ensures View() == SetActive(old(View()), active)
    {
      windowActive := active;
      if !active {
        CloseProofConsumer();
      } else if onHome && latestHealth.Some? && latestHealth.value.wizard.Some? {
        EnsureProofConsumer(latestHealth.value.wizard.value);
      }
    }

    method HandleProofInactive(hasFocus: bool)
      modifies this
      ensures View() == HandleInactive(old(View()), hasFocus)
    {
      SetProofWindowActive(false);
      if hasFocus && documentVisible {
        SetProofWindowActive(true);
      }
    }

    method SetLatestHealth(dump: Option<Health>)
      modifies this
      ensures View() == SetHealth(old(View()), dump)
    {
      latestHealth := dump;
      if openProofKind.Some? && !Eligible(dump, openProofKind.value) {
        CloseProofConsumer();
      }
    }

    method NavigateTo(home: bool)
      modifies this
      ensures View() == ProofProtocol.NavigateTo(old(View()), home)
    {
      onHome := home;
      CloseProofConsumer();
    }

    /** `advanceWizardStep`, once the save has answered. */
    method WizardStepAnswered(saved: bool)
      modifies this
      ensures View() == if saved then CloseConsumer(old(View())) else old(View())
    {
      if saved {
        CloseProofConsumer();
      }
    }

    method ApplyPreview(preview: Preview, node: Option<Source>)
      modifies this
      ensures View() == ProofProtocol.ApplyPreview(old(View()), preview, node)
    {
      if !windowActive || !documentVisible || preview.generation == 0 || preview.generation != acceptedGeneration {
        return;
      }
      if node.None? || !Eligible(latestHealth, node.value) {
        return;
      }
      latestPreview := preview;
    }

    /** The handlers chained on the head call, when its answer arrives. */
    method SettleOperation(answer: Result<nat, ()>)
      requires operations != []
      modifies this
      ensures View() == Settle(old(View()), answer)
    {
      var op := operations[0];
      operations := operations[1..];
      if op.target.None? {
        return;
      }
      match answer {
        case Ok(gen) =>
          if op.request == proofRequest && openProofKind == op.target {
            acceptedGeneration := gen;
            latestPreview := EMPTY;
          }
        case Err(_) =>
          if op.request == proofRequest {
            acceptedGeneration := 0;
            openProofKind := None;
            latestPreview := EMPTY;
          }
      }
    }
  }

  /** The shared native gate. */
  class ProofGate {
    var generation: nat
    var source: Option<Source>

    constructor ()
      ensures View() == Gate(0, None)
    {
      generation, source := 0, None;
    }

    ghost function View(): Gate
      reads this
    {
      Gate(generation, source)
    }

    method Open(kind: Source) returns (gen: nat)
      modifies this
      ensures View() == OpenGate(old(View()), kind)
      ensures gen == generation
    {
      generation := generation + 1;
      source := Some(kind);
      gen := generation;
    }

    method Close() returns (gen: nat)
      modifies this
      ensures View() == CloseGate(old(View()))
      ensures gen == generation
    {
      generation := generation + 1;
      source := None;
      gen := generation;
    }
  }

  /** The native commands that touch the gate. `clears` counts the `ClearPreviews` commands sent. */
  class ProofCommands {
    const gate: ProofGate
    var clears: nat

    constructor (gate: ProofGate)
      ensures this.gate == gate && clears == 0
    {
      this.gate := gate;
      clears := 0;
    }

    method SetProofConsumer(target: Option<Source>, windowEligible: bool) returns (reply: Result<nat, ()>)
      modifies this`clears, gate
      ensures (gate.View(), reply) == SetConsumer(old(gate.View()), target, windowEligible)
      ensures clears == old(clears) + 1
    {
      var eligible := target.None? || windowEligible;
      var generation;
      if target.Some? && eligible {
        generation := gate.Open(target.value);
      } else {
        generation := gate.Close();
      }
      clears := clears + 1;
      reply := if eligible then Ok(generation) else Err(());
    }

    /** The gate's part of `set_wizard_step`: a saved step closes it, a failed save only reports it. */
    method WizardStepSaved(saved: bool) returns (generation: nat)
      modifies this`clears, gate
      ensures gate.View() == if saved then CloseGate(old(gate.View())) else old(gate.View())
      ensures generation == gate.generation
      ensures clears == old(clears) + if saved then 1 else 0
    {
      if saved {
        generation := gate.Close();
        clears := clears + 1;
      } else {
        generation := gate.generation;
      }
    }

    method RevokeSettingsProof(forceNotice: bool) returns (notice: bool)
      modifies this`clears, gate
      ensures gate.View() == if old(gate.source).Some? then CloseGate(old(gate.View())) else old(gate.View())
      ensures notice == (old(gate.source).Some? || forceNotice)
      ensures clears == old(clears) + if old(gate.source).Some? then 1 else 0
    {
      var revoked := false;
      if gate.source.Some? {
        var _ := gate.Close();
        revoked := true;
      }
      if revoked {
        clears := clears + 1;
      }
      notice := revoked || forceNotice;
    }
  }

  /** The capture engine's preview snapshot. Each method returns what it sends, if anything. */
  class PreviewEngine {
    const gate: ProofGate
    var preview: Preview

    constructor (gate: ProofGate)
      ensures this.gate == gate && preview == EMPTY
    {
      this.gate := gate;
      preview := EMPTY;
    }

    method ClearPreviews() returns (sent: Preview)
      modifies this
      ensures preview == sent == ClearAll(gate.View())
    {
      preview := Preview(gate.generation, map[]);
      sent := preview;
    }

    method ClearSourcePreview(kind: Source) returns (sent: Preview)
      modifies this
      ensures preview == sent == ClearOne(old(preview), gate.View(), kind)
    {
      preview := preview.(generation := gate.generation);
      if !kind.DesktopActivity? {
        preview := preview.(samples := preview.samples - {kind});
      }
      sent := preview;
    }

    method UpdatePreview(kind: Source, sample: Sample) returns (sent: Option<Preview>)
      modifies this
      ensures preview == UpdateOne(old(preview), gate.View(), kind, sample)
      ensures sent == if Admits(gate.View(), kind, sample) then Some(preview) else None
    {
      if gate.source != Some(kind) || gate.generation != sample.admitted {
        return None;
      }
      if kind.DesktopActivity? {
        return None;
      }
      preview := preview.(generation := gate.generation);
      preview := preview.(samples := preview.samples[kind := sample]);
      sent := Some(preview);
    }
  }
}
