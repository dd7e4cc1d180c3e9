/**
  The handoff overlay shown on the home page: what the mailbox, the saved progress and the
  saved pairing say about a handoff from the journal. A handoff whose journal has been
  opened is finished and must not offer itself again.
*/
module HandoffOverlay {
  import opened Prelude

  type Binding = string

  /** Links a handoff to the pairing it produced. */
  datatype Activation = Activation(handoff: string, binding: Binding)

  /** The saved pairing: the credential's binding, a pending retirement, the activation and
      the durable record that the setup journal was opened. */
  datatype Paired = Paired(
    credential: Option<Binding>,
    retiring: bool,
    activation: Option<Activation>,
    journalOpened: bool)

  /** The saved pairing is the live pairing `b`, produced by a handoff, and not being retired. */
  predicate BoundTo(p: Paired, b: Binding) {
    p.credential == Some(b) && p.activation.Some? && p.activation.value.binding == b && !p.retiring
  }

  datatype Progress = Progress(handoff: string, acceptedMs: nat, expiresMs: nat)

  const UNPAIRED_DRAFT_MAX_AGE_MS: nat := 900 * 1000

  predicate Expired(p: Progress, nowMs: nat) {
    nowMs >= p.expiresMs || (if nowMs >= p.acceptedMs then nowMs - p.acceptedMs else 0) >= UNPAIRED_DRAFT_MAX_AGE_MS
  }

  datatype Mailbox = Absent | Accepted | Replay | Deferred | Rejected | Busy | Failed

  datatype Overlay = Overlay(
    id: Option<string>,
    revision: Option<nat>,
    expired: bool,
    newConnection: bool,
    deferred: bool,
    busy: bool,
    rejected: bool,
    nativeRejected: bool,
    persistFailed: bool,
    deferredLink: bool)

  const BLANK := Overlay(None, None, false, false, false, false, false, false, false, false)

  /** What one refresh read. An unreadable file is `Err`. */
  datatype Facts = Facts(
    mailbox: Mailbox,
    progress: Result<Option<Progress>, ()>,
    paired: Result<Paired, ()>,
    deferredLink: bool,
    deferredRejected: bool,
    nowMs: nat)

  predicate Readable(f: Facts) { f.progress.Ok? && f.progress.value.Some? }

  /** The pairing on disk came from this handoff and its journal was opened. */
  predicate Finished(p: Paired, handoff: string) {
    !p.retiring && p.journalOpened && p.activation.Some? && p.activation.value.handoff == handoff
    && p.credential == Some(p.activation.value.binding)
  }

  /** The overlay a refresh must show, said without the code's order of assignments. */
  function Shown(f: Facts): Overlay {
    var handoff := if Readable(f) then Some(f.progress.value.value) else None;
    var live := handoff.Some? && !(f.paired.Ok? && Finished(f.paired.value, handoff.value.handoff));
    var saved := handoff.Some? && f.paired.Ok? && !f.paired.value.retiring;
    var bound := saved && f.paired.value.activation.Some?
                 && f.paired.value.credential == Some(f.paired.value.activation.value.binding);
    Overlay(
      if live then Some(handoff.value.handoff) else None,
      if live then Some(handoff.value.acceptedMs) else None,
      live && Expired(handoff.value, f.nowMs),
      saved && (f.paired.value.activation.None?
                || (bound && f.paired.value.activation.value.handoff != handoff.value.handoff)),
      f.mailbox.Deferred?,
      f.mailbox.Busy?,
      f.deferredRejected,
      f.mailbox.Rejected?,
      || f.progress.Err?
      || f.mailbox.Failed?
      || (handoff.Some? && f.paired.Err?)
      || (saved && f.paired.value.activation.Some? && !bound),
      f.deferredLink)
  }

  /** Field by field, what a refresh shows. A handoff is offered exactly when its progress can be
      read and it is not finished: finished means that the pairing can be read, is not being
      retired, had its journal opened, and came from this very handoff with the credential it
      holds. Revision and expiry go with the id; each mailbox flag is set for its own outcome. */
  lemma ShownMeans(f: Facts)
    ensures
      var o := Shown(f);
      && (o.id == None <==>
            || f.progress.Err? || f.progress.value.None?
            || (&& f.paired.Ok? && !f.paired.value.retiring && f.paired.value.journalOpened
                && f.paired.value.activation.Some?
                && f.paired.value.activation.value.handoff == f.progress.value.value.handoff
                && f.paired.value.credential == Some(f.paired.value.activation.value.binding)))
      && (o.id.None? ==> o.revision.None? && !o.expired)
      && (o.id.Some? ==>
            var g := f.progress.value.value;
            && o.id == Some(g.handoff) && o.revision == Some(g.acceptedMs)
            && (o.expired <==> f.nowMs >= g.expiresMs || f.nowMs - g.acceptedMs >= 900_000))
    ensures
      var o := Shown(f);
      && (o.deferred <==> f.mailbox == Deferred) && (o.busy <==> f.mailbox == Busy)
      && (o.nativeRejected <==> f.mailbox == Rejected)
      && o.rejected == f.deferredRejected && o.deferredLink == f.deferredLink
    ensures
      var o := Shown(f);
      && (o.newConnection <==>
            && f.progress.Ok? && f.progress.value.Some? && f.paired.Ok? && !f.paired.value.retiring
            && (f.paired.value.activation.Some? ==>
                  && f.paired.value.credential == Some(f.paired.value.activation.value.binding)
                  && f.paired.value.activation.value.handoff != f.progress.value.value.handoff))
      && (o.persistFailed <==>
            || f.progress.Err? || f.mailbox == Failed
            || (f.progress.value.Some?
                && (f.paired.Err?
                    || (!f.paired.value.retiring && f.paired.value.activation.Some?
                        && f.paired.value.credential != Some(f.paired.value.activation.value.binding)))))
  {
  }

  /** A completed handoff never hides a distinct one. */
  lemma CompletedNeverHidesAnother(f: Facts)
    requires f.progress.Ok? && f.progress.value.Some? && f.paired.Ok? && f.paired.value.activation.Some?
    requires f.paired.value.activation.value.handoff != f.progress.value.value.handoff
    ensures Shown(f).id == Some(f.progress.value.value.handoff)
    ensures !f.paired.value.retiring && f.paired.value.credential == Some(f.paired.value.activation.value.binding) ==>
              Shown(f).newConnection
  {
  }

  /** What a refresh shows for a finished handoff, whether or not the pairing file can be read:
      it is retired exactly when the file could be read. Otherwise it is offered again, with a
      failed save reported, whatever the mailbox says. */
  lemma RetiredExactlyWhenReadable(f: Facts, onDisk: Paired)
    requires Readable(f) && Finished(onDisk, f.progress.value.value.handoff)
    requires f.paired == Ok(onDisk) || f.paired.Err?
    ensures Shown(f).id == None <==> f.paired.Ok?
    ensures f.paired.Ok? ==> Shown(f).revision == None && !Shown(f).expired && !Shown(f).newConnection
    ensures f.paired.Err? ==> Shown(f).id == Some(f.progress.value.value.handoff) && Shown(f).persistFailed
  {
  }

  /** A finished handoff that an unreadable pairing file brings back. */
  lemma UnreadablePairingOffersAgain(mailbox: Mailbox, b: Binding)
    ensures
      var onDisk := Paired(Some(b), false, Some(Activation("h", b)), true);
      var f := Facts(mailbox, Ok(Some(Progress("h", 0, 0))), Err(()), false, false, 0);
      Finished(onDisk, "h") && Shown(f).id == Some("h") && Shown(f.(paired := Ok(onDisk))).id == None
  {
  }

  method FillAcceptedProgress(overlay: Overlay, progress: Progress, nowMs: nat) returns (filled: Overlay)
    ensures filled == overlay.(id := Some(progress.handoff), revision := Some(progress.acceptedMs),
                               expired := Expired(progress, nowMs))
  {
    filled := overlay.(id := Some(progress.handoff));
    filled := filled.(revision := Some(progress.acceptedMs));
    filled := filled.(expired := Expired(progress, nowMs));
  }

  /** `update_handoff_overlay_enabled`, after the mailbox has been processed. */
  method UpdateHandoffOverlay(f: Facts) returns (overlay: Overlay)
    ensures overlay == Shown(f)
    ensures overlay.id == None <==>
              || f.progress.Err? || f.progress.value.None?
              || (&& f.paired.Ok? && !f.paired.value.retiring && f.paired.value.journalOpened
                  && f.paired.value.activation.Some?
                  && f.paired.value.activation.value.handoff == f.progress.value.value.handoff
                  && f.paired.value.credential == Some(f.paired.value.activation.value.binding))
  {
    ShownMeans(f);
    overlay := BLANK.(deferredLink := f.deferredLink, rejected := f.deferredRejected,
                      persistFailed := f.progress.Err?);
    var readable := if f.progress.Ok? then f.progress.value else None;
    match f.mailbox {
      case Failed => overlay := overlay.(persistFailed := true);
      case Busy => overlay := overlay.(busy := true);
      case Rejected => overlay := overlay.(nativeRejected := true);
      case Deferred => overlay := overlay.(deferred := true);
      case Accepted =>
      case Replay =>
      case Absent =>
    }
    // Every outcome fills in the saved progress when it can be read.
    if readable.Some? {
      overlay := FillAcceptedProgress(overlay, readable.value, f.nowMs);
      match f.paired {
        case Err(_) => overlay := overlay.(persistFailed := true);
        case Ok(paired) =>
          if !paired.retiring {
            match paired.activation {
              case None => overlay := overlay.(newConnection := true);
              case Some(activation) =>
                if paired.credential == Some(activation.binding) {
                  overlay := overlay.(newConnection := activation.handoff != readable.value.handoff);
                  if !overlay.newConnection && paired.journalOpened {
                    overlay := overlay.(id := None, revision := None, expired := false);
                  }
                } else {
                  overlay := overlay.(persistFailed := true);
                }
            }
          }
      }
    }
  }
}
