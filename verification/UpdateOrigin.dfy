/**
  Where updates come from: nothing is downloaded or staged that a feed check of this process did
  not find, and an app without an update manager never does anything.
*/
module UpdateOrigin {
  import opened Prelude
  import opened PackageCache
  import opened UpdateFlight
  import opened UpdateSafety

  // ----- only what a check found ------------------------------------------------------

  /** The thread is downloading `x`. */
  predicate Loads(pc: Pc, x: Asset) {
    pc == Load(BeginLoad(x)) || pc == Load(Stage(x)) || pc == Load(NoteStaged(Ok(x)))
  }

  predicate Tells(m: Mark, x: Asset) { (m.Admitted? && m.asset == x) || (m.Noted? && m.staged == Some(x)) }

  /** The updater knows of `x`: it is on offer, being downloaded, or was staged by some thread. */
  ghost predicate Knows(u: Updater, x: Asset) {
    || u.available == Some(x)
    || (exists t :: t in u.threads && Loads(u.threads[t], x))
    || (exists i :: 0 <= i < |u.trace| && Tells(u.trace[i], x))
  }

  /** Thread `t` asks the feed in this step and is told of `x`. */
  predicate Asks(u: Updater, e: Event, x: Asset) {
    e.Move? && e.thread in u.threads && u.threads[e.thread] == Check(AskFeed) && e.answer.found == Available(x)
  }

  /** One thread moves from `pc`; the rest is as it was, but for one mark. */
  ghost predicate Moved(u: Updater, v: Updater, t: nat) {
    && t in v.threads
    && (forall s :: s in v.threads && s != t ==> s in u.threads && v.threads[s] == u.threads[s])
    && (v.trace == u.trace || (|v.trace| == |u.trace| + 1 && v.trace[..|u.trace|] == u.trace))
  }

  /** What one move can newly know must be in the thread's own step. */
  lemma MovedKnows(u: Updater, v: Updater, t: nat, x: Asset)
    requires Moved(u, v, t) && Knows(v, x) && !Knows(u, x)
    ensures v.available == Some(x) || Loads(v.threads[t], x)
            || (|v.trace| == |u.trace| + 1 && Tells(v.trace[|u.trace|], x))
  {
    if i :| 0 <= i < |v.trace| && Tells(v.trace[i], x) {
      if i < |u.trace| { assert u.trace[i] == v.trace[..|u.trace|][i]; }
    }
  }

  lemma CheckKnows(u: Updater, t: nat, c: CheckPc, a: Answer, x: Asset)
    ensures
      var v := AdvanceCheck(u, t, c, a);
      && Moved(u, v, t)
      && !Loads(v.threads[t], x) && (|v.trace| > |u.trace| ==> !Tells(v.trace[|u.trace|], x))
      && (v.available == Some(x) ==> u.available == Some(x) || (c == AskFeed && a.found == Available(x)))
  {
  }

  /** A downloading thread tells only of what is on offer or what it is downloading. */
  ghost predicate Passes(u: Updater, v: Updater, t: nat, l: LoadPc, x: Asset) {
    && Moved(u, v, t) && v.available == u.available
    && (Loads(v.threads[t], x) || (|v.trace| > |u.trace| && Tells(v.trace[|u.trace|], x)) ==>
          u.available == Some(x) || Loads(Load(l), x))
  }

  lemma StageKnows(u: Updater, t: nat, asset: Asset, a: Answer, x: Asset)
    ensures Passes(u, AdvanceLoad(u, t, Stage(asset), a), t, Stage(asset), x)
  {
    StagedIsSigned(u.cache, asset, a.download, a.verify);
  }

  lemma LoadKnows(u: Updater, t: nat, l: LoadPc, a: Answer, x: Asset)
    ensures Passes(u, AdvanceLoad(u, t, l, a), t, l, x)
  {
    match l
    case Stage(asset) => StageKnows(u, t, asset, a, x);
    case _ =>
  }

  /** The move tells of no asset. */
  ghost predicate Silent(u: Updater, v: Updater, t: nat, x: Asset) {
    && Moved(u, v, t) && v.available == u.available
    && !Loads(v.threads[t], x) && (|v.trace| > |u.trace| ==> !Tells(v.trace[|u.trace|], x))
  }

  lemma SelectKnows(u: Updater, t: nat, a: Answer, x: Asset)
    ensures Silent(u, AdvanceInstall(u, t, Select, a), t, x)
  {
  }

  lemma HeldKnows(u: Updater, t: nat, i: InstallPc, a: Answer, x: Asset)
    requires i.CheckHeld? || i.Quiesce?
    ensures Silent(u, AdvanceInstall(u, t, i, a), t, x)
  {
  }

  lemma SpawnKnows(u: Updater, t: nat, p: Package, a: Answer, x: Asset)
    ensures Silent(u, AdvanceInstall(u, t, Spawn(p), a), t, x)
  {
  }

  lemma InstallKnows(u: Updater, t: nat, i: InstallPc, a: Answer, x: Asset)
    ensures Silent(u, AdvanceInstall(u, t, i, a), t, x)
  {
    match i
    case Select => SelectKnows(u, t, a, x);
    case CheckHeld(_) => HeldKnows(u, t, i, a, x);
    case Quiesce(_) => HeldKnows(u, t, i, a, x);
    case Spawn(p) => SpawnKnows(u, t, p, a, x);
    case _ =>
  }

  lemma AdvanceKnows(u: Updater, t: nat, a: Answer, x: Asset)
    requires t in u.threads && Knows(Advance(u, t, a), x) && !Knows(u, x)
    ensures u.threads[t] == Check(AskFeed) && a.found == Available(x)
  {
    var v := Advance(u, t, a);
    match u.threads[t]
    case Check(c) => CheckKnows(u, t, c, a, x); MovedKnows(u, v, t, x);
    case Load(l) => LoadKnows(u, t, l, a, x); MovedKnows(u, v, t, x);
    case Install(i) => InstallKnows(u, t, i, a, x); MovedKnows(u, v, t, x);
    case Dismiss => MovedKnows(u, v, t, x);
    case Finished =>
  }

  lemma StepKnows(u: Updater, e: Event, x: Asset)
    requires Knows(Step(u, e), x) && !Knows(u, x)
    ensures Asks(u, e, x)
  {
    if e.Move? && e.thread in u.threads && !u.exited {
      AdvanceKnows(u, e.thread, e.answer, x);
    } else {
      CallKnows(u, e, x);
    }
  }

  /** A new call, and a change of the cache, tell of nothing. */
  lemma CallKnows(u: Updater, e: Event, x: Asset)
    requires !e.Move? || e.thread !in u.threads || u.exited
    ensures Knows(Step(u, e), x) ==> Knows(u, x)
  {
    var v := Step(u, e);
    assert v.trace == u.trace && v.available == u.available;
    if t :| t in v.threads && Loads(v.threads[t], x) {
      assert t in u.threads && u.threads[t] == v.threads[t];
    }
  }

  /** Whatever the updater ever offers, downloads, admits or notes as staged was found by a feed
      check of an earlier step of the same run. */
  lemma {:induction false} KnownWasFound(start: Start, events: seq<Event>, x: Asset) returns (k: nat)
    requires Knows(Run(start, events), x)
    ensures k < |events| && Asks(Run(start, events[..k]), events[k], x)
  {
    if events == [] {
    } else {
      var n := |events| - 1;
      if Knows(Run(start, events[..n]), x) {
        k := KnownWasFound(start, events[..n], x);
        assert events[..n][..k] == events[..k];
      } else {
        k := n;
        StepKnows(Run(start, events[..n]), events[n], x);
      }
    }
  }

  // ----- what is on offer -------------------------------------------------------------

  lemma CheckOffers(u: Updater, t: nat, c: CheckPc, a: Answer)
    ensures AdvanceCheck(u, t, c, a).available ==
              if c == AskFeed && a.found.Available? then Some(a.found.asset)
              else if c == AskFeed && a.found == UpToDate then None
              else u.available
  {
  }

  /** What is on offer changes only so: a check that is told of an update offers it, one that is
      told there is none withdraws the offer, a failed one leaves it, and a dismissal withdraws
      it. */
  lemma OfferChangesExactly(u: Updater, e: Event)
    ensures
      var v := Step(u, e);
      var pc := if e.Move? && e.thread in u.threads && !u.exited then u.threads[e.thread] else Finished;
      v.available ==
        if pc == Check(AskFeed) && e.answer.found.Available? then Some(e.answer.found.asset)
        else if pc == Check(AskFeed) && e.answer.found == UpToDate then None
        else if pc == Dismiss then None
        else u.available
  {
    if e.Move? && e.thread in u.threads && !u.exited {
      match u.threads[e.thread]
      case Check(c) => CheckOffers(u, e.thread, c, e.answer);
      case _ =>
    }
  }

  /** A check goes on to download exactly when it found an update and the owner wants that. */
  lemma CheckGoesOn(u: Updater, t: nat, found: Found, a: Answer)
    requires !u.exited && t in u.threads && u.threads[t] == Check(MayLoad(found))
    ensures Step(u, Move(t, a)) == u.(threads := u.threads[t := if found.Available? && a.auto then Load(ReadAvailable) else Finished])
  {
  }

  /** Once an offer is withdrawn, nothing is offered until a check is told of an update; a download
      call that looks meanwhile does nothing. */
  lemma {:induction false} WithdrawnStaysWithdrawn(start: Start, events: seq<Event>, n: nat)
    requires n <= |events| && Run(start, events[..n]).available.None?
    requires forall k, x :: n <= k < |events| ==> !Asks(Run(start, events[..k]), events[k], x)
    ensures Run(start, events).available.None?
    ensures
      forall t, a :: t in Run(start, events).threads && Run(start, events).threads[t] == Load(ReadAvailable) && !Run(start, events).exited ==>
        Step(Run(start, events), Move(t, a)) == Go(Run(start, events), t, Finished)
  {
    if n == |events| {
      assert events[..n] == events;
    } else {
      var before := events[..|events| - 1];
      assert before[..n] == events[..n];
      forall k, x | n <= k < |before| ensures !Asks(Run(start, before[..k]), before[k], x) {
        assert before[..k] == events[..k];
        assert !Asks(Run(start, events[..k]), events[k], x);
      }
      WithdrawnStaysWithdrawn(start, before, n);
      var e := events[|events| - 1];
      OfferChangesExactly(Run(start, before), e);
      if e.Move? && e.answer.found.Available? { assert !Asks(Run(start, events[..|events| - 1]), e, e.answer.found.asset); }
    }
  }

  // ----- without a manager ------------------------------------------------------------

  /** The few places a thread can be when there is no manager. */
  predicate Stuck(pc: Pc) {
    pc in {Check(ReadStaged), Load(ReadAvailable), Install(BeginInstall), Install(Select), Install(EndInstall), Dismiss, Finished}
  }

  ghost predicate Idles(start: Start, u: Updater) {
    && !u.managed && u.staged == start.staged && u.available.None? && !u.exited
    && (forall t :: t in u.threads ==> Stuck(u.threads[t]))
    && (forall i :: 0 <= i < |u.trace| ==> u.trace[i].Acquired? || u.trace[i].Released?)
  }

  lemma IdleAdvance(start: Start, u: Updater, t: nat, a: Answer)
    requires Idles(start, u) && t in u.threads
    ensures Idles(start, Advance(u, t, a)) && Advance(u, t, a).cache == u.cache
  {
    assert Stuck(u.threads[t]);
  }

  /** An app that is not installed has no manager: however many calls and ticks there are, nothing
      is checked for, downloaded, staged or started, and the cache is left alone. */
  lemma {:induction false} UnmanagedDoesNothing(start: Start, events: seq<Event>)
    requires !start.managed
    ensures Idles(start, Run(start, events))
    ensures (forall e :: e in events ==> !e.CacheChanged?) ==> Run(start, events).cache == start.cache
  {
    if events == [] {
    } else {
      var before, e := events[..|events| - 1], events[|events| - 1];
      UnmanagedDoesNothing(start, before);
      assert forall x :: x in before ==> x in events;
      assert e in events;
      var u := Run(start, before);
      if e.Move? && e.thread in u.threads { IdleAdvance(start, u, e.thread, e.answer); }
    }
  }
}
