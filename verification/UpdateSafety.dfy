/**
  What every interleaving of the updater's threads keeps, read off the history: one operation
  at a time, matched brackets, and no staged asset or helper start without its evidence.
*/
module UpdateSafety {
  import opened Prelude
  import opened PackageCache
  import opened UpdateFlight
  import Apply = ApplyUpdate

  // ----- reading the history ----------------------------------------------------------

  /** The history is legal at every earlier point too. */
  lemma {:induction false} LegalPrefix(trace: seq<Mark>, i: nat)
    requires !TokenOf(trace).Broken? && i <= |trace|
    ensures !TokenOf(trace[..i]).Broken?
    ensures i < |trace| ==> TokenOf(trace[..i + 1]) == Next(TokenOf(trace[..i]), trace[i])
  {
    if i == |trace| {
      assert trace[..i] == trace;
    } else {
      if i + 1 < |trace| { LegalPrefix(trace[..|trace| - 1], i); assert trace[..|trace| - 1][..i] == trace[..i]; }
      var next := trace[..i + 1];
      assert next[..|next| - 1] == trace[..i];
      assert i + 1 < |trace| ==> trace[..|trace| - 1][..i + 1] == next;
      assert i + 1 == |trace| ==> next == trace;
    }
  }

  /** `s` is where the current holder took the token; nobody else appears since. */
  ghost predicate Bracket(trace: seq<Mark>, s: nat, t: nat) {
    && s < |trace| && trace[s] == Acquired(t)
    && forall j :: s < j < |trace| ==>
         trace[j].thread == t && !trace[j].Acquired? && !trace[j].Released? && !trace[j].Started?
  }

  ghost predicate Since(trace: seq<Mark>, s: nat, m: Mark) {
    exists j :: s < j < |trace| && trace[j] == m
  }

  /** The holder chose `p` and later passed the check with it. */
  ghost predicate ChosenThenChecked(trace: seq<Mark>, s: nat, t: nat, p: Package) {
    exists i, j :: s < i < j < |trace| && trace[i] == Selected(t, p) && trace[j] == Checked(t, p)
  }

  /** The token's state is what the holder did since it took the token. */
  ghost predicate HolderDid(trace: seq<Mark>, s: nat, k: Token)
    requires k.HeldBy?
  {
    && Bracket(trace, s, k.thread)
    && (k.admitted.Some? ==> Since(trace, s, Admitted(k.thread, k.admitted.value)))
    && (k.chosen.Some? ==> Since(trace, s, Selected(k.thread, k.chosen.value)))
    && (k.checked ==> k.chosen.Some? && ChosenThenChecked(trace, s, k.thread, k.chosen.value))
    && (k.quiesced ==> k.checked)
  }

  lemma SinceLonger(trace: seq<Mark>, m: Mark, s: nat, x: Mark)
    requires s < |trace|
    ensures Since(trace + [m], s, x) <==> Since(trace, s, x) || x == m
  {
    if Since(trace, s, x) {
      var j :| s < j < |trace| && trace[j] == x;
      assert (trace + [m])[j] == x;
    }
    if x == m { assert (trace + [m])[|trace|] == x; }
    if Since(trace + [m], s, x) {
      var j :| s < j < |trace| + 1 && (trace + [m])[j] == x;
    }
  }

  lemma CheckedLonger(trace: seq<Mark>, m: Mark, s: nat, t: nat, p: Package)
    ensures ChosenThenChecked(trace, s, t, p) ==> ChosenThenChecked(trace + [m], s, t, p)
    ensures Since(trace, s, Selected(t, p)) && m == Checked(t, p) ==> ChosenThenChecked(trace + [m], s, t, p)
  {
    var longer := trace + [m];
    if ChosenThenChecked(trace, s, t, p) {
      var i, j :| s < i < j < |trace| && trace[i] == Selected(t, p) && trace[j] == Checked(t, p);
      assert longer[i] == trace[i] && longer[j] == trace[j];
    }
    if Since(trace, s, Selected(t, p)) && m == Checked(t, p) {
      var i :| s < i < |trace| && trace[i] == Selected(t, p);
      assert longer[i] == trace[i] && longer[|trace|] == m;
    }
  }

  lemma HolderExtends(trace: seq<Mark>, m: Mark, s: nat, k: Token)
    requires k.HeldBy? && HolderDid(trace, s, k) && m.thread == k.thread && NextHeld(k, m).HeldBy?
    ensures HolderDid(trace + [m], s, NextHeld(k, m))
  {
    var n := NextHeld(k, m);
    assert forall j :: 0 <= j < |trace| ==> (trace + [m])[j] == trace[j];
    if n.admitted.Some? { SinceLonger(trace, m, s, Admitted(n.thread, n.admitted.value)); }
    if n.chosen.Some? {
      SinceLonger(trace, m, s, Selected(n.thread, n.chosen.value));
      CheckedLonger(trace, m, s, n.thread, n.chosen.value);
    }
  }

  lemma {:induction false} HolderHistory(trace: seq<Mark>) returns (s: nat)
    requires TokenOf(trace).HeldBy?
    ensures HolderDid(trace, s, TokenOf(trace))
  {
    var before := trace[..|trace| - 1];
    var m := trace[|trace| - 1];
    assert trace == before + [m];
    if m.Acquired? {
      s := |trace| - 1;
    } else {
      s := HolderHistory(before);
      HolderExtends(before, m, s, TokenOf(before));
    }
  }

  /** Whoever leaves a mark other than a take holds the token, and the mark is legal then. */
  lemma HolderBefore(trace: seq<Mark>, i: nat) returns (s: nat)
    requires !TokenOf(trace).Broken? && i < |trace| && !trace[i].Acquired?
    ensures
      var k := TokenOf(trace[..i]);
      k.HeldBy? && k.thread == trace[i].thread && !NextHeld(k, trace[i]).Broken? && HolderDid(trace[..i], s, k)
  {
    LegalPrefix(trace, i);
    LegalPrefix(trace, i + 1);
    s := HolderHistory(trace[..i]);
  }

  lemma StartedIsLast(trace: seq<Mark>, i: nat)
    requires !TokenOf(trace).Broken? && i < |trace| && trace[i].Started?
    ensures i == |trace| - 1
  {
    LegalPrefix(trace, i);
    LegalPrefix(trace, i + 1);
    if i + 1 < |trace| {
      LegalPrefix(trace, i + 2);
    }
  }

  // ----- main results -----------------------------------------------------------------

  /** The token is taken exactly while one thread is between taking and releasing it, and
      never by two. After a started install the process is gone with the token. */
  lemma SingleFlight(start: Start, events: seq<Event>)
    ensures
      var u := Run(start, events);
      !u.exited ==>
        && (u.busy <==> exists t :: t in u.threads && Holding(u.threads[t]))
        && (forall t, t' :: t in u.threads && t' in u.threads && Holding(u.threads[t]) && Holding(u.threads[t']) ==> t == t')
    ensures Run(start, events).exited ==> Run(start, events).busy
  {
    RunKeepsInv(start, events);
  }

  /** Every staged asset ever noted was admitted by the same operation, under the same hold of
      the token, with no other thread in between; and only a holder ever writes the field. */
  lemma StagedWasAdmitted(start: Start, events: seq<Event>, i: nat) returns (s: nat)
    requires i < |Run(start, events).trace| && Run(start, events).trace[i].Noted?
    ensures
      var trace := Run(start, events).trace;
      var m := trace[i];
      && Bracket(trace[..i], s, m.thread)
      && (m.staged.Some? ==> Since(trace[..i], s, Admitted(m.thread, m.staged.value)))
  {
    RunKeepsInv(start, events);
    s := HolderBefore(Run(start, events).trace, i);
  }

  /** The staged asset as the history tells it. */
  function LastNoted(initial: Option<Asset>, trace: seq<Mark>): Option<Asset> {
    if trace == [] then initial
    else
      var m := trace[|trace| - 1];
      if m.Noted? then m.staged else LastNoted(initial, trace[..|trace| - 1])
  }

  /** A step leaves at most one mark, and the field follows it. */
  ghost predicate Follows(u: Updater, v: Updater) {
    || (v.trace == u.trace && v.staged == u.staged)
    || (exists m :: v.trace == u.trace + [m] && v.staged == if m.Noted? then m.staged else u.staged)
  }

  lemma CheckFollows(u: Updater, t: nat, c: CheckPc, a: Answer)
    ensures Follows(u, AdvanceCheck(u, t, c, a))
  {
  }

  lemma LoadFollows(u: Updater, t: nat, l: LoadPc, a: Answer)
    ensures Follows(u, AdvanceLoad(u, t, l, a))
  {
  }

  lemma InstallFollows(u: Updater, t: nat, i: InstallPc, a: Answer)
    ensures Follows(u, AdvanceInstall(u, t, i, a))
  {
  }

  lemma StepFollows(u: Updater, e: Event)
    ensures Follows(u, Step(u, e))
  {
    if e.Move? && e.thread in u.threads {
      match u.threads[e.thread]
      case Check(c) => CheckFollows(u, e.thread, c, e.answer);
      case Load(l) => LoadFollows(u, e.thread, l, e.answer);
      case Install(i) => InstallFollows(u, e.thread, i, e.answer);
      case _ =>
    }
  }

  lemma FollowsLastNoted(initial: Option<Asset>, u: Updater, v: Updater)
    requires u.staged == LastNoted(initial, u.trace) && Follows(u, v)
    ensures v.staged == LastNoted(initial, v.trace)
  {
    if v.trace != u.trace {
      var m :| v.trace == u.trace + [m] && v.staged == if m.Noted? then m.staged else u.staged;
      assert v.trace[..|v.trace| - 1] == u.trace;
    }
  }

  /** The field changes only where the history notes it: it is the construction-time scan's
      result until a holder writes it, and then the last value a holder wrote. */
  lemma {:induction false} StagedIsLastNoted(start: Start, events: seq<Event>)
    ensures Run(start, events).staged == LastNoted(start.staged, Run(start, events).trace)
  {
    if events == [] {
    } else {
      StagedIsLastNoted(start, events[..|events| - 1]);
      var before := Run(start, events[..|events| - 1]);
      StepFollows(before, events[|events| - 1]);
      FollowsLastNoted(start.staged, before, Step(before, events[|events| - 1]));
    }
  }

  /** The helper starts only as the last thing that happens, by the holder of the token, for
      the package it chose and checked under the same hold. */
  lemma StartedWasChecked(start: Start, events: seq<Event>, i: nat) returns (s: nat)
    requires i < |Run(start, events).trace| && Run(start, events).trace[i].Started?
    ensures
      var trace := Run(start, events).trace;
      && i == |trace| - 1
      && Bracket(trace[..i], s, trace[i].thread)
      && ChosenThenChecked(trace[..i], s, trace[i].thread, trace[i].package)
  {
    RunKeepsInv(start, events);
    StartedIsLast(Run(start, events).trace, i);
    s := HolderBefore(Run(start, events).trace, i);
  }

  // ----- marks are earned -------------------------------------------------------------

  /** The file held for `p` is the regular file now found under its name. */
  predicate FileAt(d: Dir, p: Package) {
    p.fileName in d && d[p.fileName].kind.Regular? && d[p.fileName].file == p.file
  }

  /** What must be true of the cache at the step that leaves a mark, in the directory's own terms. */
  ghost predicate Earned(m: Mark, before: Updater, after: Updater, a: Answer) {
    match m
    case Admitted(_, asset) => Signed(after.cache, asset.fileName, asset.version, a.verify)
    case Selected(_, p) =>
      && FileAt(before.cache, p) && before.cache[p.fileName].kind.nuspecVersion.Some?
      && Signed(before.cache, p.fileName, before.cache[p.fileName].kind.nuspecVersion.value, a.verify)
    case Checked(_, p) => p.path == before.dir + "/" + p.fileName && FileAt(before.cache, p)
    case Started(_, p) => FileAt(before.cache, p) && after.exited
    case _ => true
  }

  /** A step leaves at most one mark, of the thread that moved, and an earned one. */
  ghost predicate Leaves(u: Updater, t: nat, a: Answer, v: Updater) {
    && v.dir == u.dir
    && (v.trace != u.trace ==>
          && |v.trace| == |u.trace| + 1 && u.trace <= v.trace
          && v.trace[|u.trace|].thread == t && Earned(v.trace[|u.trace|], u, v, a))
  }

  lemma CheckLeaves(u: Updater, t: nat, c: CheckPc, a: Answer)
    ensures Leaves(u, t, a, AdvanceCheck(u, t, c, a))
  {
  }

  lemma LoadLeaves(u: Updater, t: nat, l: LoadPc, a: Answer)
    ensures Leaves(u, t, a, AdvanceLoad(u, t, l, a))
  {
    if l.Stage? { StagedIsSigned(u.cache, l.asset, a.download, a.verify); }
  }

  lemma SelectableIsSigned(d: Dir, p: Package, verify: Verifier)
    requires Selectable(d, p, verify)
    ensures FileAt(d, p) && d[p.fileName].kind.nuspecVersion.Some?
    ensures Signed(d, p.fileName, d[p.fileName].kind.nuspecVersion.value, verify)
  {
    AdmittedIsSigned(d, p.fileName, AdmitCached(d, p.fileName, verify).value, verify);
  }

  lemma SelectLeaves(u: Updater, t: nat, a: Answer)
    ensures Leaves(u, t, a, AdvanceInstall(u, t, Select, a))
  {
    if a.pick.Some? && Selectable(u.cache, a.pick.value, a.verify) { SelectableIsSigned(u.cache, a.pick.value, a.verify); }
  }

  lemma ApplyLeaves(u: Updater, t: nat, i: InstallPc, a: Answer)
    requires i.CheckHeld? || i.Quiesce? || i.Spawn?
    ensures Leaves(u, t, a, AdvanceInstall(u, t, i, a))
  {
  }

  lemma InstallLeaves(u: Updater, t: nat, i: InstallPc, a: Answer)
    ensures Leaves(u, t, a, AdvanceInstall(u, t, i, a))
  {
    match i
    case Select => SelectLeaves(u, t, a);
    case CheckHeld(_) => ApplyLeaves(u, t, i, a);
    case Quiesce(_) => ApplyLeaves(u, t, i, a);
    case Spawn(_) => ApplyLeaves(u, t, i, a);
    case _ =>
  }

  lemma AdvanceLeaves(u: Updater, t: nat, a: Answer)
    requires t in u.threads
    ensures Leaves(u, t, a, Advance(u, t, a))
  {
    match u.threads[t]
    case Check(c) => CheckLeaves(u, t, c, a);
    case Load(l) => LoadLeaves(u, t, l, a);
    case Install(i) => InstallLeaves(u, t, i, a);
    case _ =>
  }

  lemma StepLeaves(u: Updater, e: Event)
    ensures Step(u, e).trace != u.trace ==> e.Move? && Leaves(u, e.thread, e.answer, Step(u, e))
    ensures Step(u, e).dir == u.dir
  {
    if e.Move? && e.thread in u.threads { AdvanceLeaves(u, e.thread, e.answer); }
  }

  /** Event `k` of the run is the step that left mark `i`, and the mark was earned there. */
  ghost predicate LeftBy(start: Start, events: seq<Event>, i: nat, k: nat) {
    && k < |events| && events[k].Move?
    && var before, after := Run(start, events[..k]), Run(start, events[..k + 1]);
       && |before.trace| == i && |after.trace| == i + 1
       && after.trace[i].thread == events[k].thread
       && Earned(after.trace[i], before, after, events[k].answer)
  }

  /** The history only grows. */
  lemma {:induction false} TraceGrows(start: Start, events: seq<Event>, k: nat)
    requires k <= |events|
    ensures Run(start, events[..k]).trace <= Run(start, events).trace
  {
    if k == |events| {
      assert events[..k] == events;
    } else {
      var before := events[..|events| - 1];
      TraceGrows(start, before, k);
      assert before[..k] == events[..k];
      StepLeaves(Run(start, before), events[|events| - 1]);
    }
  }

  lemma LeftByLonger(start: Start, events: seq<Event>, i: nat, k: nat)
    requires events != [] && LeftBy(start, events[..|events| - 1], i, k)
    ensures LeftBy(start, events, i, k)
  {
    var before := events[..|events| - 1];
    assert before[..k] == events[..k] && before[..k + 1] == events[..k + 1];
  }

  /** A mark that the last step added was left by it. */
  lemma LastStepLeft(start: Start, events: seq<Event>, i: nat)
    requires events != [] && |Run(start, events[..|events| - 1]).trace| <= i < |Run(start, events).trace|
    ensures LeftBy(start, events, i, |events| - 1)
  {
    var n := |events| - 1;
    StepLeaves(Run(start, events[..n]), events[n]);
    assert events[..n + 1] == events;
  }

  /** Over every run, with the cache changing anywhere in between, every mark in the history was
      left by one step of its thread and was earned on the cache as it stood at that step. */
  lemma MarksAreEarned(start: Start, events: seq<Event>, i: nat) returns (k: nat)
    requires i < |Run(start, events).trace|
    ensures LeftBy(start, events, i, k) && Run(start, events[..k + 1]).trace[i] == Run(start, events).trace[i]
  {
    k := WhoLeft(start, events, i);
    TraceGrows(start, events, k + 1);
  }

  lemma {:induction false} WhoLeft(start: Start, events: seq<Event>, i: nat) returns (k: nat)
    requires i < |Run(start, events).trace|
    ensures LeftBy(start, events, i, k)
  {
    if events == [] {
    } else {
      var n := |events| - 1;
      if i < |Run(start, events[..n]).trace| {
        k := WhoLeft(start, events[..n], i);
        LeftByLonger(start, events, i, k);
      } else {
        k := n;
        LastStepLeft(start, events, i);
      }
    }
  }

  lemma {:induction false} DirIsFixed(start: Start, events: seq<Event>)
    ensures Run(start, events).dir == start.dir
  {
    if events == [] {
    } else {
      DirIsFixed(start, events[..|events| - 1]);
      StepLeaves(Run(start, events[..|events| - 1]), events[|events| - 1]);
    }
  }

  lemma LaterMarkLaterStep(start: Start, events: seq<Event>, i: nat, j: nat, k: nat, l: nat)
    requires i < j && LeftBy(start, events, i, k) && LeftBy(start, events, j, l)
    ensures k < l
  {
    if l <= k {
      assert events[..k][..l] == events[..l];
      TraceGrows(start, events[..k], l);
    }
  }

  /** At step `k` thread `t` leaves the mark `m`, earned on the cache as it then stands. */
  ghost predicate At(start: Start, events: seq<Event>, k: nat, t: nat, m: Mark) {
    && k < |events| && events[k].Move? && events[k].thread == t == m.thread
    && var before, after := Run(start, events[..k]), Run(start, events[..k + 1]);
       after.trace == before.trace + [m] && Earned(m, before, after, events[k].answer)
  }

  /** If the process has exited, then for one thread and one package: when the package was chosen,
      the regular file under its name and its sidecar passed the signature check; later, at the
      check, the installer's own path held that very file; and later still, at the start of the
      helper, it still did - whatever happened to the cache in between. */
  lemma StartedPackageWasHeld(start: Start, events: seq<Event>) returns (t: nat, p: Package, i: nat, j: nat, k: nat)
    requires Run(start, events).exited
    ensures i < j < k < |events|
    ensures At(start, events, i, t, Selected(t, p))
    ensures At(start, events, j, t, Checked(t, p))
    ensures At(start, events, k, t, Started(t, p))
    ensures
      var chosen := Run(start, events[..i]).cache;
      && p.fileName in chosen && chosen[p.fileName].kind.Regular?
      && p.fileName + ".minisig" in chosen && chosen[p.fileName + ".minisig"].kind.Regular?
      && events[i].answer.verify(chosen[p.fileName].kind.content, chosen[p.fileName + ".minisig"].kind.content)
    ensures p.path == start.dir + "/" + p.fileName
    ensures
      var chosen, checked, started := Run(start, events[..i]).cache, Run(start, events[..j]).cache, Run(start, events[..k]).cache;
      && p.fileName in chosen && p.fileName in checked && p.fileName in started
      && checked[p.fileName].kind.Regular? && started[p.fileName].kind.Regular?
      && chosen[p.fileName].file == checked[p.fileName].file == started[p.fileName].file == p.file
  {
    var trace := Run(start, events).trace;
    RunKeepsInv(start, events);
    var last := |trace| - 1;
    assert trace[last].Started?;
    t, p := trace[last].thread, trace[last].package;
    var s := StartedWasChecked(start, events, last);
    var x, y :| s < x < y < last && trace[..last][x] == Selected(t, p) && trace[..last][y] == Checked(t, p);
    i := MarksAreEarned(start, events, x);
    j := MarksAreEarned(start, events, y);
    k := MarksAreEarned(start, events, last);
    LaterMarkLaterStep(start, events, x, y, i, j);
    LaterMarkLaterStep(start, events, y, last, j, k);
    MarkIsAt(start, events, x, i);
    MarkIsAt(start, events, y, j);
    MarkIsAt(start, events, last, k);
    DirIsFixed(start, events[..j]);
  }

  /** Every asset ever noted as staged was signed in the cache at its version, at an earlier step
      of the same thread under the same hold of the token. */
  lemma StagedWasSigned(start: Start, events: seq<Event>, i: nat, asset: Asset) returns (k: nat, l: nat)
    requires i < |Run(start, events).trace| && Run(start, events).trace[i].Noted? && Run(start, events).trace[i].staged == Some(asset)
    ensures k < l < |events| && events[k].Move? && events[l].Move?
    ensures events[k].thread == events[l].thread == Run(start, events).trace[i].thread
    ensures Signed(Run(start, events[..k + 1]).cache, asset.fileName, asset.version, events[k].answer.verify)
  {
    var trace := Run(start, events).trace;
    var s := StagedWasAdmitted(start, events, i);
    var x :| s < x < i && trace[..i][x] == Admitted(trace[i].thread, asset);
    k := MarksAreEarned(start, events, x);
    l := MarksAreEarned(start, events, i);
    LaterMarkLaterStep(start, events, x, i, k, l);
  }

  lemma MarkIsAt(start: Start, events: seq<Event>, x: nat, i: nat)
    requires LeftBy(start, events, x, i)
    ensures At(start, events, i, events[i].thread, Run(start, events[..i + 1]).trace[x])
  {
    assert events[..i + 1][..i] == events[..i];
    StepLeaves(Run(start, events[..i]), events[i]);
  }

  // ----- the install steps are the apply transaction ----------------------------------

  /** The rest of an install, uninterrupted but for the cache changing while the host stops. */
  function ApplySteps(u: Updater, t: nat, during: Dir, a: Answer): Updater {
    var checked := Step(u, Move(t, a));
    if t in checked.threads && checked.threads[t] == Install(EndInstall) then checked
    else
      var stopped := Step(Step(checked, Move(t, a)), CacheChanged(during));
      var spawned := Step(stopped, Move(t, a));
      if spawned.exited then spawned else Step(spawned, Move(t, a))
  }

  /** The marks that stand for the effects of one attempt. */
  function MarksOf(t: nat, p: Package, effects: seq<Apply.Effect>): seq<Mark> {
    if effects == [] then [] else MarksOf(t, p, effects[..|effects| - 1]) + MarksOfOne(t, p, effects[|effects| - 1])
  }

  function MarksOfOne(t: nat, p: Package, e: Apply.Effect): seq<Mark> {
    match e
    case Quiesced => [Checked(t, p), Quiesced(t)]
    case HelperStarted(_) => [Started(t, p)]
    case Resumed => [Resumed(t)]
  }

  lemma MarksOfTwo(t: nat, p: Package, e: Apply.Effect)
    ensures MarksOf(t, p, [Apply.Quiesced, e]) ==
              [Checked(t, p), Quiesced(t)] + MarksOfOne(t, p, e)
  {
    var effects := [Apply.Quiesced, e];
    assert effects[..1] == [Apply.Quiesced] && effects[..1][..0] == [];
    assert MarksOf(t, p, [Apply.Quiesced]) == [Checked(t, p), Quiesced(t)];
  }

  /** An install's steps from the held-file check on have exactly the effects of
      `spawn_admitted`, end the process exactly when it succeeds, and leave the same cache. */
  lemma InstallIsSpawnAdmitted(u: Updater, t: nat, p: Package, during: Dir, a: Answer)
    requires !u.exited && t in u.threads && u.threads[t] == Install(CheckHeld(p))
    ensures
      var v := ApplySteps(u, t, during, a);
      && v.trace == u.trace + MarksOf(t, p, Apply.EffectsOf(u.dir, u.cache, during, p, a.spawns))
      && (v.exited <==> Apply.Applies(u.dir, u.cache, during, p) && a.spawns)
      && v.cache == (if OwnPath(u.dir, p) && StillHeld(u.cache, p) then during else u.cache)
      && (!v.exited ==> v.threads[t] == Install(EndInstall))
  {
    if OwnPath(u.dir, p) && StillHeld(u.cache, p) {
      MarksOfTwo(t, p, Apply.HelperStarted(CachePath(u.dir, p.fileName)));
      MarksOfTwo(t, p, Apply.Resumed);
      HostStops(u, t, p, during, a);
    }
  }

  lemma HostStops(u: Updater, t: nat, p: Package, during: Dir, a: Answer)
    requires !u.exited && t in u.threads && u.threads[t] == Install(CheckHeld(p))
    requires OwnPath(u.dir, p) && StillHeld(u.cache, p)
    ensures
      var checked := Step(u, Move(t, a));
      && checked.threads[t] == Install(Quiesce(p))
      && Step(Step(checked, Move(t, a)), CacheChanged(during)) ==
           u.(threads := u.threads[t := Install(Spawn(p))], cache := during,
              trace := u.trace + [Checked(t, p), Quiesced(t)])
  {
    var checked := Step(u, Move(t, a));
    assert checked == Log(Go(u, t, Install(Quiesce(p))), Checked(t, p));
    assert u.trace + [Checked(t, p)] + [Quiesced(t)] == u.trace + [Checked(t, p), Quiesced(t)];
    assert u.threads[t := Install(Quiesce(p))][t := Install(Spawn(p))] == u.threads[t := Install(Spawn(p))];
  }

  // ----- conservation -----------------------------------------------------------------

  function Count(trace: seq<Mark>, p: Mark -> bool): nat {
    if trace == [] then 0 else Count(trace[..|trace| - 1], p) + if p(trace[|trace| - 1]) then 1 else 0
  }

  const ACQUIRES := (m: Mark) => m.Acquired?
  const RELEASES := (m: Mark) => m.Released?
  const QUIESCES := (m: Mark) => m.Quiesced?
  const RESUMES := (m: Mark) => m.Resumed?
  const STARTS := (m: Mark) => m.Started?

  lemma {:induction false} LegalCounts(trace: seq<Mark>)
    requires !TokenOf(trace).Broken?
    ensures
      var k := TokenOf(trace);
      && Count(trace, ACQUIRES) == Count(trace, RELEASES) + (if k.Free? then 0 else 1)
      && Count(trace, STARTS) == (if k.Gone? then 1 else 0)
      && Count(trace, QUIESCES) ==
           Count(trace, RESUMES) + Count(trace, STARTS) + (if k.HeldBy? && k.quiesced then 1 else 0)
  {
    if trace == [] {
    } else {
      LegalCounts(trace[..|trace| - 1]);
    }
  }

  /** Every take of the token has its release except the one in flight (or the one the process
      exited with); every quiesce of the browser host is answered by exactly one resume, or by
      the helper's start, except the one in flight. */
  lemma BracketsBalance(start: Start, events: seq<Event>)
    ensures
      var u := Run(start, events);
      && Count(u.trace, ACQUIRES) == Count(u.trace, RELEASES) + (if u.busy then 1 else 0)
      && Count(u.trace, STARTS) == (if u.exited then 1 else 0)
      && (!u.busy ==> Count(u.trace, QUIESCES) == Count(u.trace, RESUMES))
      && (u.exited ==> Count(u.trace, QUIESCES) == Count(u.trace, RESUMES) + 1)
  {
    RunKeepsInv(start, events);
    LegalCounts(Run(start, events).trace);
  }
}
