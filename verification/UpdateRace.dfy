/**
  A check that begins while an update is staged. `check` looks at the staged asset before it
  takes the token, so a download may finish in between. This file says exactly when a check
  goes ahead with an update staged, and shows that it can.
*/
module UpdateRace {
  import opened Prelude
  import opened PackageCache
  import opened UpdateFlight
  import opened UpdateSafety

  /** The last value noted in this stretch of history is a staged asset. */
  ghost predicate StagedIn(marks: seq<Mark>) {
    exists j :: 0 <= j < |marks| && marks[j].Noted? && marks[j].staged.Some?
      && forall l :: j < l < |marks| ==> !marks[l].Noted?
  }

  lemma {:induction false} LastNotedIsSome(marks: seq<Mark>)
    ensures LastNoted(None, marks).Some? <==> StagedIn(marks)
  {
    if marks == [] {
    } else {
      var init, m := marks[..|marks| - 1], marks[|marks| - 1];
      LastNotedIsSome(init);
      if StagedIn(init) && !m.Noted? {
        var j :| 0 <= j < |init| && init[j].Noted? && init[j].staged.Some? && forall l :: j < l < |init| ==> !init[l].Noted?;
        assert marks[j] == init[j] && forall l :: j < l < |init| ==> marks[l] == init[l];
      }
      if StagedIn(marks) && !m.Noted? {
        var j :| 0 <= j < |marks| && marks[j].Noted? && marks[j].staged.Some? && forall l :: j < l < |marks| ==> !marks[l].Noted?;
        assert init[j] == marks[j] && forall l :: j < l < |init| ==> init[l] == marks[l];
      }
    }
  }

  lemma {:induction false} LastNotedSplit(initial: Option<Asset>, a: seq<Mark>, b: seq<Mark>)
    ensures LastNoted(initial, a + b) == LastNoted(LastNoted(initial, a), b)
  {
    if b == [] {
      assert a + b == a;
    } else {
      LastNotedSplit(initial, a, b[..|b| - 1]);
      assert (a + b)[..|a + b| - 1] == a + b[..|b| - 1];
    }
  }

  /** At event `i` thread `t` finds nothing staged and goes on to take the token. */
  ghost predicate ReadAt(start: Start, events: seq<Event>, t: nat, i: nat) {
    && i < |events| && events[i].Move? && events[i].thread == t
    && var u := Run(start, events[..i]);
       t in u.threads && u.threads[t] == Check(ReadStaged) && u.staged.None?
  }

  /** Thread `s` stands where it stood. */
  predicate Stands(u: Updater, v: Updater, s: nat) {
    (s in v.threads <==> s in u.threads) && (s in u.threads ==> v.threads[s] == u.threads[s])
  }

  lemma CheckGoesTo(u: Updater, t: nat, c: CheckPc, a: Answer, s: nat)
    ensures
      var v := AdvanceCheck(u, t, c, a);
      && (s != t ==> Stands(u, v, s))
      && t in v.threads && (v.threads[t] == Check(BeginCheck) ==> c == ReadStaged && u.staged.None?)
  {
  }

  lemma LoadGoesTo(u: Updater, t: nat, l: LoadPc, a: Answer, s: nat)
    ensures
      var v := AdvanceLoad(u, t, l, a);
      (s != t ==> Stands(u, v, s)) && t in v.threads && !v.threads[t].Check?
  {
  }

  lemma InstallGoesTo(u: Updater, t: nat, i: InstallPc, a: Answer, s: nat)
    ensures
      var v := AdvanceInstall(u, t, i, a);
      (s != t ==> Stands(u, v, s)) && t in v.threads && !v.threads[t].Check?
  {
  }

  lemma AdvanceGoesTo(u: Updater, t: nat, a: Answer, s: nat)
    requires t in u.threads
    ensures
      var v := Advance(u, t, a);
      && (s != t ==> Stands(u, v, s))
      && t in v.threads
      && (v.threads[t] == Check(BeginCheck) ==> u.threads[t] == Check(ReadStaged) && u.staged.None?)
  {
    match u.threads[t]
    case Check(c) => CheckGoesTo(u, t, c, a, s);
    case Load(l) => LoadGoesTo(u, t, l, a, s);
    case Install(i) => InstallGoesTo(u, t, i, a, s);
    case _ =>
  }

  lemma BeginCheckCameFrom(u: Updater, e: Event, t: nat)
    requires t in Step(u, e).threads && Step(u, e).threads[t] == Check(BeginCheck)
    ensures t in u.threads
    ensures u.threads[t] != Check(BeginCheck) ==>
              e.Move? && e.thread == t && u.threads[t] == Check(ReadStaged) && u.staged.None?
  {
    if e.Move? && e.thread in u.threads { AdvanceGoesTo(u, e.thread, e.answer, t); }
  }

  lemma {:induction false} CheckHasRead(start: Start, events: seq<Event>, t: nat) returns (i: nat)
    requires t in Run(start, events).threads && Run(start, events).threads[t] == Check(BeginCheck)
    ensures ReadAt(start, events, t, i)
  {
    if events == [] {
    } else {
      var n := |events| - 1;
      var u := Run(start, events[..n]);
      BeginCheckCameFrom(u, events[n], t);
      if u.threads[t] == Check(BeginCheck) {
        i := CheckHasRead(start, events[..n], t);
        assert events[..n][..i] == events[..i];
      } else {
        i := n;
      }
    }
  }

  /** In every run: a check that takes the token does so with an update staged exactly when the
      last note any thread made since this thread looked was a staged asset. */
  lemma CheckBeginsStaged(start: Start, events: seq<Event>, t: nat, a: Answer) returns (i: nat)
    requires
      var u := Run(start, events);
      !u.exited && !u.busy && t in u.threads && u.threads[t] == Check(BeginCheck)
    ensures ReadAt(start, events, t, i)
    ensures Run(start, events[..i]).trace <= Run(start, events).trace
    ensures
      var u := Run(start, events);
      var v := Step(u, Move(t, a));
      && v.busy && v.threads[t] == Check(AskFeed)
      && (v.staged.Some? <==> StagedIn(u.trace[|Run(start, events[..i]).trace|..]))
  {
    i := CheckHasRead(start, events, t);
    TraceGrows(start, events, i);
    var past, now := Run(start, events[..i]).trace, Run(start, events).trace;
    var since := now[|past|..];
    assert now == past + since;
    StagedIsLastNoted(start, events);
    StagedIsLastNoted(start, events[..i]);
    LastNotedSplit(start.staged, past, since);
    LastNotedIsSome(since);
  }

  // ----- such a run -------------------------------------------------------------------

  function Moves(u: Updater, t: nat, a: Answer, n: nat): Updater {
    if n == 0 then u else Step(Moves(u, t, a, n - 1), Move(t, a))
  }

  /** `n` moves of one thread. */
  function Times(t: nat, a: Answer, n: nat): seq<Event> { seq(n, i => Move(t, a)) }

  lemma RunSnoc(start: Start, events: seq<Event>, e: Event)
    ensures Run(start, events + [e]) == Step(Run(start, events), e)
  {
    assert (events + [e])[..|events|] == events;
  }

  lemma {:induction false} RunMoves(start: Start, events: seq<Event>, t: nat, a: Answer, n: nat)
    ensures Run(start, events + Times(t, a, n)) == Moves(Run(start, events), t, a, n)
  {
    if n == 0 {
      assert events + Times(t, a, n) == events;
    } else {
      RunMoves(start, events, t, a, n - 1);
      RunSnoc(start, events + Times(t, a, n - 1), Move(t, a));
      assert events + Times(t, a, n) == events + Times(t, a, n - 1) + [Move(t, a)];
    }
  }

  lemma MovesFive(u: Updater, t: nat, a: Answer)
    ensures
      var m := Move(t, a);
      Moves(u, t, a, 5) == Step(Step(Step(Step(Step(u, m), m), m), m), m)
  {
    assert Moves(u, t, a, 1) == Step(Moves(u, t, a, 0), Move(t, a));
    assert Moves(u, t, a, 2) == Step(Moves(u, t, a, 1), Move(t, a));
    assert Moves(u, t, a, 3) == Step(Moves(u, t, a, 2), Move(t, a));
    assert Moves(u, t, a, 4) == Step(Moves(u, t, a, 3), Move(t, a));
  }

  /** A check finds an update and goes on to download it. */
  lemma CheckFinds(u: Updater, t: nat, a: Answer, asset: Asset)
    requires !u.exited && u.managed && u.staged.None? && !u.busy
    requires t in u.threads && u.threads[t] == Check(ReadStaged) && a.found == Available(asset) && a.auto
    ensures
      var v := Moves(u, t, a, 5);
      && !v.exited && v.managed && v.staged.None? && !v.busy && v.available == Some(asset) && v.cache == u.cache
      && v.threads == u.threads[t := Load(ReadAvailable)]
  {
    MovesFive(u, t, a);
    var m := Move(t, a);
    var v1 := Step(u, m);
    assert v1 == Go(u, t, Check(BeginCheck));
    var v2 := Step(v1, m);
    assert v2.threads == u.threads[t := Check(AskFeed)] && v2.busy;
    var v3 := Step(v2, m);
    assert v3.threads == u.threads[t := Check(EndCheck(a.found))] && v3.available == Some(asset);
    var v4 := Step(v3, m);
    assert v4.threads == u.threads[t := Check(MayLoad(a.found))] && !v4.busy;
  }

  /** A download that delivers ends with the asset staged and the token free. */
  lemma LoadStages(u: Updater, t: nat, a: Answer, asset: Asset)
    requires !u.exited && u.managed && !u.busy && u.available == Some(asset)
    requires t in u.threads && u.threads[t] == Load(ReadAvailable)
    requires Plain(asset.fileName) && asset.fullType && !Exists(u.cache, asset.fileName) && Delivers(a.download, asset, a.verify)
    ensures
      var v := Moves(u, t, a, 5);
      !v.exited && !v.busy && v.staged == Some(asset) && v.threads == u.threads[t := Finished]
  {
    MovesFive(u, t, a);
    var m := Move(t, a);
    var v1 := Step(u, m);
    assert v1 == Go(u, t, Load(BeginLoad(asset)));
    var v2 := Step(v1, m);
    assert v2.threads == u.threads[t := Load(Stage(asset))] && v2.busy && v2.cache == u.cache;
    StagedExactly(u.cache, asset, a.download, a.verify);
    assert Admit(u.cache + a.download.written, asset.fileName, asset.version, a.verify).Ready?;
    var v3 := Step(v2, m);
    assert v3.threads == u.threads[t := Load(NoteStaged(Ok(asset)))];
    var v4 := Step(v3, m);
    assert v4.threads == u.threads[t := Load(EndLoad)] && v4.staged == Some(asset);
  }

  const FIRST: seq<Event> := [Call(0, Check(ReadStaged))]

  /** One check looks and pauses; a second finds an update, downloads it and finishes; the first
      then takes the token with that update staged. */
  lemma CheckCanBeginStaged(dir: string, asset: Asset, a: Answer) returns (events: seq<Event>)
    requires Plain(asset.fileName) && asset.fullType && Delivers(a.download, asset, a.verify)
    requires a.found == Available(asset) && a.auto
    ensures
      var u := Run(Start(dir, true, None, map[]), events);
      && !u.exited && !u.busy && 0 in u.threads && u.threads[0] == Check(BeginCheck) && u.staged == Some(asset)
      && Step(u, Move(0, a)).busy && Step(u, Move(0, a)).threads[0] == Check(AskFeed)
  {
    var start := Start(dir, true, None, map[]);
    var opening := FIRST + [Move(0, a)] + [Call(1, Check(ReadStaged))];
    Opening(start, a);
    var u := Run(start, opening);
    RunMoves(start, opening, 1, a, 5);
    CheckFinds(u, 1, a, asset);
    var found := Moves(u, 1, a, 5);
    RunMoves(start, opening + Times(1, a, 5), 1, a, 5);
    LoadStages(found, 1, a, asset);
    events := opening + Times(1, a, 5) + Times(1, a, 5);
  }

  lemma Opening(start: Start, a: Answer)
    requires start.managed && start.staged.None?
    ensures
      var u := Run(start, FIRST + [Move(0, a)] + [Call(1, Check(ReadStaged))]);
      u == New(start.dir, true, None, start.cache).(threads := map[0 := Check(BeginCheck), 1 := Check(ReadStaged)])
  {
    var one := FIRST;
    var two := FIRST + [Move(0, a)];
    var three := two + [Call(1, Check(ReadStaged))];
    assert one[..0] == [] && two[..1] == one && three[..2] == two;
    var u0 := New(start.dir, true, None, start.cache);
    assert Run(start, []) == u0;
    assert Run(start, one) == Go(u0, 0, Check(ReadStaged));
    assert Run(start, two).threads == map[0 := Check(BeginCheck)];
  }

  /** There is such an asset and such a download. */
  lemma SomethingDelivers() returns (asset: Asset, a: Answer)
    ensures Plain(asset.fileName) && asset.fullType && Delivers(a.download, asset, a.verify)
    ensures a.found == Available(asset) && a.auto
  {
    asset := Asset("p", "2", true);
    var written := map["p" := Entry(Regular(0, Some("2")), false, 1), "p.minisig" := Entry(Regular(0, None), false, 2)];
    a := Answer(Available(asset), true, Download(written, true), (x, y) => true, None, false);
    assert "p" + ".minisig" == "p.minisig";
  }
}
