/**
  The steps of a save refine the policy-level store: wherever a run of steps is looked at,
  stopped or not, the files and the controller are where some run of whole launches and edits
  leaves them. So what is proved of the store holds of the bytes on disk.
*/
module RulesRefinement {
  import opened Prelude
  import opened ExclusionRules
  import opened RulesDisk
  import P = ExclusionStore

  function Abs(c: Codec, w: World): P.Store {
    P.Store(FileOf(c, w.disk.file), w.disk.marker,
            if w.proc.Some? then Some(P.Live(w.proc.value.rules, w.proc.value.available)) else None)
  }

  /** The whole launch or edit a save belongs to, with the fate it turns out to have. */
  function Whole(op: Op, fate: P.SaveFate, marks: bool): P.Event {
    match op
    case Launched(legible, seen) => P.ELaunch(legible, seen, fate, marks)
    case Edited(rules) => P.EEdit(rules, fate, marks)
  }

  /** How far the save in progress has come. */
  function FateSoFar(job: Job): P.SaveFate { if job.stage.Marking? then P.Completes else P.Fails }

  /** The operation in progress could begin in `s`, and its save is of the right rules. */
  ghost predicate Begun(c: Codec, s: P.Store, p: Proc)
    requires p.job.Some?
  {
    && p.job.value.text == c.encode(Normalized(p.rules))
    && match p.op
       case Launched(legible, seen) => s.live.None? && P.Load(s.file, s.marker && seen, legible) == (p.rules, true, true)
       case Edited(rules) => s.live.Some? && p.rules == Normalized(rules)
  }

  /** `s` is the policy-level state: before the operation in progress, or now. */
  ghost predicate Tracks(c: Codec, w: World, s: P.Store) {
    if Saving(w) then
      && Begun(c, s, w.proc.value)
      && Abs(c, w) == P.Step(s, Whole(w.proc.value.op, FateSoFar(w.proc.value.job.value), false))
    else Abs(c, w) == s
  }

  /** The policy-level event, if any, that a step completes. */
  function Completed(c: Codec, w: World, e: Event): seq<P.Event> {
    match e
    case Start(_, legible, seen) =>
      if w.proc.None? && !Saving(Step(c, w, e)) then [P.ELaunch(legible, seen, P.Fails, false)] else []
    case Change(_) => []
    case Act(ok, _) =>
      if Saving(w) && !Saving(Step(c, w, e))
      then [Whole(w.proc.value.op, FateSoFar(w.proc.value.job.value), ok && w.proc.value.job.value.stage.Marking?)] else []
    case Stop(_) =>
      if Saving(w)
      then [Whole(w.proc.value.op, if w.proc.value.job.value.stage.Marking? then P.DiesAfter else P.DiesBefore, false)]
      else if w.proc.Some? then [P.EQuit] else []
  }

  function Apply(s: P.Store, hs: seq<P.Event>): P.Store
    requires |hs| <= 1
  {
    if hs == [] then s else P.Step(s, hs[0])
  }

  lemma StartTracks(c: Codec, w: World, pid: nat, legible: bool, seen: bool, s: P.Store)
    requires Tracks(c, w, s) && w.proc.None?
    ensures
      var e := Start(pid, legible, seen);
      Tracks(c, Step(c, w, e), Apply(s, Completed(c, w, e)))
  {
    P.SeedsAreAvailable(s.file, s.marker && seen, legible);
  }

  lemma ChangeTracks(c: Codec, w: World, rules: Rules, s: P.Store)
    requires Tracks(c, w, s) && Idle(w)
    ensures Tracks(c, Step(c, w, Change(rules)), s)
  {
    NormalizedIdempotent(rules);
  }

  /** The rename makes the file what the policy calls a completed save. */
  lemma RenameTracks(c: Codec, w: World, s: P.Store)
    requires RoundTrips(c) && JobInv(w) && Saving(w) && w.proc.value.job.value.stage.Renaming? && Tracks(c, w, s)
    ensures Tracks(c, Rename(w), s)
  {
    var p := w.proc.value;
    assert FileOf(c, Some(p.job.value.text)) == P.Readable(Normalized(p.rules));
    if p.op.Edited? { NormalizedIdempotent(p.op.rules); }
  }

  lemma ActTracks(c: Codec, w: World, ok: bool, n: nat, s: P.Store)
    requires RoundTrips(c) && JobInv(w) && Saving(w) && Tracks(c, w, s)
    ensures Tracks(c, Step(c, w, Act(ok, n)), Apply(s, Completed(c, w, Act(ok, n))))
  {
    if w.proc.value.job.value.stage.Renaming? && ok { RenameTracks(c, w, s); }
  }

  /** Stopping keeps file and marker and ends the process. */
  lemma HaltAbs(c: Codec, w: World, torn: Option<P.Bytes>)
    requires !w.disk.loose
    ensures Abs(c, Halt(w, torn)) == Abs(c, w).(live := None) && !Saving(Halt(w, torn))
  {
  }

  /** Dying before the rename is failing and ending, dying after it completing and ending. */
  lemma DyingEnds(s: P.Store, op: Op)
    requires op.Launched? ==> P.Load(s.file, s.marker && op.seen, op.legible).2
    requires op.Edited? ==> s.live.Some?
    ensures P.Step(s, Whole(op, P.DiesBefore, false)) == P.Step(s, Whole(op, P.Fails, false)).(live := None)
    ensures P.Step(s, Whole(op, P.DiesAfter, false)) == P.Step(s, Whole(op, P.Completes, false)).(live := None)
  {
  }

  lemma StopTracks(c: Codec, w: World, torn: Option<P.Bytes>, s: P.Store)
    requires Tracks(c, w, s) && !w.disk.loose
    ensures Tracks(c, Step(c, w, Stop(torn)), Apply(s, Completed(c, w, Stop(torn))))
  {
    HaltAbs(c, w, torn);
    if Saving(w) { DyingEnds(s, w.proc.value.op); }
  }

  lemma StepTracks(c: Codec, w: World, e: Event, s: P.Store)
    requires RoundTrips(c) && JobInv(w) && Tracks(c, w, s)
    ensures Tracks(c, Step(c, w, e), Apply(s, Completed(c, w, e)))
  {
    match e
    case Start(pid, legible, seen) => if w.proc.None? { StartTracks(c, w, pid, legible, seen, s); }
    case Change(rules) => if Idle(w) { ChangeTracks(c, w, rules, s); }
    case Act(ok, n) => if Saving(w) { ActTracks(c, w, ok, n, s); }
    case Stop(torn) => StopTracks(c, w, torn, s);
  }

  /** The whole launches and edits that a run of steps has completed. */
  function History(c: Codec, start: World, events: seq<Event>): seq<P.Event> {
    if events == [] then []
    else
      var before := events[..|events| - 1];
      History(c, start, before) + Completed(c, Run(c, start, before), events[|events| - 1])
  }

  lemma PolicyRunApply(s: P.Store, hs: seq<P.Event>, more: seq<P.Event>)
    requires |more| <= 1
    ensures P.Run(s, hs + more) == Apply(P.Run(s, hs), more)
  {
    if more == [] { assert hs + more == hs; } else { assert (hs + more)[..|hs|] == hs; }
  }

  lemma {:induction false} RunTracks(c: Codec, start: World, events: seq<Event>)
    requires RoundTrips(c) && start.proc.None? && !start.disk.loose
    ensures Tracks(c, Run(c, start, events), P.Run(Abs(c, start), History(c, start, events)))
  {
    if events == [] {
    } else {
      var before, e := events[..|events| - 1], events[|events| - 1];
      RunTracks(c, start, before);
      SaveInv(c, start, before);
      StepTracks(c, Run(c, start, before), e, P.Run(Abs(c, start), History(c, start, before)));
      PolicyRunApply(Abs(c, start), History(c, start, before), Completed(c, Run(c, start, before), e));
    }
  }

  /** That history, and the operation still in progress as far as it has come. */
  function Seen(c: Codec, start: World, events: seq<Event>): seq<P.Event> {
    var w := Run(c, start, events);
    History(c, start, events) +
    if Saving(w) then [Whole(w.proc.value.op, FateSoFar(w.proc.value.job.value), false)] else []
  }

  /** At every point of every run of steps, the files and the controller are exactly where a run
      of whole launches and edits leaves them. */
  lemma StepsRefineStore(c: Codec, start: World, events: seq<Event>)
    requires RoundTrips(c) && start.proc.None? && !start.disk.loose
    ensures Abs(c, Run(c, start, events)) == P.Run(Abs(c, start), Seen(c, start, events))
  {
    var w := Run(c, start, events);
    RunTracks(c, start, events);
    var now := if Saving(w) then [Whole(w.proc.value.op, FateSoFar(w.proc.value.job.value), false)] else [];
    PolicyRunApply(Abs(c, start), History(c, start, events), now);
  }

  // ----- what it carries over ---------------------------------------------------------

  /** Each launch and edit of the history comes from a step of the run. */
  ghost predicate ComesFrom(h: P.Event, events: seq<Event>) {
    && (h.EEdit? ==> Change(h.rules) in events)
    && (h.ELaunch? ==> exists e :: e in events && e.Start? && e.seen == h.seen)
  }

  lemma ComesFromLonger(h: P.Event, events: seq<Event>)
    requires events != [] && ComesFrom(h, events[..|events| - 1])
    ensures ComesFrom(h, events)
  {
    var before := events[..|events| - 1];
    assert forall e :: e in before ==> e in events;
  }

  ghost predicate OpComesFrom(c: Codec, start: World, events: seq<Event>) {
    var w := Run(c, start, events);
    w.proc.Some? ==> ComesFrom(Whole(w.proc.value.op, P.Fails, false), events)
  }

  lemma OpStep(c: Codec, start: World, events: seq<Event>)
    requires events != [] && OpComesFrom(c, start, events[..|events| - 1])
    ensures OpComesFrom(c, start, events)
  {
    var w, e := Run(c, start, events[..|events| - 1]), events[|events| - 1];
    assert e in events;
    if w.proc.Some? { ComesFromLonger(Whole(w.proc.value.op, P.Fails, false), events); }
    match e
    case Start(_, legible, seen) => if w.proc.None? { assert ComesFrom(Whole(Launched(legible, seen), P.Fails, false), events); }
    case Change(rules) => if Idle(w) { assert ComesFrom(Whole(Edited(rules), P.Fails, false), events); }
    case _ =>
  }

  lemma {:induction false} HistoryComesFrom(c: Codec, start: World, events: seq<Event>, h: P.Event)
    requires start.proc.None? && !start.disk.loose
    ensures OpComesFrom(c, start, events)
    ensures h in History(c, start, events) ==> ComesFrom(h, events)
  {
    if events == [] {
    } else {
      var before, e := events[..|events| - 1], events[|events| - 1];
      HistoryComesFrom(c, start, before, h);
      OpStep(c, start, events);
      if h in History(c, start, before) {
        ComesFromLonger(h, events);
      } else if h in History(c, start, events) {
        var w := Run(c, start, before);
        assert h in Completed(c, w, e) && e in events;
        if w.proc.Some? { ComesFromLonger(Whole(w.proc.value.op, P.Fails, false), events); }
      }
    }
  }

  /** Every byte-level run from a stopped process: once the marker is there and seen at every
      start, an app gone from the file and from memory stays gone at every step, torn saves and
      crashes included, until an edit names it. */
  lemma RemovedAppStaysRemovedOnDisk(c: Codec, start: World, events: seq<Event>, x: string)
    requires RoundTrips(c) && start.proc.None? && !start.disk.loose && P.Gone(Abs(c, start), x)
    requires forall e :: e in events && e.Change? ==> x !in Normalized(e.rules).exes
    requires forall e :: e in events && e.Start? ==> e.seen
    ensures P.Gone(Abs(c, Run(c, start, events)), x)
  {
    var hs := Seen(c, start, events);
    forall h | h in hs ensures ComesFrom(h, events) { HistoryComesFrom(c, start, events, h); }
    StepsRefineStore(c, start, events);
    P.RemovedAppStaysRemoved(Abs(c, start), hs, x);
  }
}
