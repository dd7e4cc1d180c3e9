/**
  The updater's single in-flight operation. Any number of IPC calls and timer ticks run as
  threads; `check`, `download` and `install` compete for one compare-and-swap token. The
  threads interleave step by step, the package cache may change under them, and an install
  that starts its helper ends the process.
*/
module UpdateFlight {
  import opened Prelude
  import opened PackageCache

  /** What a finished feed check found. */
  datatype Found = Available(asset: Asset) | UpToDate | CheckFailed

  /** Where a `check` stands: the step it takes next. */
  datatype CheckPc =
    | ReadStaged               // stop if an update is already staged
    | BeginCheck               // try to take the token
    | AskFeed                  // ask the feed and note what is available
    | EndCheck(found: Found)   // release the token
    | MayLoad(found: Found)    // download at once if the owner wants that

  /** Where a `download` stands. */
  datatype LoadPc =
    | ReadAvailable            // stop if nothing is available
    | BeginLoad(asset: Asset)  // try to take the token
    | Stage(asset: Asset)      // stage the package in the cache
    | NoteStaged(result: Result<Asset, PackageCache.Failure>)
    | EndLoad                  // release the token

  /** Where an `install` stands. */
  datatype InstallPc =
    | BeginInstall                 // try to take the token
    | Select                       // choose an authenticated package and hold its file open
    | CheckHeld(package: Package)  // path and held-file checks
    | Quiesce(package: Package)    // stop the browser host
    | Spawn(package: Package)      // held-file check again, then start the helper
    | Resume                       // let the browser host run again
    | EndInstall                   // release the token

  datatype Pc = Check(c: CheckPc) | Load(l: LoadPc) | Install(i: InstallPc) | Dismiss | Finished

  /** History marks, kept only to state the properties. */
  datatype Mark =
    | Acquired(thread: nat)
    | Admitted(thread: nat, asset: Asset)
    | Noted(thread: nat, staged: Option<Asset>)
    | Selected(thread: nat, package: Package)
    | Checked(thread: nat, package: Package)
    | Quiesced(thread: nat)
    | Started(thread: nat, package: Package)
    | Resumed(thread: nat)
    | Released(thread: nat)

  datatype Updater = Updater(
    dir: string,         // the installer's package directory
    managed: bool,       // whether the app is installed, so that there is an update manager
    busy: bool,
    staged: Option<Asset>,
    available: Option<Asset>,
    cache: Dir,
    exited: bool,
    threads: map<nat, Pc>,
    trace: seq<Mark>)

  /** `UpdateController::new`: the staged asset comes from the cache scan. */
  function New(dir: string, managed: bool, staged: Option<Asset>, cache: Dir): Updater {
    Updater(dir, managed, false, staged, None, cache, false, map[], [])
  }

  /** What the outside world answers to whichever step a thread takes. */
  datatype Answer = Answer(
    found: Found,
    auto: bool,
    download: Download,
    verify: Verifier,
    pick: Option<Package>,   // what the scan of the cache chose
    spawns: bool)

  function Go(u: Updater, t: nat, pc: Pc): Updater { u.(threads := u.threads[t := pc]) }

  function Log(u: Updater, m: Mark): Updater { u.(trace := u.trace + [m]) }

  /** `try_begin`: the compare-and-swap. */
  function TryBegin(u: Updater, t: nat, next: Pc): Updater {
    if u.busy then Go(u, t, Finished) else Log(Go(u, t, next), Acquired(t)).(busy := true)
  }

  /** `end`. */
  function End(u: Updater, t: nat, next: Pc): Updater {
    Log(Go(u, t, next), Released(t)).(busy := false)
  }

  function AdvanceCheck(u: Updater, t: nat, c: CheckPc, a: Answer): Updater {
    match c
    case ReadStaged => Go(u, t, if !u.managed || u.staged.Some? then Finished else Check(BeginCheck))
    case BeginCheck => TryBegin(u, t, Check(AskFeed))
    case AskFeed =>
      var available := match a.found
        case Available(asset) => Some(asset)
        case UpToDate => None
        case CheckFailed => u.available;
      Go(u, t, Check(EndCheck(a.found))).(available := available)
    case EndCheck(found) => End(u, t, Check(MayLoad(found)))
    case MayLoad(found) => Go(u, t, if found.Available? && a.auto then Load(ReadAvailable) else Finished)
  }

  function AdvanceLoad(u: Updater, t: nat, l: LoadPc, a: Answer): Updater {
    match l
    case ReadAvailable =>
      Go(u, t, if u.managed && u.available.Some? then Load(BeginLoad(u.available.value)) else Finished)
    case BeginLoad(asset) => TryBegin(u, t, Load(Stage(asset)))
    case Stage(asset) =>
      var (cache, r) := Staged(u.cache, asset, a.download, a.verify);
      var v := Go(u, t, Load(NoteStaged(r))).(cache := cache);
      if r.Ok? then Log(v, Admitted(t, r.value)) else v
    case NoteStaged(r) =>
      var staged := if r.Ok? then Some(r.value) else None;
      Log(Go(u, t, Load(EndLoad)), Noted(t, staged)).(staged := staged)
    case EndLoad => End(u, t, Finished)
  }

  function AdvanceInstall(u: Updater, t: nat, i: InstallPc, a: Answer): Updater {
    match i
    case BeginInstall => TryBegin(u, t, Install(Select))
    case Select =>
      if !u.managed then Go(u, t, Install(EndInstall))
      else if a.pick.Some? && Selectable(u.cache, a.pick.value, a.verify)
      then Log(Go(u, t, Install(CheckHeld(a.pick.value))), Selected(t, a.pick.value))
      else Log(Go(u, t, Install(EndInstall)), Noted(t, None)).(staged := None)
    case CheckHeld(p) =>
      if OwnPath(u.dir, p) && StillHeld(u.cache, p) then Log(Go(u, t, Install(Quiesce(p))), Checked(t, p))
      else Go(u, t, Install(EndInstall))
    case Quiesce(p) => Log(Go(u, t, Install(Spawn(p))), Quiesced(t))
    case Spawn(p) =>
      if StillHeld(u.cache, p) && a.spawns then Log(Go(u, t, Finished), Started(t, p)).(exited := true)
      else Go(u, t, Install(Resume))
    case Resume => Log(Go(u, t, Install(EndInstall)), Resumed(t))
    case EndInstall => End(u, t, Finished)
  }

  /** One step of thread `t`. */
  function Advance(u: Updater, t: nat, a: Answer): Updater
    requires t in u.threads
  {
    match u.threads[t]
    case Check(c) => AdvanceCheck(u, t, c, a)
    case Load(l) => AdvanceLoad(u, t, l, a)
    case Install(i) => AdvanceInstall(u, t, i, a)
    case Dismiss => Go(u, t, Finished).(available := None)
    case Finished => u
  }

  datatype Event =
    | Call(thread: nat, first: Pc)        // a fresh IPC call or timer tick
    | Move(thread: nat, answer: Answer)
    | CacheChanged(cache: Dir)            // another process touches the package directory

  /** Where a call may begin. */
  predicate Entry(pc: Pc) {
    pc in {Check(ReadStaged), Load(ReadAvailable), Install(BeginInstall), Dismiss}
  }

  function Step(u: Updater, e: Event): Updater {
    if u.exited then u
    else match e
      case Call(t, first) => if t !in u.threads && Entry(first) then Go(u, t, first) else u
      case Move(t, a) => if t in u.threads then Advance(u, t, a) else u
      case CacheChanged(cache) => u.(cache := cache)
  }

  /** What the process found when it started. */
  datatype Start = Start(dir: string, managed: bool, staged: Option<Asset>, cache: Dir)

  function Run(start: Start, events: seq<Event>): Updater {
    if events == [] then New(start.dir, start.managed, start.staged, start.cache)
    else Step(Run(start, events[..|events| - 1]), events[|events| - 1])
  }

  // ----- the discipline, read off the history -----------------------------------------

  /** What the history says of the token: free, or held by a thread that has (or has not)
      admitted an asset, chosen a package, passed the held-file check, stopped the host, or
      started the helper. */
  datatype Token =
    | Free
    | HeldBy(thread: nat, admitted: Option<Asset>, chosen: Option<Package>, checked: bool, quiesced: bool)
    | Gone(thread: nat)
    | Broken

  /** One mark is legal only from the right state of the token; anything else breaks it. */
  function Next(k: Token, m: Mark): Token {
    match k
    case Free => if m.Acquired? then HeldBy(m.thread, None, None, false, false) else Broken
    case HeldBy(_, _, _, _, _) => if m.thread == k.thread then NextHeld(k, m) else Broken
    case _ => Broken
  }

  /** What the holder may do next. */
  function NextHeld(k: Token, m: Mark): Token
    requires k.HeldBy?
  {
    match m
    case Admitted(_, asset) => k.(admitted := Some(asset))
    case Noted(_, asset) => if asset.Some? ==> asset == k.admitted then k else Broken
    case Selected(_, p) => if k.chosen.None? then k.(chosen := Some(p)) else Broken
    case Checked(_, p) => if k.chosen == Some(p) && !k.checked && !k.quiesced then k.(checked := true) else Broken
    case Quiesced(_) => if k.checked && !k.quiesced then k.(quiesced := true) else Broken
    case Resumed(_) => if k.quiesced then k.(checked := false, quiesced := false) else Broken
    case Started(t, p) => if k.chosen == Some(p) && k.checked && k.quiesced then Gone(t) else Broken
    case Released(_) => if k.quiesced then Broken else Free
    case Acquired(_) => Broken
  }

  function TokenOf(trace: seq<Mark>): Token {
    if trace == [] then Free else Next(TokenOf(trace[..|trace| - 1]), trace[|trace| - 1])
  }

  // ----- the invariant ----------------------------------------------------------------

  /** The thread is between taking the token and releasing it. */
  predicate Holding(pc: Pc) {
    match pc
    case Check(c) => c.AskFeed? || c.EndCheck?
    case Load(l) => l.Stage? || l.NoteStaged? || l.EndLoad?
    case Install(i) => !i.BeginInstall?
    case _ => false
  }

  /** What the token's state must be for the step the holder takes next. */
  predicate Fits(pc: Pc, k: Token)
    requires k.HeldBy?
  {
    match pc
    case Install(i) =>
      && k.checked == (i.Quiesce? || i.Spawn? || i.Resume?)
      && k.quiesced == (i.Spawn? || i.Resume?)
      && (i.Select? ==> k.chosen.None?)
      && (i.CheckHeld? || i.Quiesce? || i.Spawn? ==> k.chosen == Some(i.package))
    case Load(l) => !k.checked && !k.quiesced && (l.NoteStaged? && l.result.Ok? ==> k.admitted == Some(l.result.value))
    case _ => !k.checked && !k.quiesced
  }

  ghost predicate Inv(u: Updater) {
    var k := TokenOf(u.trace);
    && !k.Broken?
    && (u.exited <==> k.Gone?)
    && (u.busy <==> !k.Free?)
    && (!u.exited ==> forall t :: t in u.threads ==> (Holding(u.threads[t]) <==> k.HeldBy? && k.thread == t))
    && (!u.exited && k.HeldBy? ==> k.thread in u.threads && Fits(u.threads[k.thread], k))
  }

  lemma TokenLog(trace: seq<Mark>, m: Mark)
    ensures TokenOf(trace + [m]) == Next(TokenOf(trace), m)
  {
    assert (trace + [m])[..|trace|] == trace;
  }

  /** A thread moves, and the history gains the marks `more`: the invariant is kept when the
      token stays legal and the thread's new step fits it. */
  lemma MoveKeepsInv(u: Updater, v: Updater, t: nat, pc: Pc)
    requires Inv(u) && !u.exited && t in u.threads && v.threads == u.threads[t := pc]
    requires
      var k, n := TokenOf(u.trace), TokenOf(v.trace);
      && !n.Broken? && (v.exited <==> n.Gone?) && (v.busy <==> !n.Free?)
      && (Holding(pc) <==> n.HeldBy? && n.thread == t)
      && (Holding(pc) ==> Fits(pc, n))
      && (n == k || ((k.Free? || (k.HeldBy? && k.thread == t)) && (n.Free? || n.Gone? || (n.HeldBy? && n.thread == t))))
    ensures Inv(v)
  {
  }

  /** A thread without the token moves on. */
  lemma FreeMoves(u: Updater, v: Updater, t: nat, pc: Pc)
    requires Inv(u) && !u.exited && t in u.threads && !Holding(u.threads[t]) && !Holding(pc)
    requires v == Go(u, t, pc).(available := v.available)
    ensures Inv(v)
  {
    MoveKeepsInv(u, v, t, pc);
  }

  lemma TryBeginKeepsInv(u: Updater, t: nat, next: Pc)
    requires Inv(u) && !u.exited && t in u.threads && !Holding(u.threads[t])
    requires Holding(next) && Fits(next, HeldBy(t, None, None, false, false))
    ensures Inv(TryBegin(u, t, next))
  {
    TokenLog(u.trace, Acquired(t));
    if u.busy { FreeMoves(u, TryBegin(u, t, next), t, Finished); }
    else { MoveKeepsInv(u, TryBegin(u, t, next), t, next); }
  }

  /** The holder moves without a mark. */
  lemma HolderMoves(u: Updater, v: Updater, t: nat, pc: Pc)
    requires Inv(u) && !u.exited && t in u.threads && Holding(u.threads[t])
    requires v == Go(u, t, pc).(available := v.available, cache := v.cache)
    requires Holding(pc) && Fits(pc, TokenOf(u.trace))
    ensures Inv(v)
  {
    MoveKeepsInv(u, v, t, pc);
  }

  /** The holder moves and leaves one mark. */
  lemma HolderLogs(u: Updater, v: Updater, t: nat, pc: Pc, m: Mark)
    requires Inv(u) && !u.exited && t in u.threads && Holding(u.threads[t])
    requires v == Log(Go(u, t, pc), m).(staged := v.staged, cache := v.cache, busy := v.busy, exited := v.exited)
    requires
      var n := Next(TokenOf(u.trace), m);
      && !n.Broken? && (v.exited <==> n.Gone?) && (v.busy <==> !n.Free?)
      && (Holding(pc) <==> n.HeldBy?) && (n.HeldBy? ==> n.thread == t && Fits(pc, n))
    ensures Inv(v)
  {
    TokenLog(u.trace, m);
    MoveKeepsInv(u, v, t, pc);
  }

  lemma EndKeepsInv(u: Updater, t: nat, next: Pc)
    requires Inv(u) && !u.exited && t in u.threads && Holding(u.threads[t]) && !Holding(next)
    requires !TokenOf(u.trace).quiesced
    ensures Inv(End(u, t, next))
  {
    HolderLogs(u, End(u, t, next), t, next, Released(t));
  }

  lemma CheckStepKeepsInv(u: Updater, t: nat, a: Answer)
    requires Inv(u) && !u.exited && t in u.threads && u.threads[t].Check?
    ensures Inv(Advance(u, t, a))
  {
    var v := Advance(u, t, a);
    match u.threads[t].c
    case BeginCheck => TryBeginKeepsInv(u, t, Check(AskFeed));
    case AskFeed => HolderMoves(u, v, t, Check(EndCheck(a.found)));
    case EndCheck(found) => EndKeepsInv(u, t, Check(MayLoad(found)));
    case _ => FreeMoves(u, v, t, v.threads[t]);
  }

  lemma LoadStepKeepsInv(u: Updater, t: nat, a: Answer)
    requires Inv(u) && !u.exited && t in u.threads && u.threads[t].Load?
    ensures Inv(Advance(u, t, a))
  {
    var v := Advance(u, t, a);
    match u.threads[t].l
    case ReadAvailable => FreeMoves(u, v, t, v.threads[t]);
    case BeginLoad(asset) => TryBeginKeepsInv(u, t, Load(Stage(asset)));
    case Stage(asset) =>
      var r := Staged(u.cache, asset, a.download, a.verify).1;
      if r.Ok? { HolderLogs(u, v, t, Load(NoteStaged(r)), Admitted(t, r.value)); }
      else { HolderMoves(u, v, t, Load(NoteStaged(r))); }
    case NoteStaged(_) => HolderLogs(u, v, t, Load(EndLoad), Noted(t, v.staged));
    case EndLoad => EndKeepsInv(u, t, Finished);
  }

  lemma SelectKeepsInv(u: Updater, t: nat, a: Answer)
    requires Inv(u) && !u.exited && t in u.threads && u.threads[t] == Install(Select)
    ensures Inv(Advance(u, t, a))
  {
    var v := Advance(u, t, a);
    if !u.managed {
      HolderMoves(u, v, t, Install(EndInstall));
    } else if a.pick.Some? && Selectable(u.cache, a.pick.value, a.verify) {
      HolderLogs(u, v, t, Install(CheckHeld(a.pick.value)), Selected(t, a.pick.value));
    } else {
      HolderLogs(u, v, t, Install(EndInstall), Noted(t, None));
    }
  }

  /** The steps of `spawn_admitted`. */
  lemma ApplyStepKeepsInv(u: Updater, t: nat, a: Answer)
    requires Inv(u) && !u.exited && t in u.threads && u.threads[t].Install?
    requires u.threads[t].i.CheckHeld? || u.threads[t].i.Quiesce? || u.threads[t].i.Spawn?
    ensures Inv(Advance(u, t, a))
  {
    var v := Advance(u, t, a);
    match u.threads[t].i
    case CheckHeld(p) =>
      if OwnPath(u.dir, p) && StillHeld(u.cache, p) { HolderLogs(u, v, t, Install(Quiesce(p)), Checked(t, p)); }
      else { HolderMoves(u, v, t, Install(EndInstall)); }
    case Quiesce(p) => HolderLogs(u, v, t, Install(Spawn(p)), Quiesced(t));
    case Spawn(p) =>
      if StillHeld(u.cache, p) && a.spawns { HolderLogs(u, v, t, Finished, Started(t, p)); }
      else { HolderMoves(u, v, t, Install(Resume)); }
  }

  lemma InstallStepKeepsInv(u: Updater, t: nat, a: Answer)
    requires Inv(u) && !u.exited && t in u.threads && u.threads[t].Install?
    ensures Inv(Advance(u, t, a))
  {
    match u.threads[t].i
    case BeginInstall => TryBeginKeepsInv(u, t, Install(Select));
    case Select => SelectKeepsInv(u, t, a);
    case Resume => HolderLogs(u, Advance(u, t, a), t, Install(EndInstall), Resumed(t));
    case EndInstall => EndKeepsInv(u, t, Finished);
    case _ => ApplyStepKeepsInv(u, t, a);
  }

  lemma StepKeepsInv(u: Updater, e: Event)
    requires Inv(u)
    ensures Inv(Step(u, e))
  {
    if !u.exited && e.Move? && e.thread in u.threads {
      match u.threads[e.thread]
      case Check(_) => CheckStepKeepsInv(u, e.thread, e.answer);
      case Load(_) => LoadStepKeepsInv(u, e.thread, e.answer);
      case Install(_) => InstallStepKeepsInv(u, e.thread, e.answer);
      case Dismiss => FreeMoves(u, Advance(u, e.thread, e.answer), e.thread, Finished);
      case Finished =>
    }
  }

  lemma {:induction false} RunKeepsInv(start: Start, events: seq<Event>)
    ensures Inv(Run(start, events))
  {
    if events == [] {
    } else {
      RunKeepsInv(start, events[..|events| - 1]);
      StepKeepsInv(Run(start, events[..|events| - 1]), events[|events| - 1]);
    }
  }
}
