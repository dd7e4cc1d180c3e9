/**
  Exclusion rules across launches, as a policy: a rules file, and a marker that the one-time
  merge of the password-manager defaults has been saved. A save completes, fails, or ends with
  the process; RulesDisk.dfy shows that this is all the steps of a save can come to.
*/
module ExclusionStore {
  import opened Prelude
  import opened Text
  import opened ExclusionRules

  type Bytes = seq<int>

  datatype File = Absent | Readable(rules: Rules) | Unreadable(bytes: Bytes)

  /** The running controller. */
  datatype Live = Live(rules: Rules, available: bool)

  datatype Store = Store(file: File, marker: bool, live: Option<Live>)

  /** How one save goes: it fails, it completes, or the process dies before or after the rename. */
  datatype SaveFate = Fails | Completes | DiesBefore | DiesAfter

  predicate Renames(fate: SaveFate) { fate.Completes? || fate.DiesAfter? }

  predicate Dies(fate: SaveFate) { fate.DiesBefore? || fate.DiesAfter? }

  function Persist(s: Store, rules: Rules, fate: SaveFate): Store {
    if Renames(fate) then s.(file := Readable(Normalized(rules))) else s
  }

  /** What `load_rules` makes of the file; `legible` is false on a transient read error, and
      `marker` is what the look for the marker found. */
  function Load(file: File, marker: bool, legible: bool): (Rules, bool, bool) {
    match file
    case Absent => (Normalized(DEFAULT), true, true)
    case Readable(r) =>
      if !legible then (Normalized(DEFAULT), false, false)
      else if !marker then (WithPasswordManagers(Normalized(r)), true, true)
      else (Normalized(r), true, false)
    case Unreadable(_) => (Normalized(DEFAULT), false, false)
  }

  /** Case by case, what a launch goes by: the defaults on a fresh install, the owner's own rules
      when the marker is seen, those and the defaults when it is not, and the defaults without
      being available when the file is there and cannot be read. Only the second and the last
      are not saved back. */
  lemma LoadMeans(file: File, marker: bool, legible: bool)
    ensures
      var (rules, available, seeds) := Load(file, marker, legible);
      && (available <==> file.Absent? || (file.Readable? && legible))
      && (seeds <==> file.Absent? || (file.Readable? && legible && !marker))
      && (!available || file.Absent? ==> rules.exes == Dedupe(PASSWORD_MANAGERS) && rules.titles == [] && rules.privateBrowsing)
      && (available && file.Readable? ==>
            && rules.titles == Dedupe(file.rules.titles) && rules.privateBrowsing == file.rules.privateBrowsing
            && forall x :: x in rules.exes <==> x in Dedupe(file.rules.exes) || (!marker && x in Dedupe(PASSWORD_MANAGERS)))
  {
    if file.Readable? {
      NormalizedIdempotent(file.rules);
      MergeExact(Normalized(file.rules));
    }
  }

  /** The defaults name each of the seven password managers. */
  lemma DefaultsAreListed(x: string)
    requires x in ["1password.exe", "bitwarden.exe", "keepass.exe", "keepassxc.exe", "keeperpasswordmanager.exe",
                   "lastpass for desktop.exe", "protonpass.exe"]
    ensures x in Dedupe(PASSWORD_MANAGERS)
  {
    assert Trimmed(x) && forall i :: 0 <= i < |x| ==> LowerChar(x[i]) == x[i];
    CanonOf(x);
    var k :| 0 <= k < |PASSWORD_MANAGERS| && PASSWORD_MANAGERS[k] == x;
    DedupeHolds(PASSWORD_MANAGERS, x);
  }

  /** Only a policy that could be loaded is saved back. */
  lemma SeedsAreAvailable(file: File, marker: bool, legible: bool)
    ensures Load(file, marker, legible).2 ==> Load(file, marker, legible).1
  {
  }

  /** `ExclusionController::new`. A marker whose metadata cannot be read is not `seen`. */
  function Launch(s: Store, legible: bool, seen: bool, fate: SaveFate, marks: bool): Store {
    var (rules, available, seeds) := Load(s.file, s.marker && seen, legible);
    var live := s.(live := Some(Live(rules, available)));
    if !seeds then live
    else
      var saved := Persist(live, rules, fate);
      if Dies(fate) then saved.(live := None)
      else saved.(marker := s.marker || (fate.Completes? && marks))
  }

  /** `ExclusionController::set`. */
  function Edit(s: Store, rules: Rules, fate: SaveFate, marks: bool): Store
    requires s.live.Some?
  {
    var saved := Persist(s, rules, fate);
    if Dies(fate) then saved.(live := None)
    else saved.(
      live := Some(Live(Normalized(rules), s.live.value.available || fate.Completes?)),
      marker := s.marker || (fate.Completes? && marks))
  }

  datatype Event =
    | ELaunch(legible: bool, seen: bool, fate: SaveFate, marks: bool)
    | EEdit(rules: Rules, fate: SaveFate, marks: bool)
    | EQuit

  function Step(s: Store, e: Event): Store {
    match e
    case ELaunch(legible, seen, fate, marks) => Launch(s, legible, seen, fate, marks)
    case EEdit(rules, fate, marks) => if s.live.Some? then Edit(s, rules, fate, marks) else s
    case EQuit => s.(live := None)
  }

  function Run(s: Store, events: seq<Event>): Store {
    if events == [] then s
    else Step(Run(s, events[..|events| - 1]), events[|events| - 1])
  }

  // ----- an unreadable policy ---------------------------------------------------------

  predicate SavesEdit(e: Event) { e.EEdit? && Renames(e.fate) }

  /** An unreadable file keeps its bytes, and the policy stays unavailable, through any launches
      and failed edits, until an edit is saved. */
  lemma {:induction false} UnreadableStays(start: Store, events: seq<Event>)
    requires start.file.Unreadable? && (start.live.Some? ==> !start.live.value.available)
    requires forall e :: e in events ==> !SavesEdit(e)
    ensures
      var s := Run(start, events);
      s.file == start.file && s.marker == start.marker && (s.live.Some? ==> !s.live.value.available)
  {
    if events == [] {
    } else {
      var before := events[..|events| - 1];
      assert forall e :: e in before ==> e in events;
      UnreadableStays(start, before);
      assert !SavesEdit(events[|events| - 1]);
    }
  }

  /** The first saved edit repairs it: the file is the edit, and the policy is available. */
  lemma SavedEditRepairs(s: Store, rules: Rules, marks: bool)
    requires s.live.Some?
    ensures
      var t := Edit(s, rules, Completes, marks);
      && t.file == Readable(Normalized(rules))
      && t.live == Some(Live(Normalized(rules), true))
      && Load(t.file, true, true) == (Normalized(rules), true, false)
  {
    NormalizedIdempotent(rules);
  }

  // ----- the one-time merge -----------------------------------------------------------

  /** `x` is excluded neither on disk nor in memory, and the merge is behind us. */
  ghost predicate Gone(s: Store, x: string) {
    && s.marker
    && s.file.Readable? && x !in Normalized(s.file.rules).exes
    && (s.live.Some? && s.live.value.available ==> x !in s.live.value.rules.exes)
  }

  lemma StepKeepsGone(s: Store, e: Event, x: string)
    requires Gone(s, x)
    requires e.EEdit? ==> x !in Normalized(e.rules).exes
    requires e.ELaunch? ==> e.seen
    ensures Gone(Step(s, e), x)
  {
    match e
    case EEdit(rules, _, _) => NormalizedIdempotent(rules);
    case _ =>
  }

  /** Once the marker exists, and while every launch sees it, an app the owner removed is never
      added back by a launch, a failed save or a crash: only by an edit that names it. */
  lemma {:induction false} RemovedAppStaysRemoved(start: Store, events: seq<Event>, x: string)
    requires Gone(start, x)
    requires forall e :: e in events && e.EEdit? ==> x !in Normalized(e.rules).exes
    requires forall e :: e in events && e.ELaunch? ==> e.seen
    ensures Gone(Run(start, events), x)
  {
    if events == [] {
    } else {
      var before := events[..|events| - 1];
      assert forall e :: e in before ==> e in events;
      RemovedAppStaysRemoved(start, before, x);
      StepKeepsGone(Run(start, before), events[|events| - 1], x);
    }
  }

  /** With a readable file, a launch loads a removed default again exactly when it does not see
      the marker; when it does, it loads what is on disk and writes nothing. */
  lemma LaunchAddsExactlyWithoutMarker(s: Store, seen: bool, fate: SaveFate, marks: bool, x: string)
    requires s.file.Readable? && !Dies(fate)
    requires x in Dedupe(PASSWORD_MANAGERS) && x !in Normalized(s.file.rules).exes
    ensures x in Launch(s, true, seen, fate, marks).live.value.rules.exes <==> !(s.marker && seen)
    ensures s.marker && seen ==> Launch(s, true, seen, fate, marks) == s.(live := Some(Live(Normalized(s.file.rules), true)))
  {
    NormalizedIdempotent(s.file.rules);
    MergeExact(Normalized(s.file.rules));
  }

  /** Launching again after a lost marker write changes neither the file nor what is loaded. */
  lemma MergeAgainAddsNothing(s: Store, seen: bool, marks: bool, seenAgain: bool, fate: SaveFate, marksAgain: bool)
    requires s.file.Readable? && !(s.marker && seen) && !Dies(fate)
    ensures
      var once := Launch(s, true, seen, Completes, marks);
      var twice := Launch(once, true, seenAgain, fate, marksAgain);
      twice.file == once.file && twice.live == once.live
  {
    var n := Normalized(s.file.rules);
    NormalizedIdempotent(n.(exes := n.exes + PASSWORD_MANAGERS));
    LaunchOfMerged(Launch(s, true, seen, Completes, marks), seenAgain, fate, marksAgain, WithPasswordManagers(n));
    MergeIdempotent(n);
  }

  lemma LaunchOfMerged(s: Store, seen: bool, fate: SaveFate, marks: bool, m: Rules)
    requires s.file == Readable(m) && Normalized(m) == m && !Dies(fate)
    ensures WithPasswordManagers(m) == m ==>
              Launch(s, true, seen, fate, marks).file == s.file && Launch(s, true, seen, fate, marks).live == Some(Live(m, true))
  {
  }

  const SLACK_ONLY := Rules(["slack.exe"], [], true)

  /** A saved edit does not protect itself when its marker write fails: every default it left
      out is back at the next launch. */
  lemma RemovedAppReturnsWithoutMarker(s: Store, rules: Rules, seen: bool, fate: SaveFate, marks: bool, x: string)
    requires s.live.Some? && !s.marker && !Dies(fate)
    requires x in Dedupe(PASSWORD_MANAGERS) && x !in Normalized(rules).exes
    ensures
      var edited := Edit(s, rules, Completes, false);
      && edited.file == Readable(Normalized(rules))
      && x in Launch(edited, true, seen, fate, marks).live.value.rules.exes
  {
    NormalizedIdempotent(rules);
    LaunchAddsExactlyWithoutMarker(Edit(s, rules, Completes, false), seen, fate, marks, x);
  }

  /** Such an edit exists: keep only one app of your own, on a first launch whose marker write failed. */
  lemma KeepassReturns()
    ensures
      var first := Launch(Store(Absent, false, None), true, true, Completes, false);
      var edited := Edit(first, SLACK_ONLY, Completes, false);
      && "keepass.exe" !in edited.live.value.rules.exes
      && "keepass.exe" in Launch(edited, true, true, Completes, false).live.value.rules.exes
  {
    CanonOf("slack.exe");
    CanonOf("keepass.exe");
    DedupeFixed(["slack.exe"]);
    DedupeExact(PASSWORD_MANAGERS);
    assert PASSWORD_MANAGERS[2] == "keepass.exe";
    var first := Launch(Store(Absent, false, None), true, true, Completes, false);
    RemovedAppReturnsWithoutMarker(first, SLACK_ONLY, true, Completes, false, "keepass.exe");
  }

  lemma CanonOf(s: string)
    requires Trimmed(s) && forall i :: 0 <= i < |s| ==> LowerChar(s[i]) == s[i]
    ensures Canon(s) == s
  {
  }
}
