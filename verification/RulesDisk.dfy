/**
  Saving exclusion rules, step by step and byte by byte: create or truncate a sibling file named
  after the process, write it piece by piece, sync it, rename it over the rules file, remove it
  after a failure, and write the marker. The process or the machine may stop between any two
  steps; siblings it leaves behind survive into later launches.
*/
module RulesDisk {
  import opened Prelude
  import opened ExclusionRules
  import opened ExclusionStore

  /** The text of a set of rules, and what a text is read back as. */
  datatype Codec = Codec(encode: Rules -> Bytes, decode: Bytes -> Option<Rules>)

  ghost predicate RoundTrips(c: Codec) { forall r :: c.decode(c.encode(r)) == Some(r) }

  /** `unsynced` are the siblings, and `loose` says whether the rules file itself, holds bytes that
      have not reached the medium. */
  datatype Disk = Disk(file: Option<Bytes>, siblings: map<nat, Bytes>, marker: bool, unsynced: set<nat>, loose: bool)

  /** The step a save takes next. */
  datatype Stage = Creating | Writing(done: nat) | Syncing | Renaming | Removing | Marking

  datatype Job = Job(text: Bytes, stage: Stage)

  /** What the save belongs to. */
  datatype Op = Launched(legible: bool, seen: bool) | Edited(rules: Rules)

  datatype Proc = Proc(pid: nat, rules: Rules, available: bool, op: Op, job: Option<Job>)

  datatype World = World(disk: Disk, proc: Option<Proc>)

  function FileOf(c: Codec, file: Option<Bytes>): File {
    match file
    case None => Absent
    case Some(bytes) => if c.decode(bytes).Some? then Readable(c.decode(bytes).value) else Unreadable(bytes)
  }

  datatype Event =
    | Start(pid: nat, legible: bool, seen: bool)
    | Change(rules: Rules)
    | Act(ok: bool, n: nat)               // the save's next step; a write takes `n` bytes
    | Stop(torn: Option<Bytes>)           // what is left of bytes that were not synced

  predicate Idle(w: World) { w.proc.Some? && w.proc.value.job.None? }

  predicate Saving(w: World) { w.proc.Some? && w.proc.value.job.Some? }

  function Begin(c: Codec, w: World, pid: nat, legible: bool, seen: bool): World {
    var (rules, available, seeds) := Load(FileOf(c, w.disk.file), w.disk.marker && seen, legible);
    w.(proc := Some(Proc(pid, rules, available, Launched(legible, seen),
                         if seeds then Some(Job(c.encode(Normalized(rules)), Creating)) else None)))
  }

  function BeginEdit(c: Codec, w: World, rules: Rules): World
    requires w.proc.Some?
  {
    var n := Normalized(rules);
    w.(proc := Some(w.proc.value.(rules := n, op := Edited(rules), job := Some(Job(c.encode(Normalized(n)), Creating)))))
  }

  function Go(w: World, stage: Stage): World
    requires Saving(w)
  {
    w.(proc := Some(w.proc.value.(job := Some(w.proc.value.job.value.(stage := stage)))))
  }

  function Done(w: World): World
    requires w.proc.Some?
  {
    w.(proc := Some(w.proc.value.(job := None)))
  }

  function Sibling(w: World): Bytes
    requires w.proc.Some?
  {
    if w.proc.value.pid in w.disk.siblings then w.disk.siblings[w.proc.value.pid] else []
  }

  function SetSibling(w: World, bytes: Bytes): World
    requires w.proc.Some?
  {
    w.(disk := w.disk.(siblings := w.disk.siblings[w.proc.value.pid := bytes],
                       unsynced := w.disk.unsynced + {w.proc.value.pid}))
  }

  function SyncSibling(w: World): World
    requires w.proc.Some?
  {
    w.(disk := w.disk.(unsynced := w.disk.unsynced - {w.proc.value.pid}))
  }

  function DropSibling(w: World): World
    requires w.proc.Some?
  {
    w.(disk := w.disk.(siblings := w.disk.siblings - {w.proc.value.pid},
                       unsynced := w.disk.unsynced - {w.proc.value.pid}))
  }

  /** Append up to `n` more bytes of the text to the sibling. */
  function Write(w: World, n: nat): World
    requires Saving(w) && w.proc.value.job.value.stage.Writing?
  {
    var job := w.proc.value.job.value;
    var done := job.stage.done;
    var upTo := if done + n < |job.text| then done + n else |job.text|;
    var more := if done <= upTo then job.text[done..upTo] else [];
    Go(SetSibling(w, Sibling(w) + more), if upTo == |job.text| then Syncing else Writing(upTo))
  }

  /** The sibling, whatever it holds and synced or not, becomes the rules file; the policy counts
      as saved. */
  function Rename(w: World): World
    requires Saving(w)
  {
    var renamed := w.(disk := w.disk.(file := Some(Sibling(w)), loose := w.proc.value.pid in w.disk.unsynced));
    var marking := Go(DropSibling(renamed), Marking);
    marking.(proc := Some(marking.proc.value.(available := true)))
  }

  function Advance(w: World, ok: bool, n: nat): World
    requires Saving(w)
  {
    match w.proc.value.job.value.stage
    case Creating => if ok then Go(SetSibling(w, []), Writing(0)) else Done(w)
    case Writing(_) => if ok then Write(w, n) else Go(w, Removing)
    case Syncing => if ok then Go(SyncSibling(w), Renaming) else Go(w, Removing)
    case Renaming => if ok then Rename(w) else Go(w, Removing)
    case Removing => Done(if ok then DropSibling(w) else w)
    case Marking => Done(if ok then w.(disk := w.disk.(marker := true)) else w)
  }

  /** The process ends, or the machine loses power: bytes that were not synced may come back as
      anything, in a sibling and in the rules file alike. */
  function Halt(w: World, torn: Option<Bytes>): World {
    var d := w.disk;
    var siblings := if torn.Some? then map q | q in d.siblings :: if q in d.unsynced then torn.value else d.siblings[q] else d.siblings;
    var file := if torn.Some? && d.loose then torn else d.file;
    World(Disk(file, siblings, d.marker, {}, false), None)
  }

  function Step(c: Codec, w: World, e: Event): World {
    match e
    case Start(pid, legible, seen) => if w.proc.None? then Begin(c, w, pid, legible, seen) else w
    case Change(rules) => if Idle(w) then BeginEdit(c, w, rules) else w
    case Act(ok, n) => if Saving(w) then Advance(w, ok, n) else w
    case Stop(torn) => Halt(w, torn)
  }

  function Run(c: Codec, start: World, events: seq<Event>): World {
    if events == [] then start
    else Step(c, Run(c, start, events[..|events| - 1]), events[|events| - 1])
  }

  lemma RunSnoc(c: Codec, start: World, events: seq<Event>, e: Event)
    ensures Run(c, start, events + [e]) == Step(c, Run(c, start, events), e)
  {
    assert (events + [e])[..|events|] == events;
  }

  // ----- the file is whole ------------------------------------------------------------

  /** What the sibling holds at each stage. */
  ghost predicate JobInv(w: World) {
    !w.disk.loose &&
    (Saving(w) ==>
      var job := w.proc.value.job.value;
      match job.stage
      case Writing(done) => done <= |job.text| && Sibling(w) == job.text[..done]
      case Syncing => Sibling(w) == job.text
      case Renaming => Sibling(w) == job.text && w.proc.value.pid !in w.disk.unsynced
      case Marking => w.disk.file == Some(job.text)
      case _ => true)
  }

  lemma StepKeepsJobInv(c: Codec, w: World, e: Event)
    requires JobInv(w)
    ensures JobInv(Step(c, w, e))
  {
  }

  /** A step leaves the file alone, or puts the whole text being saved in its place. */
  lemma StepKeepsFile(c: Codec, w: World, e: Event)
    requires JobInv(w)
    ensures Step(c, w, e).disk.file == w.disk.file
            || (Saving(w) && Step(c, w, e).disk.file == Some(w.proc.value.job.value.text))
  {
  }

  /** Event `i` asks for the rules `r` to be saved: an edit, or a launch that seeds or merges. */
  ghost predicate AskedAt(c: Codec, start: World, events: seq<Event>, i: nat, r: Rules) {
    && i < |events|
    && var w := Run(c, start, events[..i]);
       match events[i]
       case Start(_, legible, seen) =>
         && w.proc.None?
         && var (rules, _, seeds) := Load(FileOf(c, w.disk.file), w.disk.marker && seen, legible);
            seeds && r == Normalized(rules)
       case Change(rules) => Idle(w) && r == Normalized(rules)
       case _ => false
  }

  /** The bytes are the complete text of rules some event asked to save. */
  ghost predicate Complete(c: Codec, start: World, events: seq<Event>, bytes: Bytes) {
    exists i: nat, r :: AskedAt(c, start, events, i, r) && Normalized(r) == r && bytes == c.encode(r)
  }

  lemma AskedLonger(c: Codec, start: World, events: seq<Event>, i: nat, r: Rules)
    requires events != [] && AskedAt(c, start, events[..|events| - 1], i, r)
    ensures AskedAt(c, start, events, i, r)
  {
    assert events[..|events| - 1][..i] == events[..i];
  }

  lemma CompleteLonger(c: Codec, start: World, events: seq<Event>, bytes: Bytes)
    requires events != [] && Complete(c, start, events[..|events| - 1], bytes)
    ensures Complete(c, start, events, bytes)
  {
    var i: nat, r :| AskedAt(c, start, events[..|events| - 1], i, r) && Normalized(r) == r && bytes == c.encode(r);
    AskedLonger(c, start, events, i, r);
  }

  /** A save that begins was asked for by the event that began it. */
  lemma NewJobIsAsked(c: Codec, start: World, events: seq<Event>)
    requires events != []
    requires
      var w, v := Run(c, start, events[..|events| - 1]), Run(c, start, events);
      Saving(v) && !Saving(w)
    ensures Complete(c, start, events, Run(c, start, events).proc.value.job.value.text)
  {
    var n := |events| - 1;
    var w := Run(c, start, events[..n]);
    match events[n]
    case Start(_, legible, seen) =>
      var rules := Load(FileOf(c, w.disk.file), w.disk.marker && seen, legible).0;
      NormalizedIdempotent(rules);
      assert AskedAt(c, start, events, n, Normalized(rules));
    case Change(rules) =>
      NormalizedIdempotent(rules);
      assert AskedAt(c, start, events, n, Normalized(rules));
    case _ =>
  }

  lemma OldJobKeepsText(c: Codec, w: World, e: Event)
    requires Saving(w) && Saving(Step(c, w, e))
    ensures Step(c, w, e).proc.value.job.value.text == w.proc.value.job.value.text
  {
  }

  lemma {:induction false} SaveInv(c: Codec, start: World, events: seq<Event>)
    requires start.proc.None? && !start.disk.loose
    ensures
      var w := Run(c, start, events);
      && JobInv(w)
      && (Saving(w) ==> Complete(c, start, events, w.proc.value.job.value.text))
      && (w.disk.file == start.disk.file || (w.disk.file.Some? && Complete(c, start, events, w.disk.file.value)))
  {
    if events == [] {
    } else {
      var n := |events| - 1;
      var w, v := Run(c, start, events[..n]), Run(c, start, events);
      SaveInv(c, start, events[..n]);
      StepKeepsJobInv(c, w, events[n]);
      StepKeepsFile(c, w, events[n]);
      if Saving(w) { CompleteLonger(c, start, events, w.proc.value.job.value.text); }
      if Saving(w) && Saving(v) { OldJobKeepsText(c, w, events[n]); }
      if Saving(v) && !Saving(w) { NewJobIsAsked(c, start, events); }
      if w.disk.file != start.disk.file { CompleteLonger(c, start, events, w.disk.file.value); }
    }
  }

  /** Over every run, stopped anywhere: the rules file holds its prior bytes, or the complete
      text of canonical rules that an edit or a launch asked to save - never a part of one, and
      never what an earlier process left in a sibling. */
  lemma FileIsWhole(c: Codec, start: World, events: seq<Event>)
    requires start.proc.None? && !start.disk.loose
    ensures
      var file := Run(c, start, events).disk.file;
      file == start.disk.file || (file.Some? && Complete(c, start, events, file.value))
  {
    SaveInv(c, start, events);
  }
}
