/**
  The exclusion controller as it is written, on real files. Its history lists the steps taken;
  `Valid` says that the files and the variables are where that run of steps leaves them, so a
  crash between any two statements is a run that RulesDisk.dfy speaks of.
*/
module ExclusionCode {
  import opened Prelude
  import opened ExclusionRules
  import opened ExclusionStore
  import opened D = RulesDisk
  import opened RulesRefinement

  /** What the file system answers to one save. `chunks` are the sizes of partial writes. */
  datatype Answers = Answers(
    creates: bool, chunks: seq<nat>, writes: bool, syncs: bool, renames: bool, removes: bool,
    seesMarker: bool, marks: bool)

  predicate Succeeds(f: Answers) { f.creates && f.writes && f.syncs && f.renames }

  class Files {
    var file: Option<Bytes>
    var siblings: map<nat, Bytes>
    var marker: bool
    ghost var unsynced: set<nat>   // siblings with bytes that have not reached the medium
    ghost var loose: bool          // and whether the rules file has
  }

  method NormalizeRules(rules: Rules) returns (n: Rules)
    ensures n == Normalized(rules)
  {
    var exes := DedupeLower(rules.exes);
    var titles := DedupeLower(rules.titles);
    n := Rules(exes, titles, rules.privateBrowsing);
  }

  /** `load_rules` and the choice `new` makes of its outcome. */
  method LoadRules(file: File, marker: bool, legible: bool) returns (rules: Rules, available: bool, seeds: bool)
    ensures (rules, available, seeds) == Load(file, marker, legible)
  {
    match file {
      case Absent =>
        rules := NormalizeRules(DEFAULT);
        available, seeds := true, true;
      case Unreadable(_) =>
        rules := NormalizeRules(DEFAULT);
        available, seeds := false, false;
      case Readable(saved) =>
        if !legible {
          rules := NormalizeRules(DEFAULT);
          return rules, false, false;
        }
        rules := NormalizeRules(saved);
        if !marker {
          rules := NormalizeRules(rules.(exes := rules.exes + PASSWORD_MANAGERS));
        }
        available, seeds := true, !marker;
    }
  }

  /** What the first event of a run leaves. */
  lemma LaunchIs(c: Codec, start: World, pid: nat, legible: bool, seen: bool, rules: Rules, available: bool, seeds: bool)
    requires start.proc.None?
    requires (rules, available, seeds) == Load(FileOf(c, start.disk.file), start.disk.marker && seen, legible)
    ensures
      var job := if seeds then Some(Job(c.encode(Normalized(rules)), Creating)) else None;
      D.Run(c, start, [Start(pid, legible, seen)]) ==
        World(start.disk, Some(Proc(pid, rules, available, Launched(legible, seen), job)))
  {
    RunSnoc(c, start, [], Start(pid, legible, seen));
    assert [] + [Start(pid, legible, seen)] == [Start(pid, legible, seen)];
  }

  class ExclusionController {
    const files: Files
    const codec: Codec
    const pid: nat
    var rules: Rules
    var available: bool
    var shouldSeed: bool
    ghost const start: World
    ghost var op: Op
    ghost var job: Option<Job>
    ghost var events: seq<D.Event>

    ghost function View(): World
      reads this, files
    {
      World(Disk(files.file, files.siblings, files.marker, files.unsynced, files.loose), Some(Proc(pid, rules, available, op, job)))
    }

    ghost predicate Valid()
      reads this, files
    {
      start.proc.None? && !start.disk.loose && View() == D.Run(codec, start, events)
    }

    /** What is proved of runs holds of these files: the rules file is whole and on the medium, and files and
        controller are where a run of whole launches and edits leaves them. */
    lemma FollowsPolicy()
      requires Valid()
      ensures files.file == start.disk.file || (files.file.Some? && Complete(codec, start, events, files.file.value))
      ensures !files.loose
      ensures RoundTrips(codec) ==>
                Abs(codec, View()) == ExclusionStore.Run(Abs(codec, start), Seen(codec, start, events))
    {
      FileIsWhole(codec, start, events);
      SaveInv(codec, start, events);
      if RoundTrips(codec) { StepsRefineStore(codec, start, events); }
    }

    /** The step just taken joins the history. */
    ghost method Note(before: World, e: D.Event)
      requires start.proc.None? && !start.disk.loose && before == D.Run(codec, start, events) && View() == D.Step(codec, before, e)
      modifies this`events
      ensures Valid() && events == old(events) + [e]
    {
      RunSnoc(codec, start, events, e);
      events := events + [e];
    }

    /** One write that does not finish the text. */
    method WriteSome(text: Bytes, done: nat, n: nat)
      requires Valid() && job == Some(Job(text, Writing(done))) && done + n < |text|
      requires pid in files.siblings && files.siblings[pid] == text[..done]
      modifies this`job, this`events, files`siblings, files`unsynced
      ensures Valid() && job == Some(Job(text, Writing(done + n)))
      ensures files.siblings == old(files.siblings)[pid := text[..done + n]]
    {
      ghost var before := View();
      files.siblings := files.siblings[pid := files.siblings[pid] + text[done..done + n]];
      files.unsynced := files.unsynced + {pid};
      assert text[..done] + text[done..done + n] == text[..done + n];
      job := Some(Job(text, Writing(done + n)));
      Note(before, Act(true, n));
    }

    /** The write that does. */
    method WriteRest(text: Bytes, done: nat)
      requires Valid() && job == Some(Job(text, Writing(done))) && done <= |text|
      requires pid in files.siblings && files.siblings[pid] == text[..done]
      modifies this`job, this`events, files`siblings, files`unsynced
      ensures Valid() && job == Some(Job(text, Syncing))
      ensures files.siblings == old(files.siblings)[pid := text]
    {
      ghost var before := View();
      files.siblings := files.siblings[pid := files.siblings[pid] + text[done..]];
      files.unsynced := files.unsynced + {pid};
      assert text[..done] + text[done..] == text && text[done..|text|] == text[done..];
      job := Some(Job(text, Syncing));
      Note(before, Act(true, |text| - done));
    }

    /** Write the whole text into the sibling, piece by piece. */
    method WriteAll(text: Bytes, f: Answers) returns (ok: bool)
      requires Valid() && job == Some(Job(text, Writing(0))) && pid in files.siblings && files.siblings[pid] == []
      modifies this`job, this`events, files`siblings, files`unsynced
      ensures Valid() && ok == f.writes && job == Some(Job(text, if ok then Syncing else Removing))
      ensures pid in files.siblings && files.siblings - {pid} == old(files.siblings) - {pid}
      ensures ok ==> files.siblings[pid] == text
    {
      var done: nat := 0;
      var k := 0;
      while k < |f.chunks| && done + f.chunks[k] < |text|
        invariant k <= |f.chunks| && done <= |text| && Valid() && job == Some(Job(text, Writing(done)))
        invariant pid in files.siblings && files.siblings[pid] == text[..done]
        invariant files.siblings - {pid} == old(files.siblings) - {pid}
      {
        WriteSome(text, done, f.chunks[k]);
        done, k := done + f.chunks[k], k + 1;
      }
      if f.writes {
        WriteRest(text, done);
        return true;
      }
      ghost var before := View();
      job := Some(Job(text, Removing));
      Note(before, Act(false, 0));
      ok := false;
    }

    /** After a failure: try to remove the sibling, and give up the save. */
    method RemoveSibling(f: Answers)
      requires Valid() && job.Some? && job.value.stage.Removing?
      modifies this`job, this`events, files`siblings, files`unsynced
      ensures Valid() && job.None?
      ensures files.siblings == if f.removes then old(files.siblings) - {pid} else old(files.siblings)
    {
      ghost var before := View();
      if f.removes {
        files.siblings := files.siblings - {pid};
        files.unsynced := files.unsynced - {pid};
      }
      job := None;
      Note(before, Act(f.removes, 0));
    }

    /** Sync the sibling. */
    method SyncSibling(text: Bytes, f: Answers)
      requires Valid() && job == Some(Job(text, Syncing))
      modifies this`job, this`events, files`unsynced
      ensures Valid() && job == Some(Job(text, if f.syncs then Renaming else Removing))
    {
      ghost var before := View();
      if f.syncs {
        files.unsynced := files.unsynced - {pid};
      }
      job := Some(Job(text, if f.syncs then Renaming else Removing));
      Note(before, Act(f.syncs, 0));
    }

    /** Rename the sibling over the rules file. */
    method RenameSibling(text: Bytes, f: Answers)
      requires Valid() && job == Some(Job(text, Renaming)) && pid in files.siblings && files.siblings[pid] == text
      modifies this`job, this`events, this`available, files`siblings, files`unsynced, files`loose, files`file
      ensures Valid() && job == Some(Job(text, if f.renames then Marking else Removing))
      ensures files.siblings == if f.renames then old(files.siblings) - {pid} else old(files.siblings)
      ensures files.file == if f.renames then Some(text) else old(files.file)
      ensures available == (old(available) || f.renames)
    {
      ghost var before := View();
      if f.renames {
        files.file := Some(files.siblings[pid]);
        files.siblings := files.siblings - {pid};
        files.loose := pid in files.unsynced;
        files.unsynced := files.unsynced - {pid};
        available := true;
      }
      job := Some(Job(text, if f.renames then Marking else Removing));
      Note(before, Act(f.renames, 0));
    }

    /** Create the sibling, or truncate one that an earlier process with this id left. */
    method CreateSibling(text: Bytes, f: Answers)
      requires Valid() && job == Some(Job(text, Creating))
      modifies this`job, this`events, files`siblings, files`unsynced
      ensures Valid() && job == if f.creates then Some(Job(text, Writing(0))) else None
      ensures files.siblings == if f.creates then old(files.siblings)[pid := []] else old(files.siblings)
    {
      ghost var before := View();
      if f.creates {
        files.siblings := files.siblings[pid := []];
        files.unsynced := files.unsynced + {pid};
      }
      job := if f.creates then Some(Job(text, Writing(0))) else None;
      Note(before, Act(f.creates, 0));
    }

    /** Sync and rename. */
    method Publish(text: Bytes, f: Answers) returns (ok: bool)
      requires Valid() && job == Some(Job(text, Syncing)) && pid in files.siblings && files.siblings[pid] == text
      modifies this`job, this`events, this`available, files`siblings, files`unsynced, files`loose, files`file
      ensures Valid() && ok == (f.syncs && f.renames) && job == Some(Job(text, if ok then Marking else Removing))
      ensures files.siblings == if ok then old(files.siblings) - {pid} else old(files.siblings)
      ensures files.file == if ok then Some(text) else old(files.file)
      ensures available == (old(available) || ok)
    {
      SyncSibling(text, f);
      if !f.syncs {
        return false;
      }
      RenameSibling(text, f);
      ok := f.renames;
    }

    /** Fill the sibling and put it in the file's place, or clear it away. */
    method SaveText(text: Bytes, f: Answers) returns (ok: bool)
      requires Valid() && job == Some(Job(text, Writing(0))) && pid in files.siblings && files.siblings[pid] == []
      modifies this`job, this`events, this`available, files`siblings, files`unsynced, files`loose, files`file
      ensures Valid() && ok == (f.writes && f.syncs && f.renames)
      ensures job == if ok then Some(Job(text, Marking)) else None
      ensures files.file == if ok then Some(text) else old(files.file)
      ensures files.siblings - {pid} == old(files.siblings) - {pid}
      ensures ok || f.removes ==> pid !in files.siblings
      ensures available == (old(available) || ok)
    {
      ok := WriteAll(text, f);
      if ok {
        ok := Publish(text, f);
      }
      if !ok {
        RemoveSibling(f);
      }
    }

    /** `persist_rules`: the rules file is replaced by the complete text of the rules or left as
        it is, no other process's sibling is touched, and a sibling of this one is left behind
        only by a failure whose removal failed too. */
    method PersistRules(f: Answers) returns (ok: bool)
      requires Valid() && job == Some(Job(codec.encode(Normalized(rules)), Creating))
      modifies this`job, this`events, this`available, files`siblings, files`unsynced, files`loose, files`file
      ensures Valid() && ok == Succeeds(f)
      ensures job == if ok then Some(Job(codec.encode(Normalized(rules)), Marking)) else None
      ensures files.file == if ok then Some(codec.encode(Normalized(rules))) else old(files.file)
      ensures files.siblings - {pid} == old(files.siblings) - {pid}
      ensures ok || (f.creates && f.removes) ==> pid !in files.siblings
      ensures available == (old(available) || ok)
    {
      var normalized := NormalizeRules(rules);
      var text := codec.encode(normalized);
      CreateSibling(text, f);
      if !f.creates {
        return false;
      }
      ok := SaveText(text, f);
    }

    /** Write the marker unless it is seen to be there. */
    method MarkAdded(f: Answers)
      requires Valid() && job.Some? && job.value.stage.Marking?
      modifies this`job, this`events, files`marker
      ensures Valid() && job.None?
      ensures files.marker == (old(files.marker) || f.marks)
    {
      ghost var before := View();
      var writes := !(files.marker && f.seesMarker);
      if writes && f.marks {
        files.marker := true;
      }
      job := None;
      Note(before, Act(writes && f.marks, 0));
    }

    /** Save what the launch asks to save. */
    method Seed(f: Answers)
      requires Valid() && available && job == Some(Job(codec.encode(Normalized(rules)), Creating))
      modifies this`job, this`events, this`available, files
      ensures Valid() && job.None? && available
      ensures files.file == if Succeeds(f) then Some(codec.encode(Normalized(rules))) else old(files.file)
      ensures files.marker == (old(files.marker) || (Succeeds(f) && f.marks))
    {
      var ok := PersistRules(f);
      if ok {
        MarkAdded(f);
      }
    }

    /** The part of `new` before any save. */
    constructor Load(files: Files, codec: Codec, pid: nat, legible: bool, seesMarker: bool)
      requires !files.loose
      ensures this.files == files && this.codec == codec && this.pid == pid && Valid()
      ensures (rules, available, shouldSeed) == ExclusionStore.Load(FileOf(codec, files.file), files.marker && seesMarker, legible)
      ensures shouldSeed ==> available && job == Some(Job(codec.encode(Normalized(rules)), Creating))
      ensures !shouldSeed ==> job.None?
    {
      this.files, this.codec, this.pid := files, codec, pid;
      var loaded, isAvailable, seeds := LoadRules(FileOf(codec, files.file), files.marker && seesMarker, legible);
      SeedsAreAvailable(FileOf(codec, files.file), files.marker && seesMarker, legible);
      ghost var before := World(Disk(files.file, files.siblings, files.marker, files.unsynced, files.loose), None);
      ghost var save := if seeds then Some(Job(codec.encode(Normalized(loaded)), Creating)) else None;
      LaunchIs(codec, before, pid, legible, seesMarker, loaded, isAvailable, seeds);
      rules, available, shouldSeed := loaded, isAvailable, seeds;
      start := before;
      op, job := Launched(legible, seesMarker), save;
      events := [Start(pid, legible, seesMarker)];
    }

    /** `new`: what is loaded takes effect; only a seed or a merge is saved, and a policy that
        could not be loaded leaves file and marker as they are. */
    static method New(files: Files, codec: Codec, pid: nat, legible: bool, f: Answers) returns (c: ExclusionController)
      requires !files.loose
      modifies files
      ensures fresh(c) && c.files == files && c.codec == codec && c.Valid() && c.job.None?
      ensures
        var loaded := ExclusionStore.Load(FileOf(codec, old(files.file)), old(files.marker) && f.seesMarker, legible);
        && c.rules == loaded.0 && c.available == loaded.1
        && files.file == (if loaded.2 && Succeeds(f) then Some(codec.encode(Normalized(c.rules))) else old(files.file))
        && files.marker == (old(files.marker) || (loaded.2 && Succeeds(f) && f.marks))
      ensures !c.available ==> files.file == old(files.file) && files.marker == old(files.marker)
    {
      c := new ExclusionController.Load(files, codec, pid, legible, f.seesMarker);
      if c.shouldSeed {
        c.Seed(f);
      }
    }

    /** `set`: the rules take effect in memory at once; the answer says whether the file now holds
        their complete text, and if not the file is what it was. */
    method Set(edited: Rules, f: Answers) returns (persisted: bool)
      requires Valid() && job.None?
      modifies this, files
      ensures Valid() && job.None?
      ensures rules == Normalized(edited) && persisted == Succeeds(f)
      ensures files.file == if persisted then Some(codec.encode(Normalized(edited))) else old(files.file)
      ensures available == (old(available) || persisted)
      ensures files.marker == (old(files.marker) || (persisted && f.marks))
    {
      ghost var before := View();
      rules := NormalizeRules(edited);
      NormalizedIdempotent(edited);
      op, job := Edited(edited), Some(Job(codec.encode(Normalized(rules)), Creating));
      Note(before, Change(edited));
      persisted := PersistRules(f);
      if persisted {
        MarkAdded(f);
      }
    }
  }
}
