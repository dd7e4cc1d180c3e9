/**
  The recursive directory walk that inventories a release artifact: every name is checked
  against the path grammar and for case collisions, and anything that is neither a regular
  file nor a directory refuses the whole walk.
*/
module ArtifactWalk {
  import opened Prelude
  import opened ArtifactPaths

  /** A directory's entries in the order the file system lists them. `clean` entries could be
      read, have a readable name, are no reparse points and have an allowed mode. */
  datatype Node = Regular | Special | Folder(entries: seq<Entry>)
  datatype Entry = Entry(name: string, clean: bool, node: Node)

  function Child(relative: string, name: string): string {
    if relative == "" then name else relative + "/" + name
  }

  /** One visited entry. */
  datatype Item = Item(path: string, clean: bool, kind: Kind)
  datatype Kind = KFile | KFolder | KSpecial

  function KindOf(node: Node): Kind {
    match node
    case Regular => KFile
    case Special => KSpecial
    case Folder(_) => KFolder
  }

  /** Everything below a directory, in the order of the walk. */
  function Listing(entries: seq<Entry>, relative: string): seq<Item>
    decreases entries
  {
    if entries == [] then []
    else
      var init, e := entries[..|entries| - 1], entries[|entries| - 1];
      Listing(init, relative) + Visit(e, relative)
  }

  /** One entry and everything below it. */
  function Visit(e: Entry, relative: string): seq<Item>
    decreases e
  {
    var path := Child(relative, e.name);
    [Item(path, e.clean, KindOf(e.node))]
    + (if e.node.Folder? then Listing(e.node.entries, path) else [])
  }

  // ----- what the walk must decide ----------------------------------------------------

  ghost predicate Acceptable(i: Item) { i.clean && !i.kind.KSpecial? && ValidPath(i.path) }

  /** Every item is acceptable and no two paths differ only in case. */
  ghost predicate Good(items: seq<Item>) {
    && (forall k :: 0 <= k < |items| ==> Acceptable(items[k]))
    && (forall j, k :: 0 <= j < k < |items| ==> Fold(items[j].path) != Fold(items[k].path))
  }

  ghost function Files(items: seq<Item>): set<string> {
    set k | 0 <= k < |items| && items[k].kind.KFile? :: items[k].path
  }

  ghost function Folders(items: seq<Item>): set<string> {
    set k | 0 <= k < |items| && items[k].kind.KFolder? :: items[k].path
  }

  ghost function Folds(items: seq<Item>): set<string> {
    set k | 0 <= k < |items| :: Fold(items[k].path)
  }

  lemma GoodPrefix(items: seq<Item>, more: seq<Item>)
    requires Good(items + more)
    ensures Good(items)
  {
    var all := items + more;
    assert forall k :: 0 <= k < |items| ==> all[k] == items[k];
  }

  /** Adding one more item. */
  lemma GoodSnoc(items: seq<Item>, i: Item)
    ensures Good(items + [i]) <==> Good(items) && Acceptable(i) && Fold(i.path) !in Folds(items)
    ensures Files(items + [i]) == Files(items) + (if i.kind.KFile? then {i.path} else {})
    ensures Folders(items + [i]) == Folders(items) + (if i.kind.KFolder? then {i.path} else {})
    ensures Folds(items + [i]) == Folds(items) + {Fold(i.path)}
  {
    var all := items + [i];
    assert forall k :: 0 <= k < |items| ==> all[k] == items[k];
    assert all[|items|] == i;
    if Good(all) {
      GoodPrefix(items, [i]);
      assert forall k :: 0 <= k < |items| ==> Fold(all[k].path) != Fold(all[|items|].path);
    }
  }

  // ----- the code ---------------------------------------------------------------------

  datatype WalkError = UnsafePath(reason: PathError) | CaseCollision | Unreadable | NonRegularFile

  class Walk {
    var files: set<string>
    var directories: set<string>
    var folded: map<string, string>
    ghost var seen: seq<Item>      // the items walked so far, in order

    ghost predicate Valid()
      reads this
    {
      && Good(seen)
      && files == Files(seen) && directories == Folders(seen) && folded.Keys == Folds(seen)
    }

    constructor ()
      ensures Valid() && seen == []
    {
      files, directories, folded, seen := {}, {}, map[], [];
    }

    /** `check_case_collision`. */
    method CheckCaseCollision(path: string) returns (ok: bool)
      modifies this`folded
      ensures ok <==> Fold(path) !in old(folded)
      ensures folded == old(folded)[Fold(path) := path]
    {
      ok := Fold(path) !in folded;
      folded := folded[Fold(path) := path];
    }

    /** One entry, without what is below it. */
    method AddEntry(child: string, e: Entry) returns (r: Result<(), WalkError>)
      requires Valid()
      modifies this
      ensures seen == old(seen) + [Item(child, e.clean, KindOf(e.node))]
      ensures r.Ok? <==> Good(seen)
      ensures r.Ok? ==> Valid()
    {
      ghost var before := seen;
      ghost var item := Item(child, e.clean, KindOf(e.node));
      GoodSnoc(before, item);
      seen := seen + [item];
      var valid := ValidateRelativePath(child);
      if valid.Err? {
        return Err(UnsafePath(valid.error));
      }
      var unseen := CheckCaseCollision(child);
      if !unseen {
        return Err(CaseCollision);
      }
      if !e.clean {
        return Err(Unreadable);
      }
      match e.node {
        case Folder(_) => directories := directories + {child};
        case Regular => files := files + {child};
        case Special => return Err(NonRegularFile);
      }
      r := Ok(());
    }

    /** One entry and what is below it. */
    method WalkEntry(e: Entry, relative: string) returns (r: Result<(), WalkError>)
      requires Valid()
      modifies this
      ensures r.Ok? <==> Good(old(seen) + Visit(e, relative))
      ensures r.Ok? ==> Valid() && seen == old(seen) + Visit(e, relative)
      decreases e
    {
      var child := Child(relative, e.name);
      ghost var item := Item(child, e.clean, KindOf(e.node));
      ghost var below := if e.node.Folder? then Listing(e.node.entries, child) else [];
      assert old(seen) + Visit(e, relative) == (old(seen) + [item]) + below;
      r := AddEntry(child, e);
      if r.Err? {
        if Good((old(seen) + [item]) + below) { GoodPrefix(old(seen) + [item], below); }
        return;
      }
      if e.node.Folder? {
        r := WalkRecursive(e.node.entries, child);
      }
    }

    /** `walk_recursive`. */
    method WalkRecursive(entries: seq<Entry>, relative: string) returns (r: Result<(), WalkError>)
      requires Valid()
      modifies this
      ensures r.Ok? <==> Good(old(seen) + Listing(entries, relative))
      ensures r.Ok? ==> Valid() && seen == old(seen) + Listing(entries, relative)
      decreases entries
    {
      ghost var start := seen;
      for n := 0 to |entries|
        invariant Valid() && seen == start + Listing(entries[..n], relative)
      {
        ghost var soFar := seen;
        ListingStep(entries, n, relative);
        assert soFar + Visit(entries[n], relative) == start + Listing(entries[..n + 1], relative);
        r := WalkEntry(entries[n], relative);
        if r.Err? {
          ListingPrefix(start, entries, n + 1, relative);
          return;
        }
      }
      assert entries[..|entries|] == entries;
      r := Ok(());
    }
  }

  lemma ListingStep(entries: seq<Entry>, n: nat, relative: string)
    requires n < |entries|
    ensures Listing(entries[..n + 1], relative) == Listing(entries[..n], relative) + Visit(entries[n], relative)
  {
    assert entries[..n + 1][..n] == entries[..n];
  }

  lemma ListingPrefix(start: seq<Item>, entries: seq<Entry>, n: nat, relative: string)
    requires n <= |entries|
    ensures Good(start + Listing(entries, relative)) ==> Good(start + Listing(entries[..n], relative))
  {
    ListingConcat(entries[..n], entries[n..], relative);
    assert entries[..n] + entries[n..] == entries;
    assert start + Listing(entries, relative)
        == (start + Listing(entries[..n], relative)) + Listing(entries[n..], relative);
    if Good(start + Listing(entries, relative)) {
      GoodPrefix(start + Listing(entries[..n], relative), Listing(entries[n..], relative));
    }
  }

  lemma {:induction false} ListingConcat(a: seq<Entry>, b: seq<Entry>, relative: string)
    ensures Listing(a + b, relative) == Listing(a, relative) + Listing(b, relative)
    decreases b
  {
    if b == [] {
      assert a + b == a;
    } else {
      ListingConcat(a, b[..|b| - 1], relative);
      assert (a + b)[..|a + b| - 1] == a + b[..|b| - 1];
    }
  }
}
