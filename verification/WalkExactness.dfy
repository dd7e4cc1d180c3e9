/**
  What a successful walk means: exactly the tree's files and directories, closed under
  parents, told apart even on a case-insensitive file system, in whatever order the file
  system lists them.
*/
module WalkExactness {
  import opened Prelude
  import opened Seqs
  import opened Text
  import opened ArtifactPaths
  import opened ArtifactWalk

  datatype Inventory = Inventory(files: set<string>, directories: set<string>)

  /** `walk_directory`. */
  method WalkDirectory(root: Node, rootClean: bool) returns (r: Result<Inventory, WalkError>)
    ensures r.Ok? <==> rootClean && root.Folder? && Good(Listing(root.entries, ""))
    ensures r.Ok? ==> r.value == Inventory(Files(Listing(root.entries, "")), Folders(Listing(root.entries, "")))
  {
    if !rootClean {
      return Err(Unreadable);
    }
    match root {
      case Folder(entries) =>
        var walk := new Walk();
        assert walk.seen + Listing(entries, "") == Listing(entries, "");
        var walked := walk.WalkRecursive(entries, "");
        if walked.Err? {
          return Err(walked.error);
        }
        r := Ok(Inventory(walk.files, walk.directories));
      case _ => r := Err(NonRegularFile);
    }
  }

  // ----- exactly the tree -------------------------------------------------------------

  /** Following `names` from a directory ends at a node of the given kind. */
  ghost predicate Finds(entries: seq<Entry>, names: seq<string>, kind: Kind)
    decreases names
  {
    && names != []
    && exists k :: 0 <= k < |entries| && EntryFinds(entries[k], names, kind)
  }

  ghost predicate EntryFinds(e: Entry, names: seq<string>, kind: Kind)
    requires names != []
    decreases names, 0
  {
    && e.name == names[0]
    && (if |names| == 1 then KindOf(e.node) == kind
        else e.node.Folder? && Finds(e.node.entries, names[1..], kind))
  }

  function Join(relative: string, names: seq<string>): string
    decreases names
  {
    if names == [] then relative else Join(Child(relative, names[0]), names[1..])
  }

  ghost predicate Lists(items: seq<Item>, path: string, kind: Kind) {
    exists i :: 0 <= i < |items| && items[i].path == path && items[i].kind == kind
  }

  lemma ListsConcat(a: seq<Item>, b: seq<Item>, path: string, kind: Kind)
    ensures Lists(a + b, path, kind) <==> Lists(a, path, kind) || Lists(b, path, kind)
  {
    if i :| 0 <= i < |a| && a[i].path == path && a[i].kind == kind { assert (a + b)[i] == a[i]; }
    if i :| 0 <= i < |b| && b[i].path == path && b[i].kind == kind { assert (a + b)[|a| + i] == b[i]; }
  }

  lemma {:induction false} VisitFound(e: Entry, relative: string, names: seq<string>, kind: Kind)
    requires names != [] && EntryFinds(e, names, kind)
    ensures Lists(Visit(e, relative), Join(relative, names), kind)
    decreases e
  {
    var path := Child(relative, e.name);
    var head := [Item(path, e.clean, KindOf(e.node))];
    var below := if e.node.Folder? then Listing(e.node.entries, path) else [];
    ListsConcat(head, below, Join(relative, names), kind);
    if |names| == 1 {
      assert Join(relative, names) == Join(path, []);
      assert head[0].path == Join(relative, names);
    } else {
      ListingFound(e.node.entries, path, names[1..], kind);
    }
  }

  lemma {:induction false} ListingFound(entries: seq<Entry>, relative: string, names: seq<string>, kind: Kind)
    requires Finds(entries, names, kind)
    ensures Lists(Listing(entries, relative), Join(relative, names), kind)
    decreases entries
  {
    var init, e := entries[..|entries| - 1], entries[|entries| - 1];
    ListsConcat(Listing(init, relative), Visit(e, relative), Join(relative, names), kind);
    var k :| 0 <= k < |entries| && EntryFinds(entries[k], names, kind);
    if k < |init| {
      assert EntryFinds(init[k], names, kind);
      ListingFound(init, relative, names, kind);
    } else {
      VisitFound(e, relative, names, kind);
    }
  }

  lemma {:induction false} VisitFinds(e: Entry, relative: string, path: string, kind: Kind) returns (names: seq<string>)
    requires Lists(Visit(e, relative), path, kind)
    ensures names != [] && EntryFinds(e, names, kind) && path == Join(relative, names)
    decreases e
  {
    var child := Child(relative, e.name);
    var head := [Item(child, e.clean, KindOf(e.node))];
    var below := if e.node.Folder? then Listing(e.node.entries, child) else [];
    ListsConcat(head, below, path, kind);
    if Lists(head, path, kind) {
      names := [e.name];
      assert Join(relative, names) == Join(child, []);
    } else {
      var rest := ListingFinds(e.node.entries, child, path, kind);
      names := [e.name] + rest;
      assert names[1..] == rest;
    }
  }

  lemma {:induction false} ListingFinds(entries: seq<Entry>, relative: string, path: string, kind: Kind) returns (names: seq<string>)
    requires Lists(Listing(entries, relative), path, kind)
    ensures Finds(entries, names, kind) && path == Join(relative, names)
    decreases entries
  {
    var init, e := entries[..|entries| - 1], entries[|entries| - 1];
    ListsConcat(Listing(init, relative), Visit(e, relative), path, kind);
    if Lists(Listing(init, relative), path, kind) {
      names := ListingFinds(init, relative, path, kind);
      var k :| 0 <= k < |init| && EntryFinds(init[k], names, kind);
      assert EntryFinds(entries[k], names, kind);
    } else {
      names := VisitFinds(e, relative, path, kind);
      assert EntryFinds(entries[|entries| - 1], names, kind);
    }
  }

  /** The inventory's files are exactly the regular files reachable by following names from
      the root, and its directories exactly the directories. */
  lemma InventoryIsTree(entries: seq<Entry>, path: string)
    ensures path in Files(Listing(entries, "")) <==> exists names :: Finds(entries, names, KFile) && path == Join("", names)
    ensures path in Folders(Listing(entries, "")) <==> exists names :: Finds(entries, names, KFolder) && path == Join("", names)
  {
    KindIsTree(entries, path, KFile);
    KindIsTree(entries, path, KFolder);
  }

  lemma KindIsTree(entries: seq<Entry>, path: string, kind: Kind)
    ensures Lists(Listing(entries, ""), path, kind) <==> exists names :: Finds(entries, names, kind) && path == Join("", names)
  {
    if Lists(Listing(entries, ""), path, kind) {
      var names := ListingFinds(entries, "", path, kind);
    }
    if names :| Finds(entries, names, kind) && path == Join("", names) {
      ListingFound(entries, "", names, kind);
    }
  }

  // ----- shape ------------------------------------------------------------------------

  /** A good listing tells every file and directory apart, even under case folding. */
  lemma GoodIsInjective(items: seq<Item>)
    requires Good(items)
    ensures Files(items) !! Folders(items)
    ensures forall p, q :: p in Files(items) + Folders(items) && q in Files(items) + Folders(items) && Fold(p) == Fold(q) ==> p == q
    ensures forall p :: p in Files(items) + Folders(items) ==> ValidPath(p)
  {
  }

  lemma {:induction false} ListingPrefix(entries: seq<Entry>, relative: string, k: nat)
    requires k <= |entries|
    ensures Listing(entries[..k], relative) <= Listing(entries, relative)
  {
    if k == |entries| {
      assert entries[..k] == entries;
    } else {
      var init := entries[..|entries| - 1];
      ListingPrefix(init, relative, k);
      assert init[..k] == entries[..k];
    }
  }

  /** Entry `k` is listed right after everything below the entries before it. */
  lemma EntryIsListed(entries: seq<Entry>, relative: string, k: nat)
    requires k < |entries|
    ensures
      var items, at := Listing(entries, relative), |Listing(entries[..k], relative)|;
      var e := entries[k];
      && at + |Visit(e, relative)| <= |items| && items[at..at + |Visit(e, relative)|] == Visit(e, relative)
      && items[at] == Item(Child(relative, e.name), e.clean, KindOf(e.node))
  {
    ListingPrefix(entries, relative, k + 1);
    var upTo := entries[..k + 1];
    assert upTo[..k] == entries[..k];
    assert Listing(upTo, relative) == Listing(entries[..k], relative) + Visit(entries[k], relative);
  }

  /** Two paths in a listing that differ only in ASCII case refuse the walk. */
  lemma CaseTwinsRefused(items: seq<Item>, i: nat, j: nat)
    requires i < j < |items| && SameButCase(items[i].path, items[j].path)
    ensures !Good(items)
  {
    FoldSame(items[i].path, items[j].path);
  }

  /** In particular two entries of one directory whose names differ only in ASCII case. */
  lemma SiblingTwinsRefused(entries: seq<Entry>, relative: string, i: nat, j: nat)
    requires i < j < |entries| && SameButCase(entries[i].name, entries[j].name)
    ensures !Good(Listing(entries, relative))
  {
    EntryIsListed(entries, relative, i);
    EntryIsListed(entries, relative, j);
    ListingPrefix(entries[..j], relative, i + 1);
    assert entries[..j][..i + 1] == entries[..i + 1] && entries[..i + 1][..i] == entries[..i];
    assert Listing(entries[..i + 1], relative) == Listing(entries[..i], relative) + Visit(entries[i], relative);
    var x, y := |Listing(entries[..i], relative)|, |Listing(entries[..j], relative)|;
    assert x < y;
    assert SameButCase(Child(relative, entries[i].name), Child(relative, entries[j].name));
    CaseTwinsRefused(Listing(entries, relative), x, y);
  }

  /** Every entry, at every depth, could be read and is a regular file or a directory. */
  ghost predicate Wholesome(entries: seq<Entry>)
    decreases entries
  {
    forall k :: 0 <= k < |entries| ==>
      && entries[k].clean && entries[k].node != Special
      && (entries[k].node.Folder? ==> Wholesome(entries[k].node.entries))
  }

  /** A walk that succeeds found nothing else anywhere. */
  lemma {:induction false} GoodIsWholesome(entries: seq<Entry>, relative: string)
    requires Good(Listing(entries, relative))
    ensures Wholesome(entries)
    decreases entries
  {
    var items := Listing(entries, relative);
    forall k | 0 <= k < |entries|
      ensures entries[k].clean && entries[k].node != Special && (entries[k].node.Folder? ==> Wholesome(entries[k].node.entries))
    {
      EntryIsListed(entries, relative, k);
      var at := |Listing(entries[..k], relative)|;
      assert Acceptable(items[at]);
      if entries[k].node.Folder? {
        var below := Listing(entries[k].node.entries, Child(relative, entries[k].name));
        var visit := Visit(entries[k], relative);
        GoodSlice(items, at + 1, at + |visit|);
        assert items[at + 1..at + |visit|] == items[at..at + |visit|][1..];
        assert visit[1..] == below;
        GoodIsWholesome(entries[k].node.entries, Child(relative, entries[k].name));
      }
    }
  }

  lemma GoodSlice(items: seq<Item>, i: nat, j: nat)
    requires Good(items) && i <= j <= |items|
    ensures Good(items[i..j])
  {
    forall x, y | 0 <= x < y < |items[i..j]| ensures Fold(items[i..j][x].path) != Fold(items[i..j][y].path) {
      assert items[i..j][x] == items[i + x] && items[i..j][y] == items[i + y];
    }
  }

  /** File systems give every entry a nonempty name without a slash. */
  ghost predicate RealNames(entries: seq<Entry>)
    decreases entries
  {
    forall k :: 0 <= k < |entries| ==>
      && entries[k].name != "" && '/' !in entries[k].name
      && (entries[k].node.Folder? ==> RealNames(entries[k].node.entries))
  }

  /** Everything above a listed path is a listed directory, or above the listing's own root. */
  ghost predicate Above(path: string, folders: set<string>, relative: string) {
    Ancestors(path) <= folders + Ancestors(relative) + (if relative == "" then {} else {relative})
  }

  lemma ChildAbove(relative: string, name: string)
    requires name != "" && '/' !in name
    ensures Child(relative, name) != ""
    ensures Ancestors(Child(relative, name)) == Ancestors(relative) + (if relative == "" then {} else {relative})
  {
    if relative != "" { ChildAncestors(relative, name); }
  }

  lemma FoldersConcat(a: seq<Item>, b: seq<Item>)
    ensures Folders(a + b) == Folders(a) + Folders(b)
  {
    forall p | p in Folders(a) + Folders(b) ensures p in Folders(a + b) {
      if p in Folders(a) {
        var i :| 0 <= i < |a| && a[i].kind.KFolder? && a[i].path == p;
        assert (a + b)[i] == a[i];
      } else {
        var i :| 0 <= i < |b| && b[i].kind.KFolder? && b[i].path == p;
        assert (a + b)[|a| + i] == b[i];
      }
    }
  }

  lemma {:induction false} VisitClosed(e: Entry, relative: string, i: nat)
    requires e.name != "" && '/' !in e.name && (e.node.Folder? ==> RealNames(e.node.entries))
    requires i < |Visit(e, relative)|
    ensures Above(Visit(e, relative)[i].path, Folders(Visit(e, relative)), relative)
    decreases e
  {
    var path := Child(relative, e.name);
    var head := [Item(path, e.clean, KindOf(e.node))];
    ChildAbove(relative, e.name);
    if i > 0 {
      var below := Listing(e.node.entries, path);
      ListingClosed(e.node.entries, path, i - 1);
      FoldersConcat(head, below);
      assert head[0].path in Folders(head);
      assert Visit(e, relative)[i] == below[i - 1];
    }
  }

  lemma {:induction false} ListingClosed(entries: seq<Entry>, relative: string, i: nat)
    requires RealNames(entries) && i < |Listing(entries, relative)|
    ensures Above(Listing(entries, relative)[i].path, Folders(Listing(entries, relative)), relative)
    decreases entries
  {
    var init, e := entries[..|entries| - 1], entries[|entries| - 1];
    FoldersConcat(Listing(init, relative), Visit(e, relative));
    if i < |Listing(init, relative)| {
      ListingClosed(init, relative, i);
    } else {
      VisitClosed(e, relative, i - |Listing(init, relative)|);
    }
  }

  /** Every ancestor of an inventoried path is an inventoried directory. */
  lemma InventoryIsParentClosed(entries: seq<Entry>, path: string)
    requires RealNames(entries)
    requires path in Files(Listing(entries, "")) + Folders(Listing(entries, ""))
    ensures Ancestors(path) <= Folders(Listing(entries, ""))
  {
    var items := Listing(entries, "");
    var i :| 0 <= i < |items| && items[i].path == path;
    ListingClosed(entries, "", i);
  }

  // ----- enumeration order ------------------------------------------------------------

  /** The same tree, its directories listed in another order. */
  ghost predicate Reordered(a: seq<Entry>, b: seq<Entry>)
    decreases a
  {
    if a == [] then b == []
    else exists k :: 0 <= k < |b| && ReorderedEntry(a[|a| - 1], b[k]) && Reordered(a[..|a| - 1], b[..k] + b[k + 1..])
  }

  ghost predicate ReorderedEntry(e: Entry, f: Entry)
    decreases e
  {
    && e.name == f.name && e.clean == f.clean && KindOf(e.node) == KindOf(f.node)
    && (e.node.Folder? ==> Reordered(e.node.entries, f.node.entries))
  }

  /** Any one entry may be taken out of a listing. */
  lemma TakeOut(b: seq<Entry>, k: nat, relative: string)
    requires k < |b|
    ensures multiset(Listing(b, relative))
         == multiset(Listing(b[..k] + b[k + 1..], relative)) + multiset(Visit(b[k], relative))
  {
    ListingConcat(b[..k], b[k + 1..], relative);
    ListingConcat(b[..k + 1], b[k + 1..], relative);
    ListingStep(b, k, relative);
    assert b == b[..k + 1] + b[k + 1..];
    MultisetMiddle(Listing(b[..k], relative), Visit(b[k], relative), Listing(b[k + 1..], relative));
  }

  lemma {:induction false} VisitReordered(e: Entry, f: Entry, relative: string)
    requires ReorderedEntry(e, f)
    ensures multiset(Visit(e, relative)) == multiset(Visit(f, relative))
    decreases e
  {
    if e.node.Folder? { ListingReordered(e.node.entries, f.node.entries, Child(relative, e.name)); }
  }

  lemma {:induction false} ListingReordered(a: seq<Entry>, b: seq<Entry>, relative: string)
    requires Reordered(a, b)
    ensures multiset(Listing(a, relative)) == multiset(Listing(b, relative))
    decreases a
  {
    if a == [] {
    } else {
      var k :| 0 <= k < |b| && ReorderedEntry(a[|a| - 1], b[k]) && Reordered(a[..|a| - 1], b[..k] + b[k + 1..]);
      VisitReordered(a[|a| - 1], b[k], relative);
      ListingReordered(a[..|a| - 1], b[..k] + b[k + 1..], relative);
      TakeOut(b, k, relative);
      TakeOut(a, |a| - 1, relative);
      assert a[..|a| - 1] + a[|a|..] == a[..|a| - 1];
    }
  }

  lemma GoodByContents(x: seq<Item>, y: seq<Item>)
    requires multiset(x) == multiset(y) && Good(x)
    ensures Good(y)
  {
    forall k | 0 <= k < |y| ensures Acceptable(y[k]) && y[k] in x {
      assert y[k] in multiset(y);
    }
    forall j, k | 0 <= j < k < |y| ensures Fold(y[j].path) != Fold(y[k].path) {
      if y[j] == y[k] {
        TwoPlaces(y, y[k]);
        TwoPlaces(x, y[k]);
        assert false;
      } else {
        assert y[j] in multiset(x) && y[k] in multiset(x);
        var a :| 0 <= a < |x| && x[a] == y[j];
        var b :| 0 <= b < |x| && x[b] == y[k];
      }
    }
  }

  lemma SetsByContents(x: seq<Item>, y: seq<Item>)
    requires multiset(x) == multiset(y)
    ensures Files(x) <= Files(y) && Folders(x) <= Folders(y)
  {
    forall k | 0 <= k < |x| ensures x[k] in y {
      assert x[k] in multiset(x);
    }
  }

  /** Whether the walk succeeds, and what it returns, does not depend on the order in which the
      file system lists any directory. */
  lemma OrderDoesNotMatter(a: seq<Entry>, b: seq<Entry>)
    requires Reordered(a, b)
    ensures Good(Listing(a, "")) <==> Good(Listing(b, ""))
    ensures Files(Listing(a, "")) == Files(Listing(b, "")) && Folders(Listing(a, "")) == Folders(Listing(b, ""))
  {
    ListingReordered(a, b, "");
    var x, y := Listing(a, ""), Listing(b, "");
    if Good(x) { GoodByContents(x, y); }
    if Good(y) { GoodByContents(y, x); }
    SetsByContents(x, y);
    SetsByContents(y, x);
  }
}
