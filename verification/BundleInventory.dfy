/**
  Verifying a pinned bundle: the manifest's declared paths, the exact inventory on disk, and
  every digest, for any list of pinned files.
*/
module BundleInventory {
  import opened Prelude
  import opened Text
  import opened ArtifactPaths
  import opened ArtifactWalk
  import opened WalkExactness

  /** A file and its digest: a pin, or a manifest declaration. */
  datatype Pin = Pin(path: string, sha: int)

  const MANIFEST := "manifest.json"

  type Bytes = seq<int>
  type Digest = Bytes -> int

  function Paths(pins: seq<Pin>): set<string> { set k | 0 <= k < |pins| :: pins[k].path }

  // ----- declared paths ---------------------------------------------------------------

  datatype VerifyError =
    | Walking(walk: WalkError) | BadPath(reason: PathError) | DuplicatePath | CaseCollides | ExtraDeclared
    | NotDeclared | FileIsDirectory | MissingFile | UnlistedFile | ExtraDirectory | MissingDirectory
    | Io | Malformed | LateCheck | DigestMismatch(at: Comparison)

  /** Valid, and told apart even under case folding. */
  ghost predicate WellDeclared(files: seq<Pin>) {
    && (forall k :: 0 <= k < |files| ==> ValidPath(files[k].path))
    && (forall j, k :: 0 <= j < k < |files| ==> Fold(files[j].path) != Fold(files[k].path))
  }

  method VerifyDeclaredPaths(files: seq<Pin>) returns (r: Result<(), VerifyError>)
    ensures r.Ok? <==> WellDeclared(files)
    ensures r.Ok? ==> forall j, k :: 0 <= j < k < |files| ==> !SameButCase(files[j].path, files[k].path)
    ensures r.Err? ==> !r.error.DigestMismatch?
  {
    forall j, k | 0 <= j < k < |files| ensures Fold(files[j].path) == Fold(files[k].path) <==> SameButCase(files[j].path, files[k].path) {
      FoldSame(files[j].path, files[k].path);
    }
    var exact: set<string> := {};
    var folded: set<string> := {};
    for n := 0 to |files|
      invariant WellDeclared(files[..n])
      invariant exact == set k | 0 <= k < n :: files[k].path
      invariant folded == set k | 0 <= k < n :: Fold(files[k].path)
    {
      var path := files[n].path;
      var valid := ValidateRelativePath(path);
      if valid.Err? {
        return Err(BadPath(valid.error));
      }
      if path in exact {
        return Err(DuplicatePath);
      }
      exact := exact + {path};
      if Fold(path) in folded {
        return Err(CaseCollides);
      }
      folded := folded + {Fold(path)};
    }
    assert files[..|files|] == files;
    r := Ok(());
  }

  // ----- required directories ---------------------------------------------------------

  /** `PathBuf::pop` on a valid relative path: what is left of the last slash, or nothing. */
  function Pop(s: string): string {
    if s == "" then ""
    else if s[|s| - 1] == '/' then s[..|s| - 1]
    else Pop(s[..|s| - 1])
  }

  lemma {:induction false} PopSplits(s: string)
    ensures '/' !in s ==> Pop(s) == ""
    ensures '/' in s ==> |Pop(s)| < |s| && s[..|Pop(s)|] == Pop(s) && s[|Pop(s)|] == '/' && '/' !in s[|Pop(s)| + 1..]
  {
    if s != "" && s[|s| - 1] != '/' {
      var t := s[..|s| - 1];
      PopSplits(t);
      if '/' in s {
        assert '/' in t;
        assert s[|Pop(t)| + 1..] == t[|Pop(t)| + 1..] + [s[|s| - 1]];
      }
    }
  }

  lemma EmptyPathInvalid()
    ensures !ValidPath("")
  {
    assert !PortableName(Split("")[0]);
  }

  /** Popping a valid path gives its parent, itself a valid path. */
  lemma PopIsParent(s: string)
    requires ValidPath(s)
    ensures '/' in s ==> Pop(s) != "" && ValidPath(Pop(s)) && Ancestors(s) == {Pop(s)} + Ancestors(Pop(s))
    ensures '/' !in s ==> Pop(s) == "" && Ancestors(s) == {}
  {
    PopSplits(s);
    if '/' in s {
      var name := s[|Pop(s)| + 1..];
      assert s == Pop(s) + "/" + name;
      AcceptanceComposes(Pop(s), name);
      ChildAncestors(Pop(s), name);
      EmptyPathInvalid();
    }
  }

  /** The directories above one path, popped one by one. */
  method ParentsOf(path: string) returns (parents: set<string>)
    requires ValidPath(path)
    ensures parents == Ancestors(path)
  {
    parents := {};
    var current := path;
    PopIsParent(current);
    while Pop(current) != ""
      invariant ValidPath(current)
      invariant Ancestors(path) == parents + Ancestors(current)
      invariant Pop(current) == "" ==> Ancestors(current) == {}
      decreases |current|
    {
      PopSplits(current);
      PopIsParent(current);
      current := Pop(current);
      parents := parents + {current};
      PopIsParent(current);
    }
  }

  ghost function AllAncestors(paths: set<string>): set<string> {
    set p, a | p in paths && a in Ancestors(p) :: a
  }

  method RequiredDirectories(expected: set<string>) returns (dirs: set<string>)
    requires forall p :: p in expected ==> ValidPath(p)
    ensures dirs == AllAncestors(expected)
  {
    dirs := {};
    var left := expected;
    while left != {}
      invariant left <= expected && dirs == AllAncestors(expected - left)
      decreases left
    {
      var p :| p in left;
      var parents := ParentsOf(p);
      assert expected - (left - {p}) == (expected - left) + {p};
      dirs, left := dirs + parents, left - {p};
    }
    assert expected - left == expected;
  }

  // ----- the inventory ----------------------------------------------------------------

  /** The disk holds exactly the pinned files and the manifest, in exactly their directories. */
  ghost predicate ExactInventory(files: set<string>, dirs: set<string>, declared: seq<Pin>, pins: seq<Pin>) {
    && Paths(declared) == Paths(pins)
    && files == Paths(pins) + {MANIFEST}
    && files !! dirs
    && dirs == AllAncestors(files)
  }

  method VerifyInventory(files: set<string>, dirs: set<string>, declared: seq<Pin>, pins: seq<Pin>)
    returns (r: Result<(), VerifyError>)
    requires WellDeclared(declared)
    ensures r.Ok? <==> ExactInventory(files, dirs, declared, pins)
    ensures r.Err? ==> !r.error.DigestMismatch?
  {
    var declaredSet, pinned := Paths(declared), Paths(pins);
    if declaredSet - pinned != {} {
      return Err(ExtraDeclared);
    }
    if pinned - declaredSet != {} {
      return Err(NotDeclared);
    }
    assert declaredSet == pinned;
    var expected := declaredSet + {MANIFEST};
    if expected * dirs != {} {
      return Err(FileIsDirectory);
    }
    if expected - files != {} {
      return Err(MissingFile);
    }
    if files - expected != {} {
      return Err(UnlistedFile);
    }
    assert files == expected;
    ManifestPathValid();
    var required := RequiredDirectories(expected);
    if dirs - required != {} {
      return Err(ExtraDirectory);
    }
    if required - dirs != {} {
      return Err(MissingDirectory);
    }
    r := Ok(());
  }

  lemma {:induction false} StemLength(s: string, k: nat)
    requires k < |s| && s[k] == '.' && forall i :: 0 <= i < k ==> s[i] != '.'
    ensures |Stem(s)| == k
  {
    if k == 0 {
    } else {
      StemLength(s[1..], k - 1);
    }
  }

  /** A single component that cannot be a device name. */
  lemma LongNameValid(s: string, k: nat)
    requires 4 < k < |s| && s[k] == '.' && forall i :: 0 <= i < k ==> s[i] != '.'
    requires s[|s| - 1] != '.' && forall i :: 0 <= i < |s| ==> PortableChar(s[i])
    ensures ValidPath(s)
  {
    StemLength(s, k);
    SplitWhole(s, '/');
    assert |Upper(Stem(s))| == k;
  }

  lemma ManifestPathValid()
    ensures ValidPath(MANIFEST)
  {
    LongNameValid(MANIFEST, 8);
  }

  // ----- digests ----------------------------------------------------------------------

  /** One digest comparison. */
  datatype Comparison = Comparison(path: string, actual: int, expected: int)

  predicate Agrees(c: Comparison) { c.actual == c.expected }

  /** The first comparison that disagrees. */
  function FirstMismatch(cs: seq<Comparison>): Option<Comparison> {
    if cs == [] then None
    else
      var before := FirstMismatch(cs[..|cs| - 1]);
      if before.Some? then before
      else if Agrees(cs[|cs| - 1]) then None else Some(cs[|cs| - 1])
  }

  lemma {:induction false} FirstMismatchIsFirst(cs: seq<Comparison>)
    ensures FirstMismatch(cs).None? <==> forall k :: 0 <= k < |cs| ==> Agrees(cs[k])
    ensures FirstMismatch(cs).Some? ==>
              exists k :: 0 <= k < |cs| && cs[k] == FirstMismatch(cs).value && !Agrees(cs[k])
                          && forall j :: 0 <= j < k ==> Agrees(cs[j])
  {
    if cs == [] {
    } else {
      var init := cs[..|cs| - 1];
      FirstMismatchIsFirst(init);
      if FirstMismatch(init).Some? {
        var k :| 0 <= k < |init| && init[k] == FirstMismatch(init).value && !Agrees(init[k])
                 && forall j :: 0 <= j < k ==> Agrees(init[j]);
        assert cs[k] == init[k] && forall j :: 0 <= j < k ==> cs[j] == init[j];
      }
    }
  }

  /** What the manifest declares for a path. */
  function DeclaredSha(declared: seq<Pin>, path: string): int
    requires path in Paths(declared)
  {
    if declared[0].path == path then declared[0].sha
    else
      assert path in Paths(declared[1..]) by {
        var k :| 0 <= k < |declared| && declared[k].path == path;
        assert declared[1..][k - 1] == declared[k];
      }
      DeclaredSha(declared[1..], path)
  }

  /** The comparisons in the order the code makes them: the manifest, then each pinned file
      against its declaration and against its pin. */
  function Comparisons(digest: Digest, contents: map<string, Bytes>, manifestSha: int, declared: seq<Pin>, pins: seq<Pin>): seq<Comparison>
    requires MANIFEST in contents
    requires forall k :: 0 <= k < |pins| ==> pins[k].path in contents && pins[k].path in Paths(declared)
  {
    if pins == [] then [Comparison(MANIFEST, digest(contents[MANIFEST]), manifestSha)]
    else
      var p := pins[|pins| - 1];
      var actual := digest(contents[p.path]);
      Comparisons(digest, contents, manifestSha, declared, pins[..|pins| - 1])
      + [Comparison(p.path, actual, DeclaredSha(declared, p.path))] + [Comparison(p.path, actual, p.sha)]
  }

  /** `compare_digest`. */
  function CompareDigest(digest: Digest, path: string, bytes: Bytes, expected: int): (e: Option<Comparison>)
    ensures e == FirstMismatch([Comparison(path, digest(bytes), expected)])
  {
    var actual := digest(bytes);
    assert [Comparison(path, actual, expected)][..0] == [];
    if actual != expected then Some(Comparison(path, actual, expected)) else None
  }

  lemma FirstMismatchSnoc(cs: seq<Comparison>, c: Comparison)
    ensures FirstMismatch(cs + [c]) ==
              if FirstMismatch(cs).Some? then FirstMismatch(cs) else if Agrees(c) then None else Some(c)
  {
    assert (cs + [c])[..|cs|] == cs;
  }

  /** The digest part of `verify`: the first mismatch is kept, the rest of the files are still
      read. `readable` is false for a file that cannot be read at this point. */
  method DigestPass(digest: Digest, contents: map<string, Bytes>, readable: string -> bool, manifestSha: int,
                    declared: seq<Pin>, pins: seq<Pin>)
    returns (r: Result<Option<Comparison>, VerifyError>)
    requires MANIFEST in contents
    requires forall k :: 0 <= k < |pins| ==> pins[k].path in contents && pins[k].path in Paths(declared)
    ensures r.Ok? <==> forall k :: 0 <= k < |pins| ==> readable(pins[k].path)
    ensures r.Ok? ==> r.value == FirstMismatch(Comparisons(digest, contents, manifestSha, declared, pins))
    ensures r.Err? ==> r.error == Io
  {
    var pending := CompareDigest(digest, MANIFEST, contents[MANIFEST], manifestSha);
    for n := 0 to |pins|
      invariant forall k :: 0 <= k < n ==> readable(pins[k].path)
      invariant pending == FirstMismatch(Comparisons(digest, contents, manifestSha, declared, pins[..n]))
    {
      var pin := pins[n];
      if !readable(pin.path) {
        return Err(Io);
      }
      ghost var before := Comparisons(digest, contents, manifestSha, declared, pins[..n]);
      var bytes := contents[pin.path];
      var stated := DeclaredSha(declared, pin.path);
      var byDeclaration := CompareDigest(digest, pin.path, bytes, stated);
      FirstMismatchSnoc(before, Comparison(pin.path, digest(bytes), stated));
      FirstMismatchSnoc([], Comparison(pin.path, digest(bytes), stated));
      if pending.None? {
        pending := byDeclaration;
      }
      var byPin := CompareDigest(digest, pin.path, bytes, pin.sha);
      FirstMismatchSnoc(before + [Comparison(pin.path, digest(bytes), stated)], Comparison(pin.path, digest(bytes), pin.sha));
      FirstMismatchSnoc([], Comparison(pin.path, digest(bytes), pin.sha));
      if pending.None? {
        pending := byPin;
      }
      assert pins[..n + 1][..n] == pins[..n];
    }
    assert pins[..|pins|] == pins;
    r := Ok(pending);
  }

  // ----- the whole verification -------------------------------------------------------

  /** A bundle as the verifier finds it. `manifest` is what the manifest's bytes parse to;
      `lateChecks` stands for the manifest's fields, the projection and the id documents. */
  datatype Bundle = Bundle(
    root: Node, rootClean: bool, contents: map<string, Bytes>, readable: string -> bool,
    manifest: Option<seq<Pin>>, lateChecks: bool)

  /** The bytes known are exactly those of the tree's regular files. */
  ghost predicate Backed(b: Bundle) {
    b.root.Folder? ==> b.contents.Keys == Files(Listing(b.root.entries, ""))
  }

  /** Everything but the digests. */
  ghost predicate WellFormed(b: Bundle, pins: seq<Pin>) {
    && b.rootClean && b.root.Folder? && Good(Listing(b.root.entries, ""))
    && b.manifest.Some? && WellDeclared(b.manifest.value)
    && ExactInventory(Files(Listing(b.root.entries, "")), Folders(Listing(b.root.entries, "")), b.manifest.value, pins)
    && b.readable(MANIFEST) && (forall k :: 0 <= k < |pins| ==> b.readable(pins[k].path))
    && b.lateChecks
  }

  /** The pinned files are all there, each known by its declaration. */
  lemma PinsAreThere(b: Bundle, pins: seq<Pin>)
    requires Backed(b) && b.root.Folder? && b.manifest.Some?
    requires ExactInventory(Files(Listing(b.root.entries, "")), Folders(Listing(b.root.entries, "")), b.manifest.value, pins)
    ensures MANIFEST in b.contents
    ensures forall k :: 0 <= k < |pins| ==> pins[k].path in b.contents && pins[k].path in Paths(b.manifest.value)
  {
    forall k | 0 <= k < |pins| ensures pins[k].path in Paths(pins) {
    }
  }

  /** `verify`: accepts exactly the well-formed bundles whose every digest agrees, and a digest
      error is always the first disagreement of a bundle well-formed otherwise. */
  method Verify(b: Bundle, digest: Digest, manifestSha: int, pins: seq<Pin>) returns (r: Result<(), VerifyError>)
    requires Backed(b)
    ensures r.Ok? ==> WellFormed(b, pins)
    ensures WellFormed(b, pins) ==>
              && MANIFEST in b.contents
              && (forall k :: 0 <= k < |pins| ==> pins[k].path in b.contents && pins[k].path in Paths(b.manifest.value))
              && var first := FirstMismatch(Comparisons(digest, b.contents, manifestSha, b.manifest.value, pins));
                 r == if first.None? then Ok(()) else Err(DigestMismatch(first.value))
    ensures r.Err? && r.error.DigestMismatch? ==> WellFormed(b, pins)
    ensures r.Ok? ==>
              && b.rootClean && b.root.Folder? && b.manifest.Some? && b.lateChecks
              && b.readable(MANIFEST) && forall k :: 0 <= k < |pins| ==> b.readable(pins[k].path)
  {
    var walked := WalkDirectory(b.root, b.rootClean);
    if walked.Err? {
      return Err(Walking(walked.error));
    }
    var inventory := walked.value;
    if MANIFEST !in inventory.files {
      return Err(MissingFile);
    }
    if !b.readable(MANIFEST) {
      return Err(Io);
    }
    if b.manifest.None? {
      return Err(Malformed);
    }
    var declared := b.manifest.value;
    r := VerifyDeclaredPaths(declared);
    if r.Err? {
      return;
    }
    r := VerifyInventory(inventory.files, inventory.directories, declared, pins);
    if r.Err? {
      return;
    }
    PinsAreThere(b, pins);
    var pass := DigestPass(digest, b.contents, b.readable, manifestSha, declared, pins);
    if pass.Err? {
      return Err(pass.error);
    }
    if !b.lateChecks {
      return Err(LateCheck);
    }
    if pass.value.Some? {
      return Err(DigestMismatch(pass.value.value));
    }
    r := Ok(());
  }

  /** No mismatch means the manifest has its digest, and so has every pinned file, both the one
      declared and the one pinned. */
  lemma {:induction false} ComparisonsCover(digest: Digest, contents: map<string, Bytes>, manifestSha: int, declared: seq<Pin>, pins: seq<Pin>)
    requires MANIFEST in contents
    requires forall k :: 0 <= k < |pins| ==> pins[k].path in contents && pins[k].path in Paths(declared)
    requires FirstMismatch(Comparisons(digest, contents, manifestSha, declared, pins)).None?
    ensures digest(contents[MANIFEST]) == manifestSha
    ensures forall k :: 0 <= k < |pins| ==>
              digest(contents[pins[k].path]) == pins[k].sha == DeclaredSha(declared, pins[k].path)
  {
    if pins == [] {
      FirstMismatchSnoc([], Comparison(MANIFEST, digest(contents[MANIFEST]), manifestSha));
    } else {
      var init, p := pins[..|pins| - 1], pins[|pins| - 1];
      var before := Comparisons(digest, contents, manifestSha, declared, init);
      var stated := Comparison(p.path, digest(contents[p.path]), DeclaredSha(declared, p.path));
      FirstMismatchSnoc(before, stated);
      FirstMismatchSnoc(before + [stated], Comparison(p.path, digest(contents[p.path]), p.sha));
      ComparisonsCover(digest, contents, manifestSha, declared, init);
      assert forall k :: 0 <= k < |init| ==> init[k] == pins[k];
    }
  }

  /** Two different byte strings with one digest. */
  ghost predicate Collide(digest: Digest, x: Bytes, y: Bytes) { x != y && digest(x) == digest(y) }

  /** What acceptance means, without the order of the checks. */
  ghost predicate Accepted(b: Bundle, digest: Digest, manifestSha: int, pins: seq<Pin>) {
    && WellFormed(b, pins)
    && MANIFEST in b.contents
    && (forall k :: 0 <= k < |pins| ==> pins[k].path in b.contents && pins[k].path in Paths(b.manifest.value))
    && FirstMismatch(Comparisons(digest, b.contents, manifestSha, b.manifest.value, pins)).None?
  }

  /** The pins leave no freedom: any two accepted bundles hold the same files in the same
      directories, with the same digests, and so with the same bytes unless two different
      files at one path collide. */
  lemma AcceptedBundlesAreIdentical(a: Bundle, b: Bundle, digest: Digest, manifestSha: int, pins: seq<Pin>)
    requires Backed(a) && Backed(b)
    requires Accepted(a, digest, manifestSha, pins) && Accepted(b, digest, manifestSha, pins)
    ensures a.contents.Keys == b.contents.Keys
    ensures forall p :: p in a.contents ==> digest(a.contents[p]) == digest(b.contents[p])
    ensures (forall p :: p in a.contents ==> !Collide(digest, a.contents[p], b.contents[p])) ==> a.contents == b.contents
    ensures Folders(Listing(a.root.entries, "")) == Folders(Listing(b.root.entries, ""))
  {
    assert a.contents.Keys == b.contents.Keys == Paths(pins) + {MANIFEST};
    forall p | p in a.contents ensures digest(a.contents[p]) == digest(b.contents[p]) {
      AcceptedDigest(a, digest, manifestSha, pins, p);
      AcceptedDigest(b, digest, manifestSha, pins, p);
    }
  }

  /** The digest an accepted bundle must have at a path. */
  ghost function PinnedSha(manifestSha: int, pins: seq<Pin>, path: string): int
    requires path in Paths(pins) + {MANIFEST}
  {
    if path == MANIFEST then manifestSha else DeclaredSha(pins, path)
  }

  lemma AcceptedDigest(b: Bundle, digest: Digest, manifestSha: int, pins: seq<Pin>, path: string)
    requires Backed(b) && Accepted(b, digest, manifestSha, pins) && path in b.contents
    ensures path in Paths(pins) + {MANIFEST}
    ensures digest(b.contents[path]) == PinnedSha(manifestSha, pins, path)
  {
    ComparisonsCover(digest, b.contents, manifestSha, b.manifest.value, pins);
    if path != MANIFEST {
      var k := DeclaredAt(pins, path);
    }
  }

  /** The entry a path's digest is taken from. */
  lemma {:induction false} DeclaredAt(pins: seq<Pin>, path: string) returns (k: nat)
    requires path in Paths(pins)
    ensures k < |pins| && pins[k].path == path && pins[k].sha == DeclaredSha(pins, path)
  {
    if pins[0].path == path {
      k := 0;
    } else {
      assert path in Paths(pins[1..]) by {
        var i :| 0 <= i < |pins| && pins[i].path == path;
        assert pins[1..][i - 1] == pins[i];
      }
      var j := DeclaredAt(pins[1..], path);
      k := j + 1;
    }
  }
}
