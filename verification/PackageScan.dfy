/**
  Choosing the package to install: of all authenticated full packages in the cache, the newest
  that is newer than what is installed.
*/
module PackageScan {
  import opened Prelude
  import opened PackageCache

  /** What the scan is given besides the directory: the order of versions and the installed one. */
  datatype Versions = Versions(
    rank: string -> int,                    // the semantic-version order, as a number
    canonical: string -> Option<int>,       // the version in a canonical package name
    installed: int)

  /** One entry of the listing: a name, or an entry that could not be read. A name that is not
      text is left out. A directory that is missing lists nothing; one that cannot be opened
      counts as a single unreadable entry. */
  type Listing = seq<Option<string>>

  predicate FullName(name: string) {
    |name| >= |"-full.nupkg"| && name[|name| - |"-full.nupkg"|..] == "-full.nupkg"
  }

  /** The names the scan looks into: plain full packages that do not say they are old. */
  predicate Candidate(v: Versions, name: string) {
    FullName(name) && Plain(name) && !(v.canonical(name).Some? && v.canonical(name).value <= v.installed)
  }

  /** The version of an authenticated candidate newer than what is installed. */
  function NewerRank(d: Dir, v: Versions, verify: Verifier, entry: Option<string>): Option<int> {
    if entry.None? || !Candidate(v, entry.value) then None
    else match AdmitCached(d, entry.value, verify)
      case Ok(version) => if v.rank(version) > v.installed then Some(v.rank(version)) else None
      case Err(_) => None
  }

  /** An entry the scan could not read or a candidate it could not authenticate. */
  predicate Rejects(d: Dir, v: Versions, verify: Verifier, entry: Option<string>) {
    entry.None? || (Candidate(v, entry.value) && AdmitCached(d, entry.value, verify).Err?)
  }

  datatype Scan = Scan(selected: Option<Package>, rejected: bool)

  /** Entry `k` is the first newest of the authentic candidates among `ranks`. */
  ghost predicate FirstNewest(ranks: seq<Option<int>>, k: nat) {
    && k < |ranks| && ranks[k].Some?
    && forall i :: 0 <= i < |ranks| && ranks[i].Some? ==>
         ranks[i].value <= ranks[k].value && (i < k ==> ranks[i].value < ranks[k].value)
  }

  ghost predicate NoneNewer(ranks: seq<Option<int>>) { forall i :: 0 <= i < |ranks| ==> ranks[i].None? }

  function Ranks(d: Dir, v: Versions, verify: Verifier, listing: Listing): (ranks: seq<Option<int>>)
    ensures |ranks| == |listing| && forall i :: 0 <= i < |listing| ==> ranks[i] == NewerRank(d, v, verify, listing[i])
  {
    seq(|listing|, i requires 0 <= i < |listing| => NewerRank(d, v, verify, listing[i]))
  }

  /** The scan must choose `name`. */
  ghost predicate Newest(d: Dir, v: Versions, verify: Verifier, listing: Listing, name: string) {
    exists k :: 0 <= k < |listing| && listing[k] == Some(name) && FirstNewest(Ranks(d, v, verify, listing), k)
  }

  /** `scan_authenticated_packages`. */
  method ScanAuthenticatedPackages(dir: string, d: Dir, listing: Listing, v: Versions, verify: Verifier) returns (s: Scan)
    ensures s.selected.Some? ==>
              && OwnPath(dir, s.selected.value) && Selectable(d, s.selected.value, verify)
              && Newest(d, v, verify, listing, s.selected.value.fileName)
    ensures s.selected.Some? ==> Genuine(d, v, verify, s.selected.value.fileName) && s.selected.value.file == d[s.selected.value.fileName].file
    ensures forall i :: 0 <= i < |listing| && listing[i].Some? && Genuine(d, v, verify, listing[i].value) ==>
              && s.selected.Some?
              && VersionRank(d, v, listing[i].value) <= VersionRank(d, v, s.selected.value.fileName)
    ensures s.selected.None? ==> NoneNewer(Ranks(d, v, verify, listing))
    ensures s.rejected <==> exists i :: 0 <= i < |listing| && Rejects(d, v, verify, listing[i])
    ensures s.rejected <==> exists i :: 0 <= i < |listing| && (listing[i].None? || Suspect(d, v, verify, listing[i].value))
  {
    forall i | 0 <= i < |listing| && listing[i].Some?
      ensures Rejects(d, v, verify, listing[i]) <==> Suspect(d, v, verify, listing[i].value)
    {
      RejectedIsSuspect(d, v, verify, listing[i].value);
    }
    ghost var ranks := Ranks(d, v, verify, listing);
    var selected: Option<nat> := None;
    var newest := v.installed;
    var rejected := false;
    for n := 0 to |listing|
      invariant Chosen(ranks[..n], selected, newest)
      invariant rejected <==> exists i :: 0 <= i < n && Rejects(d, v, verify, listing[i])
    {
      rejected := rejected || Rejects(d, v, verify, listing[n]);
      var rank := NewerRank(d, v, verify, listing[n]);
      assert rank == ranks[n];
      ChoiceExtends(ranks[..n], ranks[n], selected, newest);
      assert ranks[..n + 1] == ranks[..n] + [ranks[n]];
      if rank.Some? && (selected.None? || rank.value > newest) {
        selected, newest := Some(n), rank.value;
      }
    }
    assert ranks[..|ranks|] == ranks;
    ChoiceIsGenuine(d, v, verify, listing, selected, newest);
    if selected.None? {
      return Scan(None, rejected);
    }
    RankedIsSelectable(dir, d, v, verify, listing[selected.value]);
    var name := listing[selected.value].value;
    s := Scan(Some(Package(CachePath(dir, name), name, d[name].file)), rejected);
  }

  /** In the directory's own terms: a full package by name, not saying it is old, signed at some
      version newer than the installed one. */
  predicate Genuine(d: Dir, v: Versions, verify: Verifier, name: string) {
    && |name| >= 11 && name[|name| - 11..] == "-full.nupkg" && Plain(name)
    && (v.canonical(name).Some? ==> v.canonical(name).value > v.installed)
    && name in d && d[name].kind.Regular? && d[name].kind.nuspecVersion.Some?
    && Signed(d, name, d[name].kind.nuspecVersion.value, verify)
    && v.rank(d[name].kind.nuspecVersion.value) > v.installed
  }

  /** A full package by name, not saying it is old, that is not signed at any version. */
  predicate Suspect(d: Dir, v: Versions, verify: Verifier, name: string) {
    && |name| >= 11 && name[|name| - 11..] == "-full.nupkg" && Plain(name)
    && (v.canonical(name).Some? ==> v.canonical(name).value > v.installed)
    && !(&& name in d && d[name].kind.Regular? && d[name].kind.nuspecVersion.Some?
         && Signed(d, name, d[name].kind.nuspecVersion.value, verify))
  }

  lemma RejectedIsSuspect(d: Dir, v: Versions, verify: Verifier, name: string)
    ensures Rejects(d, v, verify, Some(name)) <==> Suspect(d, v, verify, name)
  {
    if name in d && d[name].kind.Regular? && d[name].kind.nuspecVersion.Some? {
      AdmittedIsSigned(d, name, d[name].kind.nuspecVersion.value, verify);
    }
  }

  function VersionRank(d: Dir, v: Versions, name: string): int {
    if name in d && d[name].kind.Regular? && d[name].kind.nuspecVersion.Some? then v.rank(d[name].kind.nuspecVersion.value) else v.installed
  }

  lemma RankedIsGenuine(d: Dir, v: Versions, verify: Verifier, name: string)
    ensures NewerRank(d, v, verify, Some(name)).Some? <==> Genuine(d, v, verify, name)
    ensures Genuine(d, v, verify, name) ==> NewerRank(d, v, verify, Some(name)) == Some(VersionRank(d, v, name))
  {
    if name in d && d[name].kind.Regular? && d[name].kind.nuspecVersion.Some? {
      AdmittedIsSigned(d, name, d[name].kind.nuspecVersion.value, verify);
    }
  }

  lemma ChoiceIsGenuine(d: Dir, v: Versions, verify: Verifier, listing: Listing, selected: Option<nat>, newest: int)
    requires Chosen(Ranks(d, v, verify, listing), selected, newest)
    ensures selected.Some? ==>
              && selected.value < |listing| && listing[selected.value].Some?
              && Genuine(d, v, verify, listing[selected.value].value)
    ensures forall i :: 0 <= i < |listing| && listing[i].Some? && Genuine(d, v, verify, listing[i].value) ==>
              && selected.Some?
              && VersionRank(d, v, listing[i].value) <= VersionRank(d, v, listing[selected.value].value)
  {
    var ranks := Ranks(d, v, verify, listing);
    forall i | 0 <= i < |listing| && listing[i].Some?
      ensures ranks[i].Some? <==> Genuine(d, v, verify, listing[i].value)
      ensures ranks[i].Some? ==> ranks[i].value == VersionRank(d, v, listing[i].value)
    {
      RankedIsGenuine(d, v, verify, listing[i].value);
    }
  }

  /** What the loop holds after the entries with these ranks. */
  ghost predicate Chosen(ranks: seq<Option<int>>, selected: Option<nat>, newest: int) {
    match selected
    case None => NoneNewer(ranks)
    case Some(k) => FirstNewest(ranks, k) && ranks[k].value == newest
  }

  lemma ChoiceExtends(ranks: seq<Option<int>>, r: Option<int>, selected: Option<nat>, newest: int)
    requires Chosen(ranks, selected, newest)
    ensures
      if r.Some? && (selected.None? || r.value > newest)
      then Chosen(ranks + [r], Some(|ranks|), r.value) else Chosen(ranks + [r], selected, newest)
  {
    assert forall i :: 0 <= i < |ranks| ==> (ranks + [r])[i] == ranks[i];
  }

  lemma RankedIsSelectable(dir: string, d: Dir, v: Versions, verify: Verifier, entry: Option<string>)
    requires NewerRank(d, v, verify, entry).Some?
    ensures entry.Some? && entry.value in d
    ensures Selectable(d, Package(CachePath(dir, entry.value), entry.value, d[entry.value].file), verify)
  {
  }

  lemma Outranked(x: seq<Option<int>>, y: seq<Option<int>>, k: nat)
    requires FirstNewest(x, k) && forall r :: r in x ==> r in y
    ensures !NoneNewer(y)
    ensures forall j: nat :: FirstNewest(y, j) ==> x[k].value <= y[j].value
  {
    assert x[k] in y;
    var i :| 0 <= i < |y| && y[i] == x[k];
  }

  /** Whether anything is selected, and at what version, does not depend on the order in which
      the directory is listed. */
  lemma SelectionIsNewest(d: Dir, v: Versions, verify: Verifier, a: Listing, b: Listing, j: nat, k: nat)
    requires forall e :: e in a <==> e in b
    ensures NoneNewer(Ranks(d, v, verify, a)) <==> NoneNewer(Ranks(d, v, verify, b))
    ensures FirstNewest(Ranks(d, v, verify, a), j) && FirstNewest(Ranks(d, v, verify, b), k) ==>
              Ranks(d, v, verify, a)[j] == Ranks(d, v, verify, b)[k]
  {
    SameRanks(d, v, verify, a, b);
    SameRanks(d, v, verify, b, a);
    var x, y := Ranks(d, v, verify, a), Ranks(d, v, verify, b);
    if FirstNewest(x, j) { Outranked(x, y, j); }
    if FirstNewest(y, k) { Outranked(y, x, k); }
    NoneNewerSame(x, y);
    NoneNewerSame(y, x);
  }

  lemma NoneNewerSame(x: seq<Option<int>>, y: seq<Option<int>>)
    requires forall r :: r in x ==> r in y
    ensures NoneNewer(y) ==> NoneNewer(x)
  {
    forall i | 0 <= i < |x| ensures NoneNewer(y) ==> x[i].None? {
      assert x[i] in y;
    }
  }

  lemma SameRanks(d: Dir, v: Versions, verify: Verifier, a: Listing, b: Listing)
    requires forall e :: e in a ==> e in b
    ensures forall r :: r in Ranks(d, v, verify, a) ==> r in Ranks(d, v, verify, b)
  {
    var x, y := Ranks(d, v, verify, a), Ranks(d, v, verify, b);
    forall i | 0 <= i < |x| ensures x[i] in y {
      assert a[i] in b;
      var k :| 0 <= k < |b| && b[k] == a[i];
      assert y[k] == x[i];
    }
  }
}
