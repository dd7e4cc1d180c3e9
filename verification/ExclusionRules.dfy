/**
  Exclusion rules and their canonical form: trimmed, ASCII-lowercased, nonempty, without
  repeats, in first-seen order.
*/
module ExclusionRules {
  import opened Text

  datatype Rules = Rules(exes: seq<string>, titles: seq<string>, privateBrowsing: bool)

  function TrimStart(s: string): string {
    if s != "" && IsSpace(s[0]) then TrimStart(s[1..]) else s
  }

  function TrimEnd(s: string): string {
    if s != "" && IsSpace(s[|s| - 1]) then TrimEnd(s[..|s| - 1]) else s
  }

  function Canon(s: string): string { Lower(TrimEnd(TrimStart(s))) }

  predicate Trimmed(s: string) { s == "" || (!IsSpace(s[0]) && !IsSpace(s[|s| - 1])) }

  lemma TrimEndTrims(s: string)
    requires s == "" || !IsSpace(s[0])
    ensures Trimmed(TrimEnd(s))
  {
  }

  lemma {:induction false} TrimStartTrims(s: string)
    ensures TrimStart(s) == "" || !IsSpace(TrimStart(s)[0])
  {
    if s != "" && IsSpace(s[0]) { TrimStartTrims(s[1..]); }
  }

  /** The canonical form of a string is its own canonical form. */
  lemma CanonIdempotent(s: string)
    ensures Canon(Canon(s)) == Canon(s)
  {
    TrimStartTrims(s);
    TrimEndTrims(TrimStart(s));
    var t := TrimEnd(TrimStart(s));
    assert Trimmed(Lower(t));
    assert Lower(Lower(t)) == Lower(t);
  }

  /** `dedupe_lower`, as a function of the values seen so far. */
  function Dedupe(values: seq<string>): seq<string> {
    if values == [] then []
    else
      var out := Dedupe(values[..|values| - 1]);
      var v := Canon(values[|values| - 1]);
      if v == "" || v in out then out else out + [v]
  }

  method DedupeLower(values: seq<string>) returns (out: seq<string>)
    ensures out == Dedupe(values)
  {
    out := [];
    for i := 0 to |values|
      invariant out == Dedupe(values[..i])
    {
      assert values[..i + 1][..i] == values[..i];
      var v := Canon(values[i]);
      if v == "" || v in out {
        continue;
      }
      out := out + [v];
    }
    assert values[..|values|] == values;
  }

  /** Already canonical: nonempty, fixed by `Canon`, without repeats. */
  ghost predicate Canonical(values: seq<string>) {
    && (forall i :: 0 <= i < |values| ==> values[i] != "" && Canon(values[i]) == values[i])
    && (forall i, j :: 0 <= i < j < |values| ==> values[i] != values[j])
  }

  lemma {:induction false} DedupeIsCanonical(values: seq<string>)
    ensures Canonical(Dedupe(values))
  {
    if values == [] {
    } else {
      DedupeIsCanonical(values[..|values| - 1]);
      CanonIdempotent(values[|values| - 1]);
    }
  }

  lemma {:induction false} DedupeHolds(values: seq<string>, x: string)
    ensures x in Dedupe(values) <==> x != "" && exists i :: 0 <= i < |values| && Canon(values[i]) == x
  {
    if values == [] {
    } else {
      var before := values[..|values| - 1];
      DedupeHolds(before, x);
      if x in Dedupe(before) {
        var i :| 0 <= i < |before| && Canon(before[i]) == x;
        assert Canon(values[i]) == x;
      }
      if i :| 0 <= i < |before| && Canon(values[i]) == x {
        assert Canon(before[i]) == x;
      }
    }
  }

  /** The result is canonical and holds exactly the canonical forms of the inputs. */
  lemma DedupeExact(values: seq<string>)
    ensures Canonical(Dedupe(values))
    ensures forall x :: x in Dedupe(values) <==> x != "" && exists i :: 0 <= i < |values| && Canon(values[i]) == x
  {
    DedupeIsCanonical(values);
    forall x ensures x in Dedupe(values) <==> x != "" && exists i :: 0 <= i < |values| && Canon(values[i]) == x {
      DedupeHolds(values, x);
    }
  }

  /** No entry is empty, holds a capital ASCII letter, or begins or ends with white space. */
  lemma DedupeIsLower(values: seq<string>, x: string)
    requires x in Dedupe(values)
    ensures x != "" && !IsSpace(x[0]) && !IsSpace(x[|x| - 1])
    ensures forall i :: 0 <= i < |x| ==> !('A' <= x[i] <= 'Z')
  {
    DedupeHolds(values, x);
    var i :| 0 <= i < |values| && Canon(values[i]) == x;
    TrimStartTrims(values[i]);
    TrimEndTrims(TrimStart(values[i]));
    var trimmed := TrimEnd(TrimStart(values[i]));
    assert x == Lower(trimmed) && |x| == |trimmed|;
  }

  lemma {:induction false} TrimStartTwins(a: string, b: string)
    requires SameButCase(a, b)
    ensures SameButCase(TrimStart(a), TrimStart(b))
  {
    if a == "" {
    } else {
      assert Twins(a[0], b[0]) && IsSpace(a[0]) == IsSpace(b[0]);
      if IsSpace(a[0]) { TrimStartTwins(a[1..], b[1..]); }
    }
  }

  lemma {:induction false} TrimEndTwins(a: string, b: string)
    requires SameButCase(a, b)
    ensures SameButCase(TrimEnd(a), TrimEnd(b))
  {
    if a == "" {
    } else {
      var n := |a| - 1;
      assert Twins(a[n], b[n]) && IsSpace(a[n]) == IsSpace(b[n]);
      if IsSpace(a[n]) { TrimEndTwins(a[..n], b[..n]); }
    }
  }

  /** A value that differs from one already there only in ASCII case adds nothing. */
  lemma CaseTwinAddsNothing(values: seq<string>, a: string, b: string)
    requires a in values && SameButCase(a, b)
    ensures Canon(a) == Canon(b) && Dedupe(values + [b]) == Dedupe(values)
  {
    TrimStartTwins(a, b);
    TrimEndTwins(TrimStart(a), TrimStart(b));
    LowerSame(TrimEnd(TrimStart(a)), TrimEnd(TrimStart(b)));
    var i :| 0 <= i < |values| && values[i] == a;
    DedupeHolds(values, Canon(b));
    assert (values + [b])[..|values|] == values;
  }

  lemma {:induction false} SpacesAround(s: string, c: char)
    requires IsSpace(c)
    ensures TrimStart([c] + s) == TrimStart(s)
    ensures TrimEnd(s + [c]) == TrimEnd(s)
    ensures TrimStart(s + [c]) == TrimStart(s) + [c] || (TrimStart(s) == "" && TrimStart(s + [c]) == "")
  {
    assert ([c] + s)[1..] == s && (s + [c])[..|s|] == s;
    if s == "" {
      assert TrimStart([c]) == TrimStart([c][1..]);
    } else {
      assert (s + [c])[1..] == s[1..] + [c];
      if IsSpace(s[0]) { SpacesAround(s[1..], c); }
    }
  }

  /** White space before or after a value is ignored. */
  lemma PaddingIgnored(s: string, c: char)
    requires IsSpace(c)
    ensures Canon([c] + s) == Canon(s) == Canon(s + [c])
  {
    SpacesAround(s, c);
    SpacesAround(TrimStart(s), c);
  }

  /** A canonical list is left alone. */
  lemma {:induction false} DedupeFixed(values: seq<string>)
    requires Canonical(values)
    ensures Dedupe(values) == values
  {
    if values == [] {
    } else {
      var before := values[..|values| - 1];
      var last := values[|values| - 1];
      assert forall i :: 0 <= i < |before| ==> before[i] == values[i];
      assert Canonical(before);
      DedupeFixed(before);
      assert last !in before && Canon(last) == last && last != "";
      assert values == before + [last];
    }
  }

  /** The result for a longer list begins with the result for a shorter one. */
  lemma {:induction false} DedupePrefix(a: seq<string>, b: seq<string>)
    ensures Dedupe(a) <= Dedupe(a + b)
  {
    if b == [] {
      assert a + b == a;
    } else {
      DedupePrefix(a, b[..|b| - 1]);
      assert (a + b)[..|a + b| - 1] == a + b[..|b| - 1];
    }
  }

  /** The members of a joined list are those of its parts. */
  lemma {:induction false} DedupeUnion(a: seq<string>, b: seq<string>)
    ensures forall x :: x in Dedupe(a + b) <==> x in Dedupe(a) || x in Dedupe(b)
  {
    if b == [] {
      assert a + b == a;
    } else {
      DedupeUnion(a, b[..|b| - 1]);
      assert (a + b)[..|a + b| - 1] == a + b[..|b| - 1];
    }
  }

  // ----- rules ------------------------------------------------------------------------

  function Normalized(r: Rules): Rules { Rules(Dedupe(r.exes), Dedupe(r.titles), r.privateBrowsing) }

  const PASSWORD_MANAGERS: seq<string> := [
    "1password.exe", "bitwarden.exe", "keepass.exe", "keepassxc.exe", "keeperpasswordmanager.exe",
    "lastpass for desktop.exe", "protonpass.exe"]

  function WithPasswordManagers(r: Rules): Rules { Normalized(r.(exes := r.exes + PASSWORD_MANAGERS)) }

  const DEFAULT := Rules(PASSWORD_MANAGERS, [], true)

  lemma NormalizedIdempotent(r: Rules)
    ensures Normalized(Normalized(r)) == Normalized(r)
  {
    DedupeExact(r.exes);
    DedupeExact(r.titles);
    DedupeFixed(Dedupe(r.exes));
    DedupeFixed(Dedupe(r.titles));
  }

  /** The merge keeps the owner's own rules, in order and first, adds every default, and
      nothing else. */
  lemma MergeExact(r: Rules)
    ensures Normalized(r).exes <= WithPasswordManagers(r).exes
    ensures WithPasswordManagers(r) == Normalized(r).(exes := WithPasswordManagers(r).exes)
    ensures Canonical(WithPasswordManagers(r).exes)
    ensures forall x :: x in WithPasswordManagers(r).exes <==>
              x in Normalized(r).exes || x in Dedupe(PASSWORD_MANAGERS)
  {
    DedupePrefix(r.exes, PASSWORD_MANAGERS);
    DedupeUnion(r.exes, PASSWORD_MANAGERS);
    DedupeExact(r.exes + PASSWORD_MANAGERS);
  }

  /** Merging twice adds nothing. */
  lemma MergeIdempotent(r: Rules)
    ensures WithPasswordManagers(WithPasswordManagers(r)) == WithPasswordManagers(r)
  {
    var m := WithPasswordManagers(r);
    NormalizedIdempotent(r.(exes := r.exes + PASSWORD_MANAGERS));
    MergeExact(r);
    DedupeAbsorbs(m.exes, PASSWORD_MANAGERS);
  }

  /** Appending values the list already holds changes nothing. */
  lemma {:induction false} DedupeAbsorbs(a: seq<string>, b: seq<string>)
    requires forall x :: x in Dedupe(b) ==> x in Dedupe(a)
    ensures Dedupe(a + b) == Dedupe(a)
  {
    if b == [] {
      assert a + b == a;
    } else {
      var init := b[..|b| - 1];
      DedupePrefix(init, [b[|b| - 1]]);
      assert init + [b[|b| - 1]] == b;
      DedupeAbsorbs(a, init);
      assert (a + b)[..|a + b| - 1] == a + init;
    }
  }
}
