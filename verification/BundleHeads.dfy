/**
  Reading what Git says of a bundle: the list of heads, and a single strict line.
*/
module BundleHeads {
  import opened Prelude
  import opened Text

  const HEAD := "HEAD"
  const MAIN := "refs/heads/main"

  /** One line of the listing. */
  function Line(commit: string, name: string): string { commit + " " + name }

  /** The two lines, in either order, with at most one trailing newline. */
  predicate TwoHeads(text: string, commit: string) {
    exists swapped: bool, ended: bool :: text == Listing(commit, swapped, ended)
  }

  function Listing(commit: string, swapped: bool, ended: bool): string {
    (if swapped then Line(commit, MAIN) + "\n" + Line(commit, HEAD) else Line(commit, HEAD) + "\n" + Line(commit, MAIN))
    + if ended then "\n" else ""
  }

  /** The listing, written out. */
  lemma FourTexts(text: string, commit: string)
    ensures TwoHeads(text, commit) <==>
              || text == commit + " HEAD\n" + commit + " refs/heads/main"
              || text == commit + " HEAD\n" + commit + " refs/heads/main\n"
              || text == commit + " refs/heads/main\n" + commit + " HEAD"
              || text == commit + " refs/heads/main\n" + commit + " HEAD\n"
  {
    HeadFirst(commit);
    MainFirst(commit);
  }

  lemma HeadFirst(commit: string)
    ensures Listing(commit, false, false) == commit + " HEAD\n" + commit + " refs/heads/main"
    ensures Listing(commit, false, true) == commit + " HEAD\n" + commit + " refs/heads/main\n"
  {
    assert " " + "HEAD" + "\n" == " HEAD\n" && " " + "refs/heads/main" == " refs/heads/main";
    assert " refs/heads/main" + "\n" == " refs/heads/main\n";
  }

  lemma MainFirst(commit: string)
    ensures Listing(commit, true, false) == commit + " refs/heads/main\n" + commit + " HEAD"
    ensures Listing(commit, true, true) == commit + " refs/heads/main\n" + commit + " HEAD\n"
  {
    assert " " + "refs/heads/main" + "\n" == " refs/heads/main\n" && " " + "HEAD" == " HEAD";
    assert " HEAD" + "\n" == " HEAD\n";
  }

  /** `strip_suffix('\\n')`, or the whole text. */
  function WithoutNewline(text: string): string {
    if text != "" && text[|text| - 1] == '\n' then text[..|text| - 1] else text
  }

  predicate CleanCommit(commit: string) { ' ' !in commit && '\n' !in commit }

  predicate HasSpace(name: string) { exists i :: 0 <= i < |name| && IsSpace(name[i]) }

  /** Every line is the commit, a space and a name; the names are plain and distinct. */
  ghost predicate Parses(lines: seq<string>, commit: string, names: seq<string>) {
    && |names| == |lines|
    && (forall i :: 0 <= i < |lines| ==> SplitOnce(lines[i], ' ') == Some((commit, names[i])) && !HasSpace(names[i]))
    && (forall i, j :: 0 <= i < j < |names| ==> names[i] != names[j])
  }

  /** The loop over the lines. */
  method ParseHeads(lines: seq<string>, commit: string) returns (heads: Option<set<string>>, ghost names: seq<string>)
    ensures heads.Some? ==> Parses(lines, commit, names) && heads.value == set i | 0 <= i < |names| :: names[i]
    ensures heads.None? ==> forall ns :: !Parses(lines, commit, ns)
  {
    var seen: set<string> := {};
    names := [];
    for n := 0 to |lines|
      invariant Parses(lines[..n], commit, names)
      invariant seen == set i | 0 <= i < n :: names[i]
    {
      var parts := SplitOnce(lines[n], ' ');
      if parts.None? {
        return None, names;
      }
      var (oid, name) := parts.value;
      if oid != commit || HasSpace(name) {
        return None, names;
      }
      if name in seen {
        ghost var i :| 0 <= i < n && names[i] == name;
        assert SplitOnce(lines[..n][i], ' ') == Some((commit, name));
        return None, names;
      }
      seen := seen + {name};
      names := names + [name];
    }
    assert lines[..|lines|] == lines;
    heads := Some(seen);
  }

  /** `verify_bundle_heads`; text that is not UTF-8 arrives as `None`. It accepts exactly the two
      lines for the commit - and nothing at all for a commit holding a space or a newline. */
  method VerifyBundleHeads(text: Option<string>, commit: string) returns (ok: bool)
    ensures ok <==> text.Some? && CleanCommit(commit) && TwoHeads(text.value, commit)
    ensures ok <==>
              && text.Some? && ' ' !in commit && '\n' !in commit
              && (|| text.value == commit + " HEAD\n" + commit + " refs/heads/main"
                  || text.value == commit + " HEAD\n" + commit + " refs/heads/main\n"
                  || text.value == commit + " refs/heads/main\n" + commit + " HEAD"
                  || text.value == commit + " refs/heads/main\n" + commit + " HEAD\n")
  {
    if text.Some? { FourTexts(text.value, commit); }
    if text.None? {
      return false;
    }
    var lines := SplitOn(WithoutNewline(text.value), '\n');
    var heads, names := ParseHeads(lines, commit);
    ok := heads.Some? && heads.value == {HEAD, MAIN};
    if ok {
      PairOf(names);
      HeadsAreListed(text.value, commit, lines, names);
    }
    if CleanCommit(commit) && TwoHeads(text.value, commit) {
      ghost var wanted := ListingParses(text.value, commit);
      SameNames(lines, commit, names, wanted);
      assert names[0] in heads.value && names[1] in heads.value;
    }
  }

  lemma SameNames(lines: seq<string>, commit: string, a: seq<string>, b: seq<string>)
    requires Parses(lines, commit, a) && Parses(lines, commit, b)
    ensures a == b
  {
    forall i | 0 <= i < |lines| ensures a[i] == b[i] {
      assert SplitOnce(lines[i], ' ') == Some((commit, a[i]));
    }
  }

  lemma {:induction false} DistinctCount(names: seq<string>)
    requires forall i, j :: 0 <= i < j < |names| ==> names[i] != names[j]
    ensures |set i | 0 <= i < |names| :: names[i]| == |names|
  {
    if names == [] {
    } else {
      var init, last := names[..|names| - 1], names[|names| - 1];
      DistinctCount(init);
      var before := set i | 0 <= i < |init| :: init[i];
      var all := set i | 0 <= i < |names| :: names[i];
      assert all == before + {last};
    }
  }

  /** Distinct names that make up the pair are the pair, in one order or the other. */
  lemma PairOf(names: seq<string>)
    requires forall i, j :: 0 <= i < j < |names| ==> names[i] != names[j]
    requires (set i | 0 <= i < |names| :: names[i]) == {HEAD, MAIN}
    ensures names == [HEAD, MAIN] || names == [MAIN, HEAD]
  {
    DistinctCount(names);
    var all := set i | 0 <= i < |names| :: names[i];
    assert |all| == 2;
    assert names[0] in all && names[1] in all;
  }

  /** Accepted lines spell out the listing. */
  lemma HeadsAreListed(text: string, commit: string, lines: seq<string>, names: seq<string>)
    requires lines == SplitOn(WithoutNewline(text), '\n') && |lines| == |names|
    requires forall i :: 0 <= i < |lines| ==> SplitOnce(lines[i], ' ') == Some((commit, names[i]))
    requires names == [HEAD, MAIN] || names == [MAIN, HEAD]
    ensures CleanCommit(commit) && TwoHeads(text, commit)
  {
    SplitOnceExact(lines[0], ' ', commit, names[0]);
    SplitOnceExact(lines[1], ' ', commit, names[1]);
    PiecesAreClean(WithoutNewline(text), '\n', 0);
    assert forall i :: 0 <= i < |commit| ==> commit[i] == lines[0][i];
    TwoPieces(WithoutNewline(text), '\n');
    var ended := WithoutNewline(text) != text;
    assert text == WithoutNewline(text) + if ended then "\n" else "";
    assert text == Listing(commit, names[0] == MAIN, ended);
  }

  /** Two lines for a clean commit split at the newline, and each at its space. */
  lemma LinesSplit(commit: string, first: string, second: string)
    requires CleanCommit(commit) && '\n' !in first && '\n' !in second
    ensures SplitOn(Line(commit, first) + "\n" + Line(commit, second), '\n') == [Line(commit, first), Line(commit, second)]
    ensures SplitOnce(Line(commit, first), ' ') == Some((commit, first))
    ensures SplitOnce(Line(commit, second), ' ') == Some((commit, second))
  {
    SplitJoin(Line(commit, first), '\n', Line(commit, second));
    SplitWhole(Line(commit, first), '\n');
    SplitWhole(Line(commit, second), '\n');
    SplitOnceExact(Line(commit, first), ' ', commit, first);
    SplitOnceExact(Line(commit, second), ' ', commit, second);
  }

  /** Any two distinct plain names, listed, parse back to themselves. */
  lemma PairParses(commit: string, first: string, second: string, text: string, ended: bool)
    requires CleanCommit(commit) && first != second && second != "" && !HasSpace(first) && !HasSpace(second)
    requires text == Line(commit, first) + "\n" + Line(commit, second) + if ended then "\n" else ""
    ensures Parses(SplitOn(WithoutNewline(text), '\n'), commit, [first, second])
  {
    assert '\n' !in first && '\n' !in second by { assert IsSpace('\n'); }
    LinesSplit(commit, first, second);
    var b := Line(commit, second);
    assert b[|b| - 1] == second[|second| - 1];
    assert WithoutNewline(text) == Line(commit, first) + "\n" + b;
  }

  lemma HeadNamesArePlain()
    ensures HEAD != MAIN && !HasSpace(HEAD) && !HasSpace(MAIN)
  {
  }

  /** The listing parses to its two names. */
  lemma ListingParses(text: string, commit: string) returns (names: seq<string>)
    requires CleanCommit(commit) && TwoHeads(text, commit)
    ensures Parses(SplitOn(WithoutNewline(text), '\n'), commit, names)
    ensures names == [HEAD, MAIN] || names == [MAIN, HEAD]
  {
    var swapped, ended :| text == Listing(commit, swapped, ended);
    HeadNamesArePlain();
    if swapped {
      PairParses(commit, MAIN, HEAD, text, ended);
      names := [MAIN, HEAD];
    } else {
      PairParses(commit, HEAD, MAIN, text, ended);
      names := [HEAD, MAIN];
    }
  }

  // ----- one strict line --------------------------------------------------------------

  /** A nonempty line with no line break inside. */
  predicate SingleLine(line: string) { line != "" && '\n' !in line && '\r' !in line }

  /** `strict_line`: the exact inverse of appending a newline to a nonempty single line. */
  method StrictLine(text: Option<string>) returns (line: Option<string>)
    ensures forall l :: line == Some(l) <==> text == Some(l + "\n") && SingleLine(l)
  {
    if text.None? || text.value == "" || text.value[|text.value| - 1] != '\n' {
      return None;
    }
    var l := text.value[..|text.value| - 1];
    assert text.value == l + "\n";
    assert forall m: string :: text.value == m + "\n" ==> m == (m + "\n")[..|m|] == l;
    if l == "" || '\n' in l || '\r' in l {
      return None;
    }
    line := Some(l);
  }
}
