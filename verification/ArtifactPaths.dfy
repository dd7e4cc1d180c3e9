/**
  The portable relative-path grammar for release artifacts, ASCII case folding, and the
  ancestors of a path.
*/
module ArtifactPaths {
  import opened Prelude
  import opened Text

  // ----- components -------------------------------------------------------------------

  /** The components of a path; never empty. */
  function Split(path: string): seq<string> { SplitOn(path, '/') }

  // ----- what one component may be ----------------------------------------------------

  predicate PortableChar(c: char) {
    'a' <= c <= 'z' || 'A' <= c <= 'Z' || '0' <= c <= '9' || c == '.' || c == '_' || c == '-' || c == '{' || c == '}'
  }

  /** ASCII case folding. */
  function Fold(s: string): string { Lower(s) }

  /** The part before the first dot. */
  function Stem(s: string): string {
    if s == "" || s[0] == '.' then "" else [s[0]] + Stem(s[1..])
  }

  /** Names Windows keeps for devices. */
  predicate Reserved(component: string) {
    var stem := Upper(Stem(component));
    || stem in {"CON", "PRN", "AUX", "NUL"}
    || (|stem| == 4 && stem[..3] in {"COM", "LPT"} && '1' <= stem[3] <= '9')
  }

  /** One acceptable component, said once. */
  predicate PortableName(c: string) {
    c != "" && c[|c| - 1] != '.' && !Reserved(c) && forall i :: 0 <= i < |c| ==> PortableChar(c[i])
  }

  ghost predicate ValidPath(path: string) {
    forall k :: 0 <= k < |Split(path)| ==> PortableName(Split(path)[k])
  }

  // ----- the checker ------------------------------------------------------------------

  datatype PathError =
    | Empty | Absolute | Backslash | ControlChar | EmptyComponent | Traversal | TrailingDotOrSpace
    | ReservedName | NonPortableName

  predicate IsControl(c: char) { c as int < 32 || 127 <= c as int < 160 }

  /** Accepts exactly the valid paths, and names the first thing wrong with the others. */
  method ValidateRelativePath(path: string) returns (r: Result<(), PathError>)
    ensures r.Ok? <==> ValidPath(path)
    ensures path == "" ==> r == Err(Empty)
    ensures path != "" && path[0] == '/' ==> r == Err(Absolute)
    ensures path != "" && path[0] != '/' && '\\' in path ==> r == Err(Backslash)
    ensures path != "" && path[0] != '/' && '\\' !in path ==>
              (exists i :: 0 <= i < |path| && (path[i] as int < 32 || 127 <= path[i] as int < 160)) ==> r == Err(ControlChar)
  {
    if path == "" {
      assert !PortableName(Split(path)[0]);
      return Err(Empty);
    }
    if path[0] == '/' {
      assert Split(path)[0] == "";
      return Err(Absolute);
    }
    if '\\' in path {
      ghost var i :| 0 <= i < |path| && path[i] == '\\';
      BadCharRefused(path, i);
      return Err(Backslash);
    }
    if exists i :: 0 <= i < |path| && IsControl(path[i]) {
      ghost var i :| 0 <= i < |path| && IsControl(path[i]);
      BadCharRefused(path, i);
      return Err(ControlChar);
    }
    var components := Split(path);
    for k := 0 to |components|
      invariant forall j :: 0 <= j < k ==> PortableName(components[j])
    {
      var component := components[k];
      var bad := CheckComponent(component);
      if bad.Some? {
        assert !PortableName(Split(path)[k]);
        return Err(bad.value);
      }
    }
    r := Ok(());
  }

  method CheckComponent(component: string) returns (bad: Option<PathError>)
    ensures bad.None? <==> PortableName(component)
    ensures component == "" ==> bad == Some(EmptyComponent)
    ensures component == "." || component == ".." ==> bad == Some(Traversal)
    ensures component != "" && component != "." && component != ".." && component[|component| - 1] in ". " ==>
              bad == Some(TrailingDotOrSpace)
    ensures component != "" && component[|component| - 1] !in ". " && bad == Some(ReservedName) ==> Reserved(component)
    ensures component != "" && component[|component| - 1] !in ". " && Reserved(component) ==> bad == Some(ReservedName)
  {
    if component == "" {
      return Some(EmptyComponent);
    }
    if component == "." || component == ".." {
      assert component[|component| - 1] == '.';
      return Some(Traversal);
    }
    if component[|component| - 1] == '.' || component[|component| - 1] == ' ' {
      return Some(TrailingDotOrSpace);
    }
    if Reserved(component) {
      return Some(ReservedName);
    }
    if exists i :: 0 <= i < |component| && !PortableChar(component[i]) {
      return Some(NonPortableName);
    }
    bad := None;
  }

  /** Folded paths are equal exactly when they differ at most in ASCII case. */
  lemma FoldSame(p: string, q: string)
    ensures Fold(p) == Fold(q) <==> SameButCase(p, q)
  {
    LowerSame(p, q);
  }

  /** The device names, one by one. */
  const DEVICES: seq<string> := [
    "CON", "PRN", "AUX", "NUL",
    "COM1", "COM2", "COM3", "COM4", "COM5", "COM6", "COM7", "COM8", "COM9",
    "LPT1", "LPT2", "LPT3", "LPT4", "LPT5", "LPT6", "LPT7", "LPT8", "LPT9"]

  /** `c` is the device name `d` in any case, alone or before its first dot. */
  predicate NamesDevice(c: string, d: string) {
    |d| <= |c| && SameButCase(c[..|d|], d) && (|c| == |d| || c[|d|] == '.')
  }

  lemma {:induction false} StemIs(s: string)
    ensures |Stem(s)| <= |s| && Stem(s) == s[..|Stem(s)|] && '.' !in Stem(s)
    ensures |Stem(s)| == |s| || s[|Stem(s)|] == '.'
  {
    if s == "" || s[0] == '.' {
    } else {
      StemIs(s[1..]);
      assert s[..|Stem(s)|] == [s[0]] + s[1..][..|Stem(s)| - 1];
    }
  }

  /** A name whose stem is `d` in some case, and conversely. */
  lemma StemNamesDevice(c: string, d: string)
    requires d == Upper(d) && '.' !in d
    ensures Upper(Stem(c)) == d <==> NamesDevice(c, d)
  {
    StemIs(c);
    LowerSame(Stem(c), d);
    if NamesDevice(c, d) {
      forall i | 0 <= i < |d| ensures c[i] != '.' { assert Twins(c[..|d|][i], d[i]); }
      assert Stem(c) == c[..|d|];
    }
    if Upper(Stem(c)) == d {
      assert SameButCase(Stem(c), d);
    }
  }

  lemma DevicesAreUpper(k: nat)
    requires k < |DEVICES|
    ensures DEVICES[k] == Upper(DEVICES[k]) && '.' !in DEVICES[k]
  {
    var d := DEVICES[k];
    assert |d| == 3 || |d| == 4;
  }

  /** The reserved names are the listed ones. */
  lemma ReservedIsListed(c: string)
    ensures Reserved(c) <==> exists k :: 0 <= k < |DEVICES| && Upper(Stem(c)) == DEVICES[k]
  {
    var stem := Upper(Stem(c));
    if Reserved(c) {
      if stem == "CON" { assert stem == DEVICES[0]; }
      else if stem == "PRN" { assert stem == DEVICES[1]; }
      else if stem == "AUX" { assert stem == DEVICES[2]; }
      else if stem == "NUL" { assert stem == DEVICES[3]; }
      else {
        var k := (if stem[..3] == "COM" then 4 else 13) + (stem[3] as int - '1' as int);
        assert stem == stem[..3] + [stem[3]];
        assert stem == DEVICES[k];
      }
    }
    if k :| 0 <= k < |DEVICES| && stem == DEVICES[k] {
      if k >= 4 { assert |stem| == 4 && stem[..3] == (if k < 13 then "COM" else "LPT") && '1' <= stem[3] <= '9'; }
    }
  }

  /** What one component may be, character by character: nonempty, of the allowed characters, not
      ending in a dot (so neither `.` nor `..`), and no device name in any case or with any
      extension. */
  lemma PortableNameExactly(c: string)
    ensures PortableName(c) <==>
              && c != "" && c[|c| - 1] != '.'
              && (forall i :: 0 <= i < |c| ==>
                    'a' <= c[i] <= 'z' || 'A' <= c[i] <= 'Z' || '0' <= c[i] <= '9' || c[i] in "._-{}")
              && (forall k :: 0 <= k < |DEVICES| ==> !NamesDevice(c, DEVICES[k]))
  {
    ReservedIsListed(c);
    forall k | 0 <= k < |DEVICES| ensures Upper(Stem(c)) == DEVICES[k] <==> NamesDevice(c, DEVICES[k]) {
      DevicesAreUpper(k);
      StemNamesDevice(c, DEVICES[k]);
    }
  }

  /** A character outside the grammar spoils the whole path. */
  lemma BadCharRefused(path: string, i: nat)
    requires i < |path| && path[i] != '/' && !PortableChar(path[i])
    ensures !ValidPath(path)
  {
    CharInPiece(path, '/', i);
    var k :| 0 <= k < |Split(path)| && path[i] in Split(path)[k];
    var j :| 0 <= j < |Split(path)[k]| && Split(path)[k][j] == path[i];
    assert !PortableChar(Split(path)[k][j]);
  }

  lemma PortableConcat(x: seq<string>, y: seq<string>)
    ensures (forall k :: 0 <= k < |x + y| ==> PortableName((x + y)[k])) <==>
              (forall k :: 0 <= k < |x| ==> PortableName(x[k])) && (forall k :: 0 <= k < |y| ==> PortableName(y[k]))
  {
    var whole := x + y;
    if forall k :: 0 <= k < |whole| ==> PortableName(whole[k]) {
      forall k | 0 <= k < |x| ensures PortableName(x[k]) { assert PortableName(whole[k]); }
      forall k | 0 <= k < |y| ensures PortableName(y[k]) { assert PortableName(whole[|x| + k]); }
    }
  }

  /** Acceptance composes: `a/b` is accepted exactly when `a` and `b` both are. */
  lemma AcceptanceComposes(a: string, b: string)
    ensures ValidPath(a + "/" + b) <==> ValidPath(a) && ValidPath(b)
  {
    SplitJoin(a, '/', b);
    assert a + "/" + b == a + ['/'] + b;
    assert Split(a + "/" + b) == Split(a) + Split(b);
    PortableConcat(Split(a), Split(b));
  }

  // ----- ancestors --------------------------------------------------------------------

  /** The directories above a path: what is left of each slash. */
  function Ancestors(path: string): set<string> {
    set i | 0 <= i < |path| && path[i] == '/' :: path[..i]
  }

  /** The ancestors of a child are its parent and the parent's ancestors. */
  lemma ChildAncestors(parent: string, name: string)
    requires '/' !in name
    ensures Ancestors(parent + "/" + name) == {parent} + Ancestors(parent)
  {
    var child := parent + "/" + name;
    forall a | a in {parent} + Ancestors(parent)
      ensures a in Ancestors(child)
    {
      if a == parent {
        assert child[|parent|] == '/' && child[..|parent|] == parent;
      } else {
        var i :| 0 <= i < |parent| && parent[i] == '/' && a == parent[..i];
        assert child[i] == '/' && child[..i] == a;
      }
    }
    forall a | a in Ancestors(child)
      ensures a in {parent} + Ancestors(parent)
    {
      var i :| 0 <= i < |child| && child[i] == '/' && a == child[..i];
      if i < |parent| {
        assert parent[i] == '/' && parent[..i] == a;
      }
    }
  }
}
