/** Strings: ASCII case, white space, and splitting at a separator. */
module Text {
  import opened Prelude

  /** Unicode white space, as the source's trimming and word checks know it. */
  predicate IsSpace(c: char) {
    var n := c as int;
    9 <= n <= 13 || n == 32 || n == 0x85 || n == 0xA0 || n == 0x1680 || 0x2000 <= n <= 0x200A
    || n == 0x2028 || n == 0x2029 || n == 0x202F || n == 0x205F || n == 0x3000
  }

  /** The ASCII characters among them. */
  lemma AsciiSpaces(c: char)
    requires c as int < 128
    ensures IsSpace(c) <==> c == ' ' || c == '\t' || c == '\n' || c == '\r' || c as int == 11 || c as int == 12
  {
  }

  function LowerChar(c: char): char { if 'A' <= c <= 'Z' then (c as int + 32) as char else c }

  function UpperChar(c: char): char { if 'a' <= c <= 'z' then (c as int - 32) as char else c }

  function Lower(s: string): string { seq(|s|, i requires 0 <= i < |s| => LowerChar(s[i])) }

  function Upper(s: string): string { seq(|s|, i requires 0 <= i < |s| => UpperChar(s[i])) }

  /** The same letter in either ASCII case, or the same character. */
  predicate Twins(a: char, b: char) {
    || a == b
    || ('A' <= a <= 'Z' && b as int == a as int + 32)
    || ('A' <= b <= 'Z' && a as int == b as int + 32)
  }

  /** The strings differ at most in ASCII case. */
  predicate SameButCase(s: string, t: string) {
    |s| == |t| && forall i :: 0 <= i < |s| ==> Twins(s[i], t[i])
  }

  /** Folding identifies exactly the strings that differ at most in ASCII case. */
  lemma LowerSame(s: string, t: string)
    ensures Lower(s) == Lower(t) <==> SameButCase(s, t)
    ensures Upper(s) == Upper(t) <==> SameButCase(s, t)
  {
    if Lower(s) == Lower(t) {
      assert |s| == |Lower(s)| == |t|;
      forall i | 0 <= i < |s| ensures Twins(s[i], t[i]) { assert Lower(s)[i] == Lower(t)[i]; }
    }
    if Upper(s) == Upper(t) {
      assert |s| == |Upper(s)| == |t|;
      forall i | 0 <= i < |s| ensures Twins(s[i], t[i]) { assert Upper(s)[i] == Upper(t)[i]; }
    }
  }

  /** The pieces of `s` between occurrences of `sep`; never empty. */
  function SplitOn(s: string, sep: char): seq<string>
    ensures |SplitOn(s, sep)| > 0
  {
    if s == "" then [""]
    else
      var rest := SplitOn(s[1..], sep);
      if s[0] == sep then [""] + rest else [[s[0]] + rest[0]] + rest[1..]
  }

  /** Splitting a join: the pieces of `a` followed by the pieces of `b`. */
  lemma {:induction false} SplitJoin(a: string, sep: char, b: string)
    ensures SplitOn(a + [sep] + b, sep) == SplitOn(a, sep) + SplitOn(b, sep)
  {
    var whole := a + [sep] + b;
    if a == "" {
      assert whole[1..] == b;
    } else {
      assert whole[1..] == a[1..] + [sep] + b;
      SplitJoin(a[1..], sep, b);
    }
  }

  /** A string without the separator is its own only piece. */
  lemma {:induction false} SplitWhole(s: string, sep: char)
    requires sep !in s
    ensures SplitOn(s, sep) == [s]
  {
    if s == "" {
    } else {
      SplitWhole(s[1..], sep);
      assert [s[0]] + s[1..] == s;
    }
  }

  /** A character other than the separator stays inside some piece. */
  lemma {:induction false} CharInPiece(s: string, sep: char, i: nat)
    requires i < |s| && s[i] != sep
    ensures exists k :: 0 <= k < |SplitOn(s, sep)| && s[i] in SplitOn(s, sep)[k]
  {
    var rest := SplitOn(s[1..], sep);
    if i == 0 {
      assert s[0] in SplitOn(s, sep)[0];
    } else {
      CharInPiece(s[1..], sep, i - 1);
      var k :| 0 <= k < |rest| && s[i] in rest[k];
      if s[0] == sep { assert SplitOn(s, sep)[k + 1] == rest[k]; }
      else if k == 0 { assert s[i] in SplitOn(s, sep)[0]; }
      else { assert SplitOn(s, sep)[k] == rest[k]; }
    }
  }

  /** Pieces hold no separator. */
  lemma {:induction false} PiecesAreClean(s: string, sep: char, k: nat)
    requires k < |SplitOn(s, sep)|
    ensures sep !in SplitOn(s, sep)[k]
  {
    if s == "" {
    } else {
      if s[0] == sep {
        if k > 0 { PiecesAreClean(s[1..], sep, k - 1); }
      } else {
        PiecesAreClean(s[1..], sep, k);
      }
    }
  }

  /** Two pieces come from one separator. */
  lemma {:induction false} TwoPieces(s: string, sep: char)
    ensures |SplitOn(s, sep)| == 1 ==> s == SplitOn(s, sep)[0]
    ensures |SplitOn(s, sep)| == 2 ==> s == SplitOn(s, sep)[0] + [sep] + SplitOn(s, sep)[1]
  {
    if s == "" {
    } else {
      TwoPieces(s[1..], sep);
      assert s == [s[0]] + s[1..];
    }
  }

  /** What stands before and after the first `sep`. */
  function SplitOnce(s: string, sep: char): Option<(string, string)> {
    if s == "" then None
    else if s[0] == sep then Some(("", s[1..]))
    else match SplitOnce(s[1..], sep)
      case None => None
      case Some((a, b)) => Some(([s[0]] + a, b))
  }

  lemma {:induction false} SplitOnceExact(s: string, sep: char, a: string, b: string)
    ensures SplitOnce(s, sep) == Some((a, b)) <==> s == a + [sep] + b && sep !in a
  {
    var joined := a + [sep] + b;
    assert joined[0] == if a == "" then sep else a[0];
    if s != "" {
      assert s == [s[0]] + s[1..];
      if a == "" {
        assert joined[1..] == b;
      } else {
        assert joined[1..] == a[1..] + [sep] + b && a == [a[0]] + a[1..];
        SplitOnceExact(s[1..], sep, a[1..], b);
      }
    }
  }
}
