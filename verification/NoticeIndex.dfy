/**
  The notices file and its index: each distinct license text once, under its digest, with the
  byte range of every text recorded, and every package's references resolved by digest.
  A digest is a number; its fixed-width hexadecimal spelling sorts the same way.
*/
module NoticeIndex {
  import opened Prelude

  type Bytes = seq<int>

  const NEWLINE: Bytes := [10]

  datatype Record = Record(sha: nat, length: nat, start: nat, end: nat)

  /** A package's reference to one of its license files. */
  datatype Ref = Ref(sha: nat, length: nat)

  /** The parts that come from outside: the digest and the heading line for a digest. */
  datatype Format = Format(digest: Bytes -> nat, heading: nat -> Bytes, header: Bytes)

  // ----- collecting the texts ---------------------------------------------------------

  /** `data` is a license file of one of the first `n` packages, filed under its digest. */
  ghost predicate Shipped(f: Format, packages: seq<seq<Bytes>>, n: nat, digest: nat, data: Bytes)
    requires n <= |packages|
  {
    exists p, k :: 0 <= p < n && 0 <= k < |packages[p]| && packages[p][k] == data && f.digest(data) == digest
  }

  /** The table holds one shipped text under every shipped text's digest, and nothing else. */
  ghost predicate TextTable(f: Format, texts: map<nat, Bytes>, packages: seq<seq<Bytes>>, n: nat)
    requires n <= |packages|
  {
    && (forall p, k :: 0 <= p < n && 0 <= k < |packages[p]| ==> f.digest(packages[p][k]) in texts)
    && (forall d :: d in texts ==> Shipped(f, packages, n, d, texts[d]))
  }

  /** References name the file's own digest and length. */
  ghost predicate RefsOf(f: Format, files: seq<Bytes>, refs: seq<Ref>) {
    |refs| == |files| && forall k :: 0 <= k < |files| ==> refs[k] == Ref(f.digest(files[k]), |files[k]|)
  }

  /** The table after one package's files: a later text replaces an earlier one of the same digest. */
  function Filed(f: Format, before: map<nat, Bytes>, files: seq<Bytes>): map<nat, Bytes> {
    if files == [] then before
    else
      var data := files[|files| - 1];
      Filed(f, before, files[..|files| - 1])[f.digest(data) := data]
  }

  /** Under any digest the table holds the package's last file with it, or what was there. */
  lemma {:induction false} FiledLast(f: Format, before: map<nat, Bytes>, files: seq<Bytes>, k: nat)
    requires k < |files| && forall l :: k < l < |files| ==> f.digest(files[l]) != f.digest(files[k])
    ensures f.digest(files[k]) in Filed(f, before, files) && Filed(f, before, files)[f.digest(files[k])] == files[k]
  {
    if k < |files| - 1 {
      var init := files[..|files| - 1];
      assert forall l :: k < l < |init| ==> init[l] == files[l];
      FiledLast(f, before, init, k);
    }
  }

  /** One package's license files. */
  method AddPackage(f: Format, before: map<nat, Bytes>, files: seq<Bytes>) returns (texts: map<nat, Bytes>, refs: seq<Ref>)
    ensures RefsOf(f, files, refs) && texts == Filed(f, before, files)
    ensures before.Keys <= texts.Keys
    ensures forall k :: 0 <= k < |files| ==> f.digest(files[k]) in texts
    ensures forall d :: d in texts ==>
              || (d in before && texts[d] == before[d])
              || (exists k :: 0 <= k < |files| && files[k] == texts[d] && f.digest(files[k]) == d)
  {
    texts, refs := before, [];
    for n := 0 to |files|
      invariant before.Keys <= texts.Keys && RefsOf(f, files[..n], refs) && texts == Filed(f, before, files[..n])
      invariant forall k :: 0 <= k < n ==> f.digest(files[k]) in texts
      invariant forall d :: d in texts ==>
                  || (d in before && texts[d] == before[d])
                  || (exists k :: 0 <= k < n && files[k] == texts[d] && f.digest(files[k]) == d)
    {
      assert files[..n + 1][..n] == files[..n];
      var data := files[n];
      var digest := f.digest(data);
      texts := texts[digest := data];
      refs := refs + [Ref(digest, |data|)];
    }
    assert files[..|files|] == files;
  }

  lemma TableGrows(f: Format, packages: seq<seq<Bytes>>, n: nat, before: map<nat, Bytes>, texts: map<nat, Bytes>)
    requires n < |packages| && TextTable(f, before, packages, n) && before.Keys <= texts.Keys
    requires forall k :: 0 <= k < |packages[n]| ==> f.digest(packages[n][k]) in texts
    requires forall d :: d in texts ==>
               || (d in before && texts[d] == before[d])
               || (exists k :: 0 <= k < |packages[n]| && packages[n][k] == texts[d] && f.digest(packages[n][k]) == d)
    ensures TextTable(f, texts, packages, n + 1)
  {
    forall d | d in texts ensures Shipped(f, packages, n + 1, d, texts[d]) {
      if d in before && texts[d] == before[d] {
        assert Shipped(f, packages, n, d, before[d]);
      }
    }
  }

  /** The first loop of `main`. */
  method CollectTexts(f: Format, packages: seq<seq<Bytes>>) returns (texts: map<nat, Bytes>, refs: seq<seq<Ref>>)
    ensures TextTable(f, texts, packages, |packages|)
    ensures |refs| == |packages| && forall p :: 0 <= p < |packages| ==> RefsOf(f, packages[p], refs[p])
  {
    texts, refs := map[], [];
    for n := 0 to |packages|
      invariant TextTable(f, texts, packages, n)
      invariant |refs| == n && forall p :: 0 <= p < n ==> RefsOf(f, packages[p], refs[p])
    {
      ghost var before := texts;
      var own;
      texts, own := AddPackage(f, texts, packages[n]);
      refs := refs + [own];
      TableGrows(f, packages, n, before, texts);
    }
  }

  // ----- sorting the digests ----------------------------------------------------------

  ghost predicate Ascending(keys: seq<nat>) { forall i, j :: 0 <= i < j < |keys| ==> keys[i] < keys[j] }

  method Least(s: set<nat>) returns (m: nat)
    requires s != {}
    ensures m in s && forall x :: x in s ==> m <= x
  {
    m :| m in s;
    var left := s - {m};
    while left != {}
      invariant left <= s && m in s
      invariant forall x :: x in s && x !in left ==> m <= x
      decreases left
    {
      var x :| x in left;
      m := if x < m then x else m;
      left := left - {x};
    }
  }

  method SortedDigests(s: set<nat>) returns (keys: seq<nat>)
    ensures Ascending(keys)
    ensures forall x :: x in keys <==> x in s
  {
    keys := [];
    var left := s;
    while left != {}
      invariant left <= s && Ascending(keys)
      invariant forall x :: x in s <==> x in keys || x in left
      invariant forall i, x :: 0 <= i < |keys| && x in left ==> keys[i] < x
      decreases left
    {
      var m := Least(left);
      keys, left := keys + [m], left - {m};
    }
  }

  // ----- the buffer -------------------------------------------------------------------

  predicate EndsWithNewline(data: Bytes) { data != [] && data[|data| - 1] == 10 }

  /** What follows a text: its missing newline, and a blank line. */
  function Trailer(data: Bytes): Bytes { (if EndsWithNewline(data) then [] else NEWLINE) + NEWLINE }

  /** One text's section of the notices file. */
  function Section(f: Format, sha: nat, data: Bytes): Bytes { f.heading(sha) + data + Trailer(data) }

  /** The notices file, section by section. */
  function Render(f: Format, keys: seq<nat>, texts: map<nat, Bytes>): Bytes
    requires forall i :: 0 <= i < |keys| ==> keys[i] in texts
  {
    if keys == [] then f.header
    else
      var d := keys[|keys| - 1];
      Render(f, keys[..|keys| - 1], texts) + Section(f, d, texts[d])
  }

  /** Where each text lies in the rendered file. */
  function RecordsOf(f: Format, keys: seq<nat>, texts: map<nat, Bytes>): seq<Record>
    requires forall i :: 0 <= i < |keys| ==> keys[i] in texts
  {
    if keys == [] then []
    else
      var init, d := keys[..|keys| - 1], keys[|keys| - 1];
      var start := |Render(f, init, texts)| + |f.heading(d)|;
      RecordsOf(f, init, texts) + [Record(d, |texts[d]|, start, start + |texts[d]|)]
  }

  /** One turn of that loop. */
  method AppendSection(f: Format, before: Bytes, sha: nat, data: Bytes) returns (notice: Bytes, record: Record)
    ensures notice == before + Section(f, sha, data)
    ensures record == Record(sha, |data|, |before| + |f.heading(sha)|, |before| + |f.heading(sha)| + |data|)
  {
    notice := before + f.heading(sha);
    var start := |notice|;
    notice := notice + data;
    if !EndsWithNewline(data) {
      notice := notice + NEWLINE;
    }
    notice := notice + NEWLINE;
    record := Record(sha, |data|, start, start + |data|);
  }

  /** The second loop of `main`: append every section and record where its text lies. */
  method BuildNotice(f: Format, texts: map<nat, Bytes>) returns (notice: Bytes, records: seq<Record>, keys: seq<nat>)
    ensures Ascending(keys) && forall x :: x in keys <==> x in texts
    ensures notice == Render(f, keys, texts)
    ensures records == RecordsOf(f, keys, texts)
  {
    keys := SortedDigests(texts.Keys);
    notice, records := f.header, [];
    for n := 0 to |keys|
      invariant notice == Render(f, keys[..n], texts) && records == RecordsOf(f, keys[..n], texts)
    {
      assert keys[..n + 1][..n] == keys[..n];
      var record;
      notice, record := AppendSection(f, notice, keys[n], texts[keys[n]]);
      records := records + [record];
    }
    assert keys[..|keys|] == keys;
  }

  // ----- what the index means ---------------------------------------------------------

  /** A record points at exactly its text, with the digest's heading right before it. */
  ghost predicate PointsAt(f: Format, notice: Bytes, r: Record, texts: map<nat, Bytes>) {
    && r.sha in texts
    && |f.header| + |f.heading(r.sha)| <= r.start <= r.end < |notice|
    && r.length == r.end - r.start
    && notice[r.start..r.end] == texts[r.sha]
    && notice[r.start - |f.heading(r.sha)|..r.start] == f.heading(r.sha)
    && BlankLineAt(notice, r.end, texts[r.sha])
  }

  /** A blank line follows the text, after a newline of its own if the text did not end with one. */
  predicate BlankLineAt(notice: Bytes, end: nat, text: Bytes) {
    && end < |notice| && notice[end] == 10
    && (text == [] || text[|text| - 1] != 10 ==> end + 1 < |notice| && notice[end + 1] == 10)
  }

  /** Each section begins after the text before it has ended. */
  ghost predicate Separate(f: Format, records: seq<Record>) {
    forall i, j :: 0 <= i < j < |records| ==> records[i].end < records[j].start - |f.heading(records[j].sha)|
  }

  lemma PointsAtLonger(f: Format, notice: Bytes, more: Bytes, r: Record, texts: map<nat, Bytes>)
    requires PointsAt(f, notice, r, texts)
    ensures PointsAt(f, notice + more, r, texts)
  {
    var longer := notice + more;
    assert longer[r.start..r.end] == notice[r.start..r.end];
    assert longer[r.start - |f.heading(r.sha)|..r.start] == notice[r.start - |f.heading(r.sha)|..r.start];
  }

  lemma SectionPoints(f: Format, before: Bytes, digest: nat, texts: map<nat, Bytes>, r: Record)
    requires digest in texts && |f.header| <= |before|
    requires r == Record(digest, |texts[digest]|, |before| + |f.heading(digest)|, |before| + |f.heading(digest)| + |texts[digest]|)
    ensures PointsAt(f, before + Section(f, digest, texts[digest]), r, texts)
  {
    var notice := before + Section(f, digest, texts[digest]);
    assert notice[r.start..r.end] == texts[digest];
    assert notice[|before|..r.start] == f.heading(digest);
  }

  lemma {:induction false} RecordsPoint(f: Format, keys: seq<nat>, texts: map<nat, Bytes>, i: nat)
    requires i < |keys| && forall i :: 0 <= i < |keys| ==> keys[i] in texts
    ensures |RecordsOf(f, keys, texts)| == |keys| && |f.header| <= |Render(f, keys, texts)|
    ensures RecordsOf(f, keys, texts)[i].sha == keys[i]
    ensures PointsAt(f, Render(f, keys, texts), RecordsOf(f, keys, texts)[i], texts)
  {
    var init, d := keys[..|keys| - 1], keys[|keys| - 1];
    HeaderFirst(f, init, texts);
    if i < |init| {
      RecordsPoint(f, init, texts, i);
      PointsAtLonger(f, Render(f, init, texts), Section(f, d, texts[d]), RecordsOf(f, init, texts)[i], texts);
    } else {
      SectionPoints(f, Render(f, init, texts), d, texts, RecordsOf(f, keys, texts)[i]);
    }
  }

  lemma {:induction false} HeaderFirst(f: Format, keys: seq<nat>, texts: map<nat, Bytes>)
    requires forall i :: 0 <= i < |keys| ==> keys[i] in texts
    ensures |RecordsOf(f, keys, texts)| == |keys| && |f.header| <= |Render(f, keys, texts)|
    ensures f.header <= Render(f, keys, texts)
  {
    if keys == [] {
    } else {
      HeaderFirst(f, keys[..|keys| - 1], texts);
    }
  }

  lemma {:induction false} RecordsSeparate(f: Format, keys: seq<nat>, texts: map<nat, Bytes>)
    requires forall i :: 0 <= i < |keys| ==> keys[i] in texts
    ensures Separate(f, RecordsOf(f, keys, texts))
  {
    if keys == [] {
    } else {
      var init := keys[..|keys| - 1];
      RecordsSeparate(f, init, texts);
      HeaderFirst(f, init, texts);
      forall i | 0 <= i < |init| ensures RecordsOf(f, init, texts)[i].end < |Render(f, init, texts)| {
        RecordsPoint(f, init, texts, i);
      }
    }
  }

  /** Every record's byte range is exactly its text, the ranges are disjoint and ascending, and
      each text's heading stands between it and the text before. */
  lemma RecordsPointAtTexts(f: Format, keys: seq<nat>, texts: map<nat, Bytes>)
    requires forall i :: 0 <= i < |keys| ==> keys[i] in texts
    ensures
      var records := RecordsOf(f, keys, texts);
      && |records| == |keys| && f.header <= Render(f, keys, texts)
      && (forall i :: 0 <= i < |keys| ==> records[i].sha == keys[i] && PointsAt(f, Render(f, keys, texts), records[i], texts))
      && Separate(f, records)
  {
    HeaderFirst(f, keys, texts);
    forall i | 0 <= i < |keys|
      ensures RecordsOf(f, keys, texts)[i].sha == keys[i] && PointsAt(f, Render(f, keys, texts), RecordsOf(f, keys, texts)[i], texts)
    {
      RecordsPoint(f, keys, texts, i);
    }
    RecordsSeparate(f, keys, texts);
  }

  // ----- the generated index ----------------------------------------------------------

  const MAX_NOTICE_BYTES := 16_777_216

  datatype Failure = MissingLicense | TooLong

  datatype Index = Index(notice: Bytes, records: seq<Record>, refs: seq<seq<Ref>>)

  /** Some package ships no license text. */
  predicate Unlicensed(packages: seq<seq<Bytes>>) { exists p :: 0 <= p < |packages| && packages[p] == [] }

  /** `main`, from the packages' license files on; `texts` and `keys` are its table and its order. */
  method Generate(f: Format, packages: seq<seq<Bytes>>) returns (r: Result<Index, Failure>, texts: map<nat, Bytes>, keys: seq<nat>)
    ensures r == Err(MissingLicense) <==> Unlicensed(packages)
    ensures !Unlicensed(packages) ==>
              && TextTable(f, texts, packages, |packages|)
              && Ascending(keys) && (forall x :: x in keys <==> x in texts)
              && (r.Ok? <==> |Render(f, keys, texts)| < 16 * 1024 * 1024)
              && (r.Ok? ==>
                    && r.value.notice == Render(f, keys, texts) && r.value.records == RecordsOf(f, keys, texts)
                    && |r.value.refs| == |packages|
                    && forall p :: 0 <= p < |packages| ==> RefsOf(f, packages[p], r.value.refs[p]))
  {
    var refs;
    texts, refs := CollectTexts(f, packages);
    if Unlicensed(packages) {
      return Err(MissingLicense), texts, [];
    }
    var notice, records;
    notice, records, keys := BuildNotice(f, texts);
    r := if |notice| < MAX_NOTICE_BYTES then Ok(Index(notice, records, refs)) else Err(TooLong);
  }

  /** `r` is the one record of `file`: its digest, its length, and its bytes in the notices file. */
  ghost predicate Resolves(f: Format, notice: Bytes, records: seq<Record>, file: Bytes, i: nat) {
    && i < |records| && records[i].sha == f.digest(file) && records[i].length == |file|
    && records[i].start <= records[i].end <= |notice| && notice[records[i].start..records[i].end] == file
    && forall j :: 0 <= j < |records| && records[j].sha == f.digest(file) ==> j == i
  }

  /** Every package reference resolves to exactly one record, of the same length, whose byte
      range in the notices file is that package's license file - unless another shipped text
      has the same digest. */
  lemma ReferencesResolve(f: Format, packages: seq<seq<Bytes>>, keys: seq<nat>, texts: map<nat, Bytes>, p: nat, k: nat) returns (i: nat)
    requires TextTable(f, texts, packages, |packages|) && Ascending(keys) && forall x :: x in keys <==> x in texts
    requires p < |packages| && k < |packages[p]|
    requires forall q, l :: 0 <= q < |packages| && 0 <= l < |packages[q]| && f.digest(packages[q][l]) == f.digest(packages[p][k]) ==>
               packages[q][l] == packages[p][k]
    ensures Resolves(f, Render(f, keys, texts), RecordsOf(f, keys, texts), packages[p][k], i)
  {
    var file := packages[p][k];
    var d := f.digest(file);
    assert Shipped(f, packages, |packages|, d, texts[d]);
    assert texts[d] == file;
    assert d in keys;
    i :| 0 <= i < |keys| && keys[i] == d;
    RecordsPoint(f, keys, texts, i);
    forall j | 0 <= j < |keys| ensures RecordsOf(f, keys, texts)[j].sha == keys[j] {
      RecordsPoint(f, keys, texts, j);
    }
  }
}
