/**
 * The repository index generator: the files the walk lists, their grouping by top-level
 * directory, and the Markdown index with one section per group.
 */
module RepoIndex {
  import opened Seqs
  import opened Strings
  import opened Paths

  const EXCLUDE_DIR_NAMES: set<string> :=
    {".git", "__pycache__", ".venv", "venv", "node_modules", ".mypy_cache", ".pytest_cache"}

  /** At most this many files are listed per section. */
  const SECTION_LIMIT: nat := 2000

  /** should_exclude_dir */
  predicate ShouldExcludeDir(e: Entry) {
    Name(e) in EXCLUDE_DIR_NAMES
  }

  /** A walked path that list_all_files keeps: anything but a directory, below no excluded directory. */
  predicate IsListed(e: Entry) {
    e.kind != Directory && !HasAncestorNamed(e, EXCLUDE_DIR_NAMES)
  }

  /** list_all_files over the walk `walk`. */
  method ListAllFiles(walk: seq<Entry>) returns (files: seq<Entry>)
    ensures IsSubsequence(files, walk)
    ensures forall e :: e in files <==> e in walk && e.kind != Directory && !HasAncestorNamed(e, EXCLUDE_DIR_NAMES)
  {
    var keep := IsListed;
    files := [];
    var i := 0;
    while i < |walk|
      invariant 0 <= i <= |walk|
      invariant files == Filter(walk[..i], keep)
    {
      var p := walk[i];
      FilterSnoc(walk[..i], p, keep);
      assert walk[..i + 1] == walk[..i] + [p];
      if p.kind == Directory {
        i := i + 1;
        continue;
      }
      if HasAncestorNamed(p, EXCLUDE_DIR_NAMES) {
        i := i + 1;
        continue;
      }
      files := files + [p];
      i := i + 1;
    }
    assert walk[..|walk|] == walk;
    FilterIsSubsequence(walk, keep);
  }

  // ---------------------------------------------------------------------------------------------
  // Grouping

  /** `f.relative_to(root)` succeeds: the root's parts begin the file's. */
  predicate Under(root: seq<string>, f: Entry) {
    |root| <= |f.parts| && f.parts[..|root|] == root
  }

  /** The first part of the path relative to the root, or "." when there is none. */
  function TopOf(root: seq<string>, f: Entry): string
    requires Under(root, f)
  {
    if |f.parts| > |root| then f.parts[|root|] else "."
  }

  predicate InGroup(root: seq<string>, key: string, f: Entry) {
    Under(root, f) && TopOf(root, f) == key
  }

  /** The files of group `key`, in input order. */
  function Group(root: seq<string>, files: seq<Entry>, key: string): seq<Entry> {
    Filter(files, (f: Entry) => InGroup(root, key, f))
  }

  /** group_by_top_level: a group for each top-level part that some file under the root has. */
  method GroupByTopLevel(root: seq<string>, files: seq<Entry>) returns (groups: map<string, seq<Entry>>)
    ensures forall key :: key in groups <==> Group(root, files, key) != []
    ensures forall key :: key in groups ==> groups[key] == Group(root, files, key)
  {
    groups := map[];
    var i := 0;
    while i < |files|
      invariant 0 <= i <= |files|
      invariant forall key :: key in groups <==> Group(root, files[..i], key) != []
      invariant forall key :: key in groups ==> groups[key] == Group(root, files[..i], key)
    {
      var f := files[i];
      assert files[..i + 1] == files[..i] + [f];
      forall key ensures Group(root, files[..i + 1], key) ==
        Group(root, files[..i], key) + (if InGroup(root, key, f) then [f] else [])
      {
        FilterSnoc(files[..i], f, (g: Entry) => InGroup(root, key, g));
      }
      if !Under(root, f) {
        i := i + 1;
        continue;
      }
      var top := TopOf(root, f);
      var members := if top in groups then groups[top] else [];
      groups := groups[top := members + [f]];
      i := i + 1;
    }
    assert files[..|files|] == files;
  }

  /** Every file under the root is in exactly one group, the one of its top-level part; no other file is in any. */
  lemma GroupMembership(root: seq<string>, files: seq<Entry>, key: string, f: Entry)
    ensures f in Group(root, files, key) <==> f in files && Under(root, f) && TopOf(root, f) == key
  {
  }

  /** Within a group the files keep their input order. */
  lemma GroupKeepsOrder(root: seq<string>, files: seq<Entry>, key: string)
    ensures IsSubsequence(Group(root, files, key), files)
  {
    FilterIsSubsequence(files, (f: Entry) => InGroup(root, key, f));
  }

  // ---------------------------------------------------------------------------------------------
  // Sorting

  /** `sorted(groups.keys())`: the keys in increasing order. */
  method SortKeys(keys: set<string>) returns (order: seq<string>)
    ensures forall k :: k in order <==> k in keys
    ensures forall i, j :: 0 <= i < j < |order| ==> StrLe(order[i], order[j]) && order[i] != order[j]
  {
    order := [];
    var remaining := keys;
    while remaining != {}
      invariant forall k :: k in keys <==> k in order || k in remaining
      invariant forall k :: k in order ==> k !in remaining
      invariant forall i, j :: 0 <= i < j < |order| ==> StrLe(order[i], order[j]) && order[i] != order[j]
      invariant forall i, k :: 0 <= i < |order| && k in remaining ==> StrLe(order[i], k)
      decreases remaining
    {
      var m := Least(remaining);
      order := order + [m];
      remaining := remaining - {m};
    }
  }

  /** The least string of a non-empty set. */
  method Least(s: set<string>) returns (m: string)
    requires s != {}
    ensures m in s && forall x :: x in s ==> StrLe(m, x)
  {
    m :| m in s;
    StrLeReflexive(m);
    var rest := s - {m};
    while rest != {}
      invariant m in s && rest <= s
      invariant forall x :: x in s && x !in rest ==> StrLe(m, x)
      decreases rest
    {
      var x :| x in rest;
      StrLeTotal(m, x);
      if !StrLe(m, x) {
        forall y | y in s && y !in rest ensures StrLe(x, y) {
          StrLeTransitive(x, m, y);
        }
        m := x;
      }
      StrLeReflexive(x);
      rest := rest - {x};
    }
  }

  /** The sort key of a file: its path string, lower-cased. */
  function SortKey(f: Entry): string {
    Lower(PathString(f.parts))
  }

  /** Insert `f` before the first file whose key is not below its own. */
  function InsertByKey(f: Entry, s: seq<Entry>, key: Entry -> string): seq<Entry> {
    if s == [] || StrLe(key(f), key(s[0])) then [f] + s else [s[0]] + InsertByKey(f, s[1..], key)
  }

  /** Each key is at most the next one. */
  predicate SortedByKey(s: seq<Entry>, key: Entry -> string) {
    forall i :: 0 < i < |s| ==> StrLe(key(s[i - 1]), key(s[i]))
  }

  lemma {:induction false} InsertByKeyFacts(f: Entry, s: seq<Entry>, key: Entry -> string)
    ensures multiset(InsertByKey(f, s, key)) == multiset(s) + multiset{f}
    ensures SortedByKey(s, key) ==> SortedByKey(InsertByKey(f, s, key), key)
  {
    if s != [] && !StrLe(key(f), key(s[0])) {
      var rest := InsertByKey(f, s[1..], key);
      InsertByKeyFacts(f, s[1..], key);
      assert s == [s[0]] + s[1..];
      StrLeTotal(key(f), key(s[0]));
      if SortedByKey(s, key) {
        assert SortedByKey(s[1..], key) by {
          forall i | 0 < i < |s[1..]| ensures StrLe(key(s[1..][i - 1]), key(s[1..][i])) {
            assert s[1..][i - 1] == s[i] && s[1..][i] == s[i + 1];
          }
        }
        assert rest[0] == f || rest[0] == s[1];
        var r := [s[0]] + rest;
        forall i | 0 < i < |r| ensures StrLe(key(r[i - 1]), key(r[i])) {
          if i > 1 {
            assert r[i - 1] == rest[i - 2] && r[i] == rest[i - 1];
          }
        }
      }
    }
  }

  /** Python's `sorted(s, key=key)` on string keys, as a stable insertion sort. */
  function SortBy(s: seq<Entry>, key: Entry -> string): seq<Entry> {
    if s == [] then [] else InsertByKey(s[0], SortBy(s[1..], key), key)
  }

  lemma {:induction false} SortByFacts(s: seq<Entry>, key: Entry -> string)
    ensures SortedByKey(SortBy(s, key), key)
    ensures multiset(SortBy(s, key)) == multiset(s)
  {
    if s != [] {
      SortByFacts(s[1..], key);
      InsertByKeyFacts(s[0], SortBy(s[1..], key), key);
      assert s == [s[0]] + s[1..];
    }
  }

  /** The files whose key is `k`. */
  function WithKey(key: Entry -> string, k: string): Entry -> bool {
    (f: Entry) => key(f) == k
  }

  lemma {:induction false} InsertByKeyKeepsTies(f: Entry, s: seq<Entry>, key: Entry -> string, k: string)
    ensures Filter(InsertByKey(f, s, key), WithKey(key, k)) == (if key(f) == k then [f] else []) + Filter(s, WithKey(key, k))
  {
    if s == [] || StrLe(key(f), key(s[0])) {
      assert ([f] + s)[1..] == s;
    } else {
      var rest := InsertByKey(f, s[1..], key);
      InsertByKeyKeepsTies(f, s[1..], key, k);
      assert ([s[0]] + rest)[1..] == rest;
      StrLeReflexive(key(f));
    }
  }

  lemma {:induction false} SortByIsStable(s: seq<Entry>, key: Entry -> string, k: string)
    ensures Filter(SortBy(s, key), WithKey(key, k)) == Filter(s, WithKey(key, k))
  {
    if s != [] {
      SortByIsStable(s[1..], key, k);
      InsertByKeyKeepsTies(s[0], SortBy(s[1..], key), key, k);
    }
  }

  /** `sorted(files, key=lambda p: str(p).lower())`. */
  function SortFiles(s: seq<Entry>): seq<Entry> {
    SortBy(s, SortKey)
  }

  /** The sorted files are in order of lower-cased path and are the same files. */
  lemma SortFilesFacts(s: seq<Entry>)
    ensures SortedByKey(SortFiles(s), SortKey)
    ensures multiset(SortFiles(s)) == multiset(s)
  {
    SortByFacts(s, SortKey);
  }

  /** Files whose lower-cased paths are equal keep their order. */
  lemma SortFilesIsStable(s: seq<Entry>, k: string)
    ensures Filter(SortFiles(s), WithKey(SortKey, k)) == Filter(s, WithKey(SortKey, k))
  {
    SortByIsStable(s, SortKey, k);
  }

  // ---------------------------------------------------------------------------------------------
  // The index

  /** `rel.as_posix()` of a file under the root. */
  function RelativePosix(root: seq<string>, f: Entry): string {
    if |f.parts| <= |root| then "." else Join(f.parts[|root|..], "/")
  }

  /** The files a section lists: the first 2000 of the group in key order. */
  function Listed(files: seq<Entry>): seq<Entry> {
    Take(SortFiles(files), SECTION_LIMIT)
  }

  function FileLines(root: seq<string>, files: seq<Entry>): (r: seq<string>)
    ensures |r| == |files|
    decreases |files|
  {
    if files == [] then []
    else FileLines(root, files[..|files| - 1]) + ["- " + RelativePosix(root, files[|files| - 1])]
  }

  function Section(root: seq<string>, key: string, files: seq<Entry>): seq<string> {
    ["## " + key] + FileLines(root, Listed(files)) + [""]
  }

  predicate AllUnder(root: seq<string>, groups: map<string, seq<Entry>>) {
    forall key, f :: key in groups && f in groups[key] ==> Under(root, f)
  }

  /** The section of each of the first `t` keys of `order`, one after the other. */
  function Sections(order: seq<string>, t: nat, section: string -> seq<string>): seq<string>
    requires t <= |order|
  {
    if t == 0 then [] else Sections(order, t - 1, section) + section(order[t - 1])
  }

  /** The section of a key of `groups`. */
  function SectionOf(root: seq<string>, groups: map<string, seq<Entry>>): string -> seq<string> {
    (key: string) => if key in groups then Section(root, key, groups[key]) else []
  }

  const HEADER: seq<string> := ["# 仓库索引 (自动生成)", ""]

  /** One section: its heading, the listed files relative to the root, and a blank line. */
  method SectionLines(root: seq<string>, key: string, files: seq<Entry>) returns (lines: seq<string>)
    ensures lines == Section(root, key, files)
  {
    lines := ["## " + key];
    var subset := SortFiles(files);
    var listed := Take(subset, SECTION_LIMIT);
    var k := 0;
    while k < |listed|
      invariant 0 <= k <= |listed|
      invariant lines == ["## " + key] + FileLines(root, listed[..k])
    {
      assert listed[..k + 1][..k] == listed[..k];
      lines := lines + ["- " + RelativePosix(root, listed[k])];
      k := k + 1;
    }
    assert listed[..|listed|] == listed;
    lines := lines + [""];
  }

  /** The header followed by the section of each key of `order`, in that order. */
  method WriteSections(order: seq<string>, section: string -> seq<string>) returns (lines: seq<string>)
    ensures lines == HEADER + Sections(order, |order|, section)
  {
    var body: seq<string> := [];
    var t := 0;
    while t < |order|
      invariant 0 <= t <= |order|
      invariant body == Sections(order, t, section)
    {
      body := body + section(order[t]);
      t := t + 1;
    }
    lines := HEADER + body;
  }

  /**
   * write_repo_index without the file write: the header, then the section of every group in
   * increasing key order. A file outside the root makes `relative_to` raise, so every file of
   * `groups` must be under the root, as group_by_top_level ensures.
   */
  method WriteRepoIndex(root: seq<string>, groups: map<string, seq<Entry>>) returns (lines: seq<string>, order: seq<string>)
    requires AllUnder(root, groups)
    ensures forall k :: k in order <==> k in groups
    ensures forall i, j :: 0 <= i < j < |order| ==> StrLe(order[i], order[j]) && order[i] != order[j]
    ensures lines == HEADER + Sections(order, |order|, SectionOf(root, groups))
  {
    order := SortKeys(groups.Keys);
    lines := WriteSections(order, SectionOf(root, groups));
  }

  /**
   * A section lists the first files of its group in key order: at most 2000, each from the group,
   * each key at most the next, and none left out while a smaller-keyed one is listed.
   */
  lemma ListedFacts(files: seq<Entry>)
    ensures var listed := Listed(files);
      && |listed| == Min(|files|, SECTION_LIMIT)
      && (forall f :: f in listed ==> f in files)
      && SortedByKey(listed, SortKey)
      && (|files| <= SECTION_LIMIT ==> multiset(listed) == multiset(files))
      && (forall f, g :: f in listed && g in multiset(files) - multiset(listed) ==> StrLe(SortKey(f), SortKey(g)))
  {
    var sorted := SortFiles(files);
    var listed := Listed(files);
    SortFilesFacts(files);
    forall f | f in listed ensures f in files {
      assert f in multiset(sorted);
    }
    assert |sorted| == |multiset(sorted)| == |multiset(files)| == |files|;
    if |files| <= SECTION_LIMIT {
      assert listed == sorted[..|sorted|] == sorted;
    }
    var rest := sorted[|listed|..];
    assert sorted == listed + rest;
    assert multiset(files) - multiset(listed) == multiset(rest);
    SortedSplit(sorted, |listed|);
  }

  /** A cut of a key-sorted sequence puts no key before the cut above one after it. */
  lemma SortedSplit(s: seq<Entry>, k: nat)
    requires SortedByKey(s, SortKey) && k <= |s|
    ensures forall f, g :: f in s[..k] && g in s[k..] ==> StrLe(SortKey(f), SortKey(g))
  {
    forall f, g | f in s[..k] && g in s[k..]
      ensures StrLe(SortKey(f), SortKey(g))
    {
      var i :| 0 <= i < k && s[..k][i] == f;
      var j :| 0 <= j < |s| - k && s[k..][j] == g;
      SortedByKeyOrdered(s, SortKey, i, k + j);
    }
  }

  /** In a key-sorted sequence every key is at most every later one. */
  lemma {:induction false} SortedByKeyOrdered(s: seq<Entry>, key: Entry -> string, i: nat, j: nat)
    requires SortedByKey(s, key) && i <= j < |s|
    ensures StrLe(key(s[i]), key(s[j]))
    decreases j - i
  {
    if i == j {
      StrLeReflexive(key(s[i]));
    } else {
      SortedByKeyOrdered(s, key, i, j - 1);
      StrLeTransitive(key(s[i]), key(s[j - 1]), key(s[j]));
    }
  }
}
