/**
 * The repository-wide TODO/FIXME scanner: which walked paths are scanned, the hits of one file,
 * the per-directory tally and the report built from the hits.
 */
module TodoScan {
  import opened Wrappers
  import opened Seqs
  import opened Strings
  import opened Paths

  const SUPPORTED_SUFFIXES: set<string> :=
    {".md", ".py", ".yml", ".yaml", ".js", ".ts", ".ps1", ".json", ".toml", ".txt"}

  const EXCLUDE_DIR_NAMES: set<string> :=
    {".git", "__pycache__", ".venv", "venv", "node_modules", ".mypy_cache", ".pytest_cache"}

  /** The index of the last occurrence of `c` in `s`, if any. */
  function LastIndexOf(s: string, c: char): (r: Option<nat>)
    ensures r.Some? ==> r.value < |s| && s[r.value] == c && forall k :: r.value < k < |s| ==> s[k] != c
    ensures r.None? ==> forall k :: 0 <= k < |s| ==> s[k] != c
  {
    if s == [] then None
    else if s[|s| - 1] == c then Some(|s| - 1)
    else LastIndexOf(s[..|s| - 1], c)
  }

  /** `PurePath.suffix`: the name from its last dot, unless that dot starts or ends the name. */
  function Suffix(name: string): (r: string)
    ensures r == "" || (2 <= |r| < |name| && r[0] == '.' && r == name[|name| - |r|..])
    ensures forall k :: 0 < k < |r| ==> r[k] != '.'
    ensures forall i :: 0 < i < |name| - 1 && name[i] == '.' && '.' !in name[i + 1..] ==> r == name[i..]
  {
    match LastIndexOf(name, '.')
    case None => ""
    case Some(i) =>
      if 0 < i < |name| - 1 then name[i..]
      else ""
  }

  /** is_text_file: a regular file whose lower-cased suffix is supported. */
  predicate IsTextFile(e: Entry) {
    e.kind == RegularFile && Lower(Suffix(Name(e))) in SUPPORTED_SUFFIXES
  }

  /** should_exclude_dir */
  predicate ShouldExcludeDir(e: Entry) {
    Name(e) in EXCLUDE_DIR_NAMES
  }

  /** Some ancestor of the path (the root's name is empty, so never excluded) has an excluded name. */
  predicate HasExcludedAncestor(e: Entry) {
    HasAncestorNamed(e, EXCLUDE_DIR_NAMES)
  }

  /** A path the scanner reads. */
  predicate IsCandidate(e: Entry) {
    e.kind != Directory && !HasExcludedAncestor(e) && IsTextFile(e)
  }

  /**
   * iter_candidate_files over the walk `walk`: directories are passed over, then paths below an
   * excluded directory, then everything that is not a text file.
   */
  method CandidateFiles(walk: seq<Entry>) returns (r: seq<Entry>)
    ensures IsSubsequence(r, walk)
    ensures forall e :: e in r <==>
      e in walk && e.kind == RegularFile && Lower(Suffix(Name(e))) in SUPPORTED_SUFFIXES && !HasExcludedAncestor(e)
  {
    var keep := IsCandidate;
    r := [];
    var i := 0;
    while i < |walk|
      invariant 0 <= i <= |walk|
      invariant r == Filter(walk[..i], keep)
    {
      var p := walk[i];
      FilterSnoc(walk[..i], p, keep);
      assert walk[..i + 1] == walk[..i] + [p];
      if p.kind == Directory {
        i := i + 1;
        continue;
      }
      if HasExcludedAncestor(p) {
        i := i + 1;
        continue;
      }
      if IsTextFile(p) {
        r := r + [p];
      }
      i := i + 1;
    }
    assert walk[..|walk|] == walk;
    FilterIsSubsequence(walk, keep);
  }

  // ---------------------------------------------------------------------------------------------
  // Scanning one file

  datatype Hit = Hit(file: string, line: nat, text: string, marker: string)

  const SNIPPET_LIMIT: nat := 300

  /** `str(path).replace("\\", "/")` */
  function ReplaceBackslashes(s: string): (r: string)
    ensures |r| == |s| && '\\' !in r
    ensures forall i :: 0 <= i < |s| && s[i] != '\\' ==> r[i] == s[i]
    ensures forall i :: 0 <= i < |s| && s[i] == '\\' ==> r[i] == '/'
  {
    seq(|s|, i requires 0 <= i < |s| => if s[i] == '\\' then '/' else s[i])
  }

  /** The stripped line, cut to its first 300 characters followed by " …" when longer. */
  function Snippet(line: string): (r: string)
    ensures |r| <= SNIPPET_LIMIT + 2
    ensures |Strip(line)| <= SNIPPET_LIMIT ==> r == Strip(line)
    ensures |Strip(line)| > SNIPPET_LIMIT ==>
      |r| == SNIPPET_LIMIT + 2 && r[..SNIPPET_LIMIT] == Strip(line)[..SNIPPET_LIMIT] && r[SNIPPET_LIMIT..] == " …"
  {
    var snippet := Strip(line);
    if |snippet| > SNIPPET_LIMIT then snippet[..SNIPPET_LIMIT] + " …" else snippet
  }

  /** The marker search finds a non-empty match (an empty match is falsy). */
  predicate Marked(line: string, find: string -> Option<string>) {
    find(line).Some? && find(line).value != ""
  }

  /** The hit for line number `lineNo`. */
  function HitAt(path: string, lineNo: nat, line: string, find: string -> Option<string>): Hit {
    Hit(ReplaceBackslashes(path), lineNo, Snippet(line), find(line).GetOr(""))
  }

  /** The lines `marked` accepts, numbered from 1, each turned into a hit by `hit`. */
  function Scan(lines: seq<string>, marked: string -> bool, hit: (nat, string) -> Hit): seq<Hit>
    decreases |lines|
  {
    if lines == [] then []
    else
      var n := |lines|;
      Scan(lines[..n - 1], marked, hit) + (if marked(lines[n - 1]) then [hit(n, lines[n - 1])] else [])
  }

  /** The hits of the lines of the file at `path`. */
  function Hits(path: string, lines: seq<string>, find: string -> Option<string>): seq<Hit> {
    Scan(lines, (line: string) => Marked(line, find), (lineNo: nat, line: string) => HitAt(path, lineNo, line, find))
  }

  /**
   * scan_file: a file that cannot be read has no hits; otherwise each marked line gives one hit.
   * `find` is the marker regular expression's search.
   */
  method ScanFile(path: string, content: Option<seq<string>>, find: string -> Option<string>) returns (hits: seq<Hit>)
    ensures content.None? ==> hits == []
    ensures content.Some? ==> hits == Hits(path, content.value, find)
  {
    hits := [];
    if content.None? {
      return;
    }
    var lines := content.value;
    var idx := 0;
    while idx < |lines|
      invariant 0 <= idx <= |lines|
      invariant hits == Hits(path, lines[..idx], find)
    {
      var line := lines[idx];
      assert lines[..idx + 1][..idx] == lines[..idx];
      var marker := find(line);
      if marker.Some? && marker.value != "" {
        var snippet := Strip(line);
        if |snippet| > 300 {
          snippet := snippet[..300] + " …";
        }
        assert snippet == Snippet(line);
        hits := hits + [Hit(ReplaceBackslashes(path), idx + 1, snippet, marker.value)];
        assert hits == Hits(path, lines[..idx], find) + [HitAt(path, idx + 1, line, find)];
      }
      idx := idx + 1;
    }
    assert lines[..|lines|] == lines;
  }

  /** Each hit of a scan is the hit of an accepted line, whose number lies between 1 and the number of lines. */
  lemma {:induction false} ScanHitsAreMarkedLines(lines: seq<string>, marked: string -> bool, hit: (nat, string) -> Hit)
    requires forall n, line :: hit(n, line).line == n
    ensures var hits := Scan(lines, marked, hit);
      && |hits| <= |lines|
      && forall k :: 0 <= k < |hits| ==>
           && 1 <= hits[k].line <= |lines|
           && marked(lines[hits[k].line - 1])
           && hits[k] == hit(hits[k].line, lines[hits[k].line - 1])
    decreases |lines|
  {
    if lines != [] {
      var init := lines[..|lines| - 1];
      ScanHitsAreMarkedLines(init, marked, hit);
      assert forall i :: 0 <= i < |init| ==> init[i] == lines[i];
    }
  }

  /** The line numbers of a scan are strictly increasing: at most one hit per line. */
  lemma {:induction false} ScanLinesIncrease(lines: seq<string>, marked: string -> bool, hit: (nat, string) -> Hit)
    requires forall n, line :: hit(n, line).line == n
    ensures var hits := Scan(lines, marked, hit);
      forall j, k :: 0 <= j < k < |hits| ==> hits[j].line < hits[k].line
    decreases |lines|
  {
    if lines != [] {
      var init := lines[..|lines| - 1];
      ScanLinesIncrease(init, marked, hit);
      ScanHitsAreMarkedLines(init, marked, hit);
    }
  }

  /** Every accepted line gives its hit. */
  lemma {:induction false} ScanMarkedLinesAreHits(lines: seq<string>, marked: string -> bool, hit: (nat, string) -> Hit)
    ensures forall i :: 0 <= i < |lines| && marked(lines[i]) ==> hit(i + 1, lines[i]) in Scan(lines, marked, hit)
    decreases |lines|
  {
    if lines != [] {
      var n := |lines|;
      var init := lines[..n - 1];
      ScanMarkedLinesAreHits(init, marked, hit);
      assert forall i :: 0 <= i < n - 1 ==> init[i] == lines[i];
    }
  }

  /**
   * The hits of a file: one per marked line, numbered from 1 in strictly increasing order, every
   * marked line present, each hit with the slash-only path, a snippet of at most 302 characters
   * and the match.
   */
  lemma HitsOfFile(path: string, lines: seq<string>, find: string -> Option<string>)
    ensures var hits := Hits(path, lines, find);
      && |hits| <= |lines|
      && (forall k :: 0 <= k < |hits| ==>
            && 1 <= hits[k].line <= |lines|
            && Marked(lines[hits[k].line - 1], find)
            && hits[k].marker == find(lines[hits[k].line - 1]).value
            && hits[k].text == Snippet(lines[hits[k].line - 1]))
      && (forall j, k :: 0 <= j < k < |hits| ==> hits[j].line < hits[k].line)
      && (forall i :: 0 <= i < |lines| && Marked(lines[i], find) ==> HitAt(path, i + 1, lines[i], find) in hits)
      && (forall h :: h in hits ==> h.file == ReplaceBackslashes(path) && '\\' !in h.file && |h.text| <= SNIPPET_LIMIT + 2)
  {
    var marked := (line: string) => Marked(line, find);
    var hit := (lineNo: nat, line: string) => HitAt(path, lineNo, line, find);
    ScanHitsAreMarkedLines(lines, marked, hit);
    ScanLinesIncrease(lines, marked, hit);
    ScanMarkedLinesAreHits(lines, marked, hit);
  }

  // ---------------------------------------------------------------------------------------------
  // Aggregation by directory

  /** `str(Path(file).parent)` for a '/'-separated path: "." without a separator, "/" for a top-level one. */
  function ParentDir(file: string): (r: string)
    ensures '/' !in file ==> r == "."
    ensures r == "." || r == "/" || (|r| < |file| && r == file[..|r|] && file[|r|] == '/')
    ensures r != "." && r != "/" ==> forall k :: |r| < k < |file| ==> file[k] != '/'
    ensures file != [] && file[0] == '/' && '/' !in file[1..] ==> r == "/"
    ensures forall i :: 0 < i < |file| && file[i] == '/' && '/' !in file[i + 1..] ==> r == file[..i]
  {
    match LastIndexOf(file, '/')
    case None => "."
    case Some(i) =>
      if i == 0 then "/"
      else file[..i]
  }

  /** The directories of the hits, in hit order. */
  function Directories(hits: seq<Hit>): (r: seq<string>)
    ensures |r| == |hits| && forall i :: 0 <= i < |hits| ==> r[i] == ParentDir(hits[i].file)
  {
    seq(|hits|, i requires 0 <= i < |hits| => ParentDir(hits[i].file))
  }

  /** A dictionary from directory to count, in insertion order. */
  type Counts = seq<(string, nat)>

  function Keys(c: Counts): (r: seq<string>)
    ensures |r| == |c| && forall i :: 0 <= i < |c| ==> r[i] == c[i].0
  {
    if c == [] then [] else [c[0].0] + Keys(c[1..])
  }

  function Sum(c: Counts): nat {
    if c == [] then 0 else c[0].1 + Sum(c[1..])
  }

  predicate NoDuplicates(s: seq<string>) {
    forall i, j :: 0 <= i < j < |s| ==> s[i] != s[j]
  }

  /** `counts[d] = counts.get(d, 0) + 1` */
  function Bump(c: Counts, d: string): Counts {
    if c == [] then [(d, 1)]
    else if c[0].0 == d then [(d, c[0].1 + 1)] + c[1..]
    else [c[0]] + Bump(c[1..], d)
  }

  /** The counts dictionary built from the directories one by one. */
  function Tally(dirs: seq<string>): Counts
    decreases |dirs|
  {
    if dirs == [] then [] else Bump(Tally(dirs[..|dirs| - 1]), dirs[|dirs| - 1])
  }

  /** The values of `s` in order of first appearance. */
  function FirstAppearances(s: seq<string>): (r: seq<string>)
    ensures NoDuplicates(r)
    ensures forall x :: x in r <==> x in s
    ensures forall i, j :: 0 <= i < j < |r| ==> FirstIndex(s, r[i]) < FirstIndex(s, r[j])
    decreases |s|
  {
    if s == [] then []
    else
      var r := FirstAppearances(s[..|s| - 1]);
      var x := s[|s| - 1];
      assert forall y :: y in s <==> y in s[..|s| - 1] || y == x by {
        assert s == s[..|s| - 1] + [x];
      }
      FirstIndexOfPrefix(s);
      if x in r then r else r + [x]
  }

  /** Bumping keeps the key order; a new key goes last. */
  lemma {:induction false} BumpKeys(c: Counts, d: string)
    ensures Keys(Bump(c, d)) == if d in Keys(c) then Keys(c) else Keys(c) + [d]
  {
    if c != [] && c[0].0 != d {
      BumpKeys(c[1..], d);
      assert Keys(c) == [c[0].0] + Keys(c[1..]);
    } else if c != [] {
      assert Keys(Bump(c, d)) == [d] + Keys(c[1..]);
    }
  }

  /** Bumping adds one to the sum of the counts. */
  lemma {:induction false} BumpSum(c: Counts, d: string)
    ensures Sum(Bump(c, d)) == Sum(c) + 1
  {
    if c != [] && c[0].0 != d {
      BumpSum(c[1..], d);
      assert ([c[0]] + Bump(c[1..], d))[1..] == Bump(c[1..], d);
    } else if c != [] {
      assert ([(d, c[0].1 + 1)] + c[1..])[1..] == c[1..];
    } else {
      assert [(d, 1)][1..] == [];
    }
  }

  /** With distinct keys, bumping adds one to the count of the key and leaves the others. */
  lemma {:induction false} BumpCounts(c: Counts, d: string)
    requires NoDuplicates(Keys(c))
    ensures |Bump(c, d)| == if d in Keys(c) then |c| else |c| + 1
    ensures forall i :: 0 <= i < |Bump(c, d)| ==>
      Bump(c, d)[i].1 == (if i < |c| then c[i].1 else 0) + (if Bump(c, d)[i].0 == d then 1 else 0)
  {
    BumpKeys(c, d);
    if c != [] && c[0].0 != d {
      assert NoDuplicates(Keys(c[1..])) by {
        forall i, j | 0 <= i < j < |c[1..]| ensures Keys(c[1..])[i] != Keys(c[1..])[j] {
          assert Keys(c)[i + 1] != Keys(c)[j + 1];
        }
      }
      BumpCounts(c[1..], d);
    } else if c != [] {
      forall i | 0 < i < |c| ensures c[i].0 != d {
        assert Keys(c)[0] != Keys(c)[i];
      }
    }
  }

  /**
   * The tally lists each directory once, in order of first appearance, with the number of hits in
   * it; the counts add up to the number of hits.
   */
  lemma {:induction false} TallyFacts(dirs: seq<string>)
    ensures Keys(Tally(dirs)) == FirstAppearances(dirs)
    ensures forall i :: 0 <= i < |Tally(dirs)| ==> Tally(dirs)[i].1 == multiset(dirs)[Tally(dirs)[i].0]
    ensures Sum(Tally(dirs)) == |dirs|
    decreases |dirs|
  {
    if dirs != [] {
      var init := dirs[..|dirs| - 1];
      var x := dirs[|dirs| - 1];
      assert dirs == init + [x];
      TallyFacts(init);
      var c := Tally(init);
      BumpKeys(c, x);
      BumpSum(c, x);
      BumpCounts(c, x);
      assert multiset(dirs) == multiset(init) + multiset{x};
      forall i | 0 <= i < |Tally(dirs)| ensures Tally(dirs)[i].1 == multiset(dirs)[Tally(dirs)[i].0] {
        if i >= |c| {
          assert Keys(Tally(dirs))[i] == x && x !in Keys(c);
          assert x !in init;
        }
      }
    }
  }

  /** Each count is at most the one before it. */
  predicate NonIncreasing(c: Counts) {
    forall i :: 0 < i < |c| ==> c[i - 1].1 >= c[i].1
  }

  /** In a non-increasing sequence no later count exceeds an earlier one. */
  lemma {:induction false} NonIncreasingEverywhere(c: Counts)
    requires NonIncreasing(c)
    ensures forall i, j :: 0 <= i < j < |c| ==> c[i].1 >= c[j].1
  {
    if c != [] {
      var rest := c[1..];
      assert NonIncreasing(rest) by {
        forall i | 0 < i < |rest| ensures rest[i - 1].1 >= rest[i].1 {
          assert rest[i - 1] == c[i] && rest[i] == c[i + 1];
        }
      }
      NonIncreasingEverywhere(rest);
      forall i, j | 0 <= i < j < |c| ensures c[i].1 >= c[j].1 {
        if i == 0 {
          if j > 1 {
            assert rest[0] == c[1] && rest[j - 1] == c[j];
          }
        } else {
          assert rest[i - 1] == c[i] && rest[j - 1] == c[j];
        }
      }
    }
  }

  /** Insert `p` before the first entry whose count is not above its own. */
  function Insert(p: (string, nat), c: Counts): Counts {
    if c == [] || p.1 >= c[0].1 then [p] + c else [c[0]] + Insert(p, c[1..])
  }

  lemma {:induction false} InsertMultiset(p: (string, nat), c: Counts)
    ensures multiset(Insert(p, c)) == multiset(c) + multiset{p}
  {
    if c != [] && p.1 < c[0].1 {
      InsertMultiset(p, c[1..]);
      assert c == [c[0]] + c[1..];
    }
  }

  lemma {:induction false} InsertSum(p: (string, nat), c: Counts)
    ensures Sum(Insert(p, c)) == p.1 + Sum(c)
  {
    if c == [] || p.1 >= c[0].1 {
      assert ([p] + c)[1..] == c;
    } else {
      InsertSum(p, c[1..]);
      assert ([c[0]] + Insert(p, c[1..]))[1..] == Insert(p, c[1..]);
    }
  }

  lemma {:induction false} InsertSorted(p: (string, nat), c: Counts)
    requires NonIncreasing(c)
    ensures NonIncreasing(Insert(p, c))
  {
    if c != [] && p.1 < c[0].1 {
      var rest := Insert(p, c[1..]);
      assert NonIncreasing(c[1..]) by {
        forall i | 0 < i < |c[1..]| ensures c[1..][i - 1].1 >= c[1..][i].1 {
          assert c[1..][i - 1] == c[i] && c[1..][i] == c[i + 1];
        }
      }
      InsertSorted(p, c[1..]);
      assert rest[0] == p || rest[0] == c[1];
      var r := [c[0]] + rest;
      forall i | 0 < i < |r| ensures r[i - 1].1 >= r[i].1 {
        if i > 1 {
          assert r[i - 1] == rest[i - 2] && r[i] == rest[i - 1];
        }
      }
    }
  }

  /** `sorted(counts.items(), key=count, reverse=True)`: a stable sort by non-increasing count. */
  function SortByCount(c: Counts): (r: Counts)
    ensures NonIncreasing(r)
    ensures multiset(r) == multiset(c)
    ensures Sum(r) == Sum(c)
  {
    if c == [] then []
    else
      var rest := SortByCount(c[1..]);
      InsertSorted(c[0], rest);
      InsertMultiset(c[0], rest);
      InsertSum(c[0], rest);
      assert c == [c[0]] + c[1..];
      Insert(c[0], rest)
  }

  function WithCount(n: nat): ((string, nat)) -> bool {
    (p: (string, nat)) => p.1 == n
  }

  lemma {:induction false} InsertKeepsTies(p: (string, nat), c: Counts, n: nat)
    ensures Filter(Insert(p, c), WithCount(n)) == (if p.1 == n then [p] else []) + Filter(c, WithCount(n))
  {
    if c == [] || p.1 >= c[0].1 {
      assert ([p] + c)[1..] == c;
    } else {
      var rest := Insert(p, c[1..]);
      InsertKeepsTies(p, c[1..], n);
      assert ([c[0]] + rest)[1..] == rest;
    }
  }

  /** Among entries of equal count the sort keeps the original order. */
  lemma {:induction false} SortIsStable(c: Counts, n: nat)
    ensures Filter(SortByCount(c), WithCount(n)) == Filter(c, WithCount(n))
  {
    if c != [] {
      SortIsStable(c[1..], n);
      InsertKeepsTies(c[0], SortByCount(c[1..]), n);
    }
  }

  /** aggregate_by_directory */
  method AggregateByDirectory(hits: seq<Hit>) returns (r: Counts)
    ensures r == SortByCount(Tally(Directories(hits)))
  {
    var counts: Counts := [];
    var i := 0;
    while i < |hits|
      invariant 0 <= i <= |hits|
      invariant counts == Tally(Directories(hits[..i]))
    {
      assert Directories(hits[..i + 1])[..i] == Directories(hits[..i]);
      counts := Bump(counts, ParentDir(hits[i].file));
      i := i + 1;
    }
    assert hits[..|hits|] == hits;
    r := SortByCount(counts);
  }

  /** The aggregate is ordered by non-increasing count, and its counts add up to the number of hits. */
  lemma AggregateOrder(hits: seq<Hit>)
    ensures var r := SortByCount(Tally(Directories(hits)));
      && (forall i, j :: 0 <= i < j < |r| ==> r[i].1 >= r[j].1)
      && Sum(r) == |hits|
  {
    TallyFacts(Directories(hits));
    NonIncreasingEverywhere(SortByCount(Tally(Directories(hits))));
  }

  /** Each entry of the aggregate is a directory with the number of hits in it, and every hit's directory has one. */
  lemma AggregateCounts(hits: seq<Hit>)
    ensures var dirs := Directories(hits); var r := SortByCount(Tally(dirs));
      && (forall p :: p in r ==> p.1 == multiset(dirs)[p.0])
      && (forall h :: h in hits ==> exists p :: p in r && p.0 == ParentDir(h.file))
  {
    var dirs := Directories(hits);
    var t := Tally(dirs);
    var r := SortByCount(t);
    TallyFacts(dirs);
    forall p | p in r ensures p.1 == multiset(dirs)[p.0] {
      assert p in multiset(r);
      assert p in t;
      var i :| 0 <= i < |t| && t[i] == p;
    }
    forall h | h in hits ensures exists p :: p in r && p.0 == ParentDir(h.file) {
      var k :| 0 <= k < |hits| && hits[k] == h;
      assert dirs[k] in FirstAppearances(dirs);
      var i :| 0 <= i < |Keys(t)| && Keys(t)[i] == dirs[k];
      assert t[i] in multiset(r);
    }
  }

  /** Directories with equal counts keep the order in which they first appear among the hits. */
  lemma AggregateTies(hits: seq<Hit>, n: nat)
    ensures var dirs := Directories(hits);
      && Filter(SortByCount(Tally(dirs)), WithCount(n)) == Filter(Tally(dirs), WithCount(n))
      && Keys(Tally(dirs)) == FirstAppearances(dirs)
  {
    TallyFacts(Directories(hits));
    SortIsStable(Tally(Directories(hits)), n);
  }

  // ---------------------------------------------------------------------------------------------
  // The report

  const HOTSPOT_LIMIT: nat := 30

  /** The JSON summary: total, the aggregate and the hits. */
  datatype Report = Report(total: nat, byDirectory: Counts, items: seq<Hit>)

  function HotspotLine(p: (string, nat)): string {
    "- " + p.0 + ": " + NatToString(p.1)
  }

  function DetailLine(h: Hit): string {
    "- " + h.file + ":" + NatToString(h.line) + " — [" + h.marker + "] " + h.text
  }

  function HotspotLines(c: Counts): (r: seq<string>)
    ensures |r| == |c|
    decreases |c|
  {
    if c == [] then [] else HotspotLines(c[..|c| - 1]) + [HotspotLine(c[|c| - 1])]
  }

  function DetailLines(hits: seq<Hit>): (r: seq<string>)
    ensures |r| == |hits|
    decreases |hits|
  {
    if hits == [] then [] else DetailLines(hits[..|hits| - 1]) + [DetailLine(hits[|hits| - 1])]
  }

  function Header(total: nat): seq<string> {
    ["# TODO 扫描报告", "", "总计: " + NatToString(total) + " 条", "", "## 目录热点分布"]
  }

  /** The Markdown lines for the first 30 directories of the aggregate, after the header. */
  method HotspotSection(total: nat, byDirectory: Counts) returns (lines: seq<string>)
    ensures lines == Header(total) + HotspotLines(Take(byDirectory, HOTSPOT_LIMIT))
    ensures |lines| == 5 + Min(|byDirectory|, HOTSPOT_LIMIT)
  {
    lines := Header(total);
    var top := Take(byDirectory, HOTSPOT_LIMIT);
    var i := 0;
    while i < |top|
      invariant 0 <= i <= |top|
      invariant lines == Header(total) + HotspotLines(top[..i])
    {
      assert top[..i + 1][..i] == top[..i];
      lines := lines + [HotspotLine(top[i])];
      i := i + 1;
    }
    assert top[..|top|] == top;
  }

  /** The detail section: one line per hit, in hit order. */
  method DetailSection(hits: seq<Hit>) returns (lines: seq<string>)
    ensures lines == ["", "## 详细项"] + DetailLines(hits)
    ensures |lines| == 2 + |hits|
  {
    lines := ["", "## 详细项"];
    var j := 0;
    while j < |hits|
      invariant 0 <= j <= |hits|
      invariant lines == ["", "## 详细项"] + DetailLines(hits[..j])
    {
      assert hits[..j + 1][..j] == hits[..j];
      lines := lines + [DetailLine(hits[j])];
      j := j + 1;
    }
    assert hits[..|hits|] == hits;
  }

  /**
   * write_outputs without the file writes: the JSON total is the number of hits, and the Markdown
   * lists the first 30 directories of the aggregate and then every hit.
   */
  method WriteOutputs(hits: seq<Hit>) returns (report: Report, markdown: seq<string>)
    ensures report.total == |hits| && report.items == hits
    ensures report == Report(|hits|, SortByCount(Tally(Directories(hits))), hits)
    ensures markdown == Header(|hits|) + HotspotLines(Take(report.byDirectory, HOTSPOT_LIMIT))
                        + ["", "## 详细项"] + DetailLines(hits)
    ensures |markdown| == 7 + Min(|report.byDirectory|, HOTSPOT_LIMIT) + |hits|
  {
    var byDirectory := AggregateByDirectory(hits);
    report := Report(|hits|, byDirectory, hits);
    var hotspots := HotspotSection(|hits|, byDirectory);
    var details := DetailSection(hits);
    AppendAssociative(hotspots, ["", "## 详细项"], DetailLines(hits));
    markdown := hotspots + details;
  }
}
