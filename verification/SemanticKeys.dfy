/**
  Which changed semantic keys an ingestion check reports by name.  A path has one discovery
  violation without a line, so the first one found for it hides the others
  (src/internal/verify/ingest.go).
 */
module SemanticKeys {

  import opened Wrappers
  import opened GlobLanguage
  import opened Trees
  import opened Ingest
  import AddedLines

  /** The violation that names the changed key. */
  function OfKey(p: Text, k: string): Violation {
    Violation(TestTamper, DiscoveryConfigChanged, p, 0, SemanticKey(k))
  }

  function DiscoveryKey(p: Text): Key {
    (TestTamper, DiscoveryConfigChanged, p, 0)
  }

  // ------------------------------------------------------ recording keeps the first

  function FirstWith(vs: seq<Violation>, k: Key): Option<Violation>
    decreases |vs|
  {
    if vs == [] then None
    else
      var before, v := FirstWith(vs[..|vs| - 1], k), vs[|vs| - 1];
      if before.None? && KeyOf(v) == k then Some(v) else before
  }

  lemma {:induction false} FirstConcat(a: seq<Violation>, b: seq<Violation>, k: Key)
    ensures FirstWith(a + b, k) == if FirstWith(a, k).Some? then FirstWith(a, k) else FirstWith(b, k)
    decreases |b|
  {
    if b == [] {
      assert a + b == a;
    } else {
      assert (a + b)[..|a + b| - 1] == a + b[..|b| - 1];
      FirstConcat(a, b[..|b| - 1], k);
    }
  }

  lemma {:induction false} FirstIsThere(vs: seq<Violation>, k: Key)
    ensures FirstWith(vs, k).Some? <==> k in Keys(vs)
    ensures FirstWith(vs, k).Some? ==> KeyOf(FirstWith(vs, k).value) == k
    decreases |vs|
  {
    if vs != [] {
      var front, v := vs[..|vs| - 1], vs[|vs| - 1];
      FirstIsThere(front, k);
      KeysAppend(front, v);
      assert vs == front + [v];
    }
  }

  /** A violation is recorded exactly when it is the first one with its key. */
  lemma {:induction false} RecordedIffFirst(vs: seq<Violation>, v: Violation)
    ensures v in Record([], vs) <==> FirstWith(vs, KeyOf(v)) == Some(v)
    decreases |vs|
  {
    if vs != [] {
      var front, last := vs[..|vs| - 1], vs[|vs| - 1];
      RecordedIffFirst(front, v);
      RecordKeys([], front);
      assert Keys(Record([], front)) == Keys(front);
      FirstIsThere(front, KeyOf(last));
      FirstIsThere(front, KeyOf(v));
    }
  }

  // ------------------------------------------------------- the findings of an entry

  /** The whole file is protected, or its addition is forbidden. */
  ghost predicate HidesKeys(c: Context, e: DiffEntry) {
    || MatchesAny(c.pol.wholeFiles, e.path) || e.path in c.manifestWhole || e.path in c.headWhole
    || (e.status == Added && !IsGitlink(e.after) && MatchesAny(c.pol.forbidNew, e.path))
  }

  /** The protected keys that changed; none for a gitlink. */
  function ChangedKeys(c: Context, e: DiffEntry): seq<string> {
    if IsGitlink(e.after) || c.src.changedKeys(e).None? then [] else c.src.changedKeys(e).value
  }

  ghost function FirstDiscovery(c: Context, e: DiffEntry): Option<Violation> {
    if HidesKeys(c, e) then Some(Tamper(DiscoveryConfigChanged, e.path))
    else if ChangedKeys(c, e) != [] then Some(OfKey(e.path, ChangedKeys(c, e)[0]))
    else None
  }

  lemma {:induction false} KeyFindingsFirst(c: Context, q: Text, keys: seq<string>, p: Text)
    ensures FirstWith(KeyFindings(c, q, keys), DiscoveryKey(p)) ==
            if q != p || keys == [] then None else Some(OfKey(p, keys[0]))
    decreases |keys|
  {
    if keys != [] {
      var front, k := keys[..|keys| - 1], keys[|keys| - 1];
      KeyFindingsFirst(c, q, front, p);
      var before, own := KeyFindings(c, q, front), When(c.src.dependencyKey(q, k), Tamper(TestDependencyChanged, q));
      assert [OfKey(q, k)][..0] == [] && own[..0] == [];
      FirstConcat(before, own, DiscoveryKey(p));
      FirstConcat(before + own, [OfKey(q, k)], DiscoveryKey(p));
    }
  }

  lemma {:induction false} LinesHaveNone(
    c: Context, q: Text, patterns: seq<string>, sub: SubCode, lines: seq<AddedLines.Added>, p: Text)
    requires sub != DiscoveryConfigChanged
    ensures FirstWith(LineFindings(c, q, patterns, sub, lines), DiscoveryKey(p)) == None
    decreases |lines|
  {
    if lines != [] {
      var l := lines[|lines| - 1];
      LinesHaveNone(c, q, patterns, sub, lines[..|lines| - 1], p);
      var last := When(Hit(c, patterns, l.text), Violation(TestTamper, sub, q, l.line, Plain));
      FirstConcat(LineFindings(c, q, patterns, sub, lines[..|lines| - 1]), last, DiscoveryKey(p));
      WhenFirst(Hit(c, patterns, l.text), Violation(TestTamper, sub, q, l.line, Plain), DiscoveryKey(p));
    }
  }

  lemma WhenFirst(holds: bool, v: Violation, k: Key)
    ensures FirstWith(When(holds, v), k) == if holds && KeyOf(v) == k then Some(v) else None
  {
    assert [v][..0] == [];
  }

  lemma PathHasNone(c: Context, e: DiffEntry, p: Text)
    ensures FirstWith(PathFindings(c, e), DiscoveryKey(p)) == None
    ensures ExistingFindings(c, e).Some? ==> FirstWith(ExistingFindings(c, e).value, DiscoveryKey(p)) == None
  {
    hide MatchesAny;
    FirstIsThere(PathFindings(c, e), DiscoveryKey(p));
    if ExistingFindings(c, e).Some? {
      FirstIsThere(ExistingFindings(c, e).value, DiscoveryKey(p));
    }
  }

  lemma DiscoveryFirst(c: Context, e: DiffEntry, p: Text)
    ensures FirstWith(DiscoveryFindings(c, e), DiscoveryKey(p)) ==
      if e.path == p && HidesKeys(c, e) then Some(Tamper(DiscoveryConfigChanged, p)) else None
  {
    hide FirstWith, MatchesAny;
    var k, v := DiscoveryKey(p), Tamper(DiscoveryConfigChanged, e.path);
    var dependency := MatchesAny(c.pol.testDependencies, e.path);
    var whole := MatchesAny(c.pol.wholeFiles, e.path) || e.path in c.manifestWhole || e.path in c.headWhole;
    var added := e.status == Added && !IsGitlink(e.after) && MatchesAny(c.pol.forbidNew, e.path);
    WhenFirst(dependency, Tamper(TestDependencyChanged, e.path), k);
    WhenFirst(whole, v, k);
    WhenFirst(added, v, k);
    FirstConcat(When(dependency, Tamper(TestDependencyChanged, e.path)), When(whole, v), k);
    FirstConcat(When(dependency, Tamper(TestDependencyChanged, e.path)) + When(whole, v), When(added, v), k);
  }

  lemma SemanticFirst(c: Context, e: DiffEntry, p: Text)
    requires SemanticFindings(c, e).Some?
    ensures FirstWith(SemanticFindings(c, e).value, DiscoveryKey(p)) ==
      if e.path == p && ChangedKeys(c, e) != [] then Some(OfKey(p, ChangedKeys(c, e)[0])) else None
  {
    hide KeyFindings;
    if !IsGitlink(e.after) {
      KeyFindingsFirst(c, e.path, ChangedKeys(c, e), p);
    }
  }

  lemma StaticHasNone(c: Context, e: DiffEntry, p: Text)
    requires StaticFindings(c, e).Some?
    ensures FirstWith(StaticFindings(c, e).value, DiscoveryKey(p)) == None
  {
    hide IsTestClass, MatchesAny, LineFindings, AddedLines.ReadLines, AddedLines.LinesOf;
    var (patterns, sub) := Patterns(c, e.path);
    if e.status != Deleted && IsFile(e.after) && patterns != [] {
      LinesHaveNone(c, e.path, patterns, sub,
        AddedLines.ReadLines(AddedLines.LinesOf(c.src.diffText(e.path).value)).value, p);
    }
  }

  lemma EntryFirst(c: Context, e: DiffEntry, p: Text)
    requires EntryFindings(c, e).Some?
    ensures FirstWith(EntryFindings(c, e).value, DiscoveryKey(p)) == if e.path == p then FirstDiscovery(c, e) else None
  {
    hide FirstWith, PathFindings, ExistingFindings, DiscoveryFindings, SemanticFindings, StaticFindings, HidesKeys,
      ChangedKeys;
    var k := DiscoveryKey(p);
    PathHasNone(c, e, p);
    DiscoveryFirst(c, e, p);
    SemanticFirst(c, e, p);
    StaticHasNone(c, e, p);
    var a, b, d := PathFindings(c, e), ExistingFindings(c, e).value, DiscoveryFindings(c, e);
    var s, t := SemanticFindings(c, e).value, StaticFindings(c, e).value;
    FirstConcat(a, b, k);
    FirstConcat(a + b, d, k);
    FirstConcat(a + b + d, s, k);
    FirstConcat(a + b + d + s, t, k);
  }

  // ------------------------------------------------------ details that name a key

  /** A violation that names a key is a discovery change without a line. */
  predicate NamesKeysOnly(vs: seq<Violation>, p: Text) {
    forall i :: 0 <= i < |vs| && vs[i].detail.SemanticKey? ==> vs[i] == OfKey(p, vs[i].detail.name)
  }

  lemma NamesKeysConcat(a: seq<Violation>, b: seq<Violation>, p: Text)
    requires NamesKeysOnly(a, p) && NamesKeysOnly(b, p)
    ensures NamesKeysOnly(a + b, p)
  {
  }

  lemma {:induction false} KeysNameKeys(c: Context, p: Text, keys: seq<string>)
    ensures NamesKeysOnly(KeyFindings(c, p, keys), p)
    decreases |keys|
  {
    if keys != [] {
      KeysNameKeys(c, p, keys[..|keys| - 1]);
    }
  }

  lemma {:induction false} LinesNameNone(
    c: Context, q: Text, patterns: seq<string>, sub: SubCode, lines: seq<AddedLines.Added>)
    ensures NamesKeysOnly(LineFindings(c, q, patterns, sub, lines), q)
    decreases |lines|
  {
    if lines != [] {
      LinesNameNone(c, q, patterns, sub, lines[..|lines| - 1]);
    }
  }

  lemma EntryNamesKeys(c: Context, e: DiffEntry)
    requires EntryFindings(c, e).Some?
    ensures NamesKeysOnly(EntryFindings(c, e).value, e.path)
  {
    hide NamesKeysOnly, PathFindings, ExistingFindings, DiscoveryFindings, SemanticFindings, StaticFindings;
    PlainNamesKeys(c, e);
    RestNamesKeys(c, e);
    var a, b, d := PathFindings(c, e), ExistingFindings(c, e).value, DiscoveryFindings(c, e);
    var s, t := SemanticFindings(c, e).value, StaticFindings(c, e).value;
    NamesKeysConcat(a, b, e.path);
    NamesKeysConcat(a + b, d, e.path);
    NamesKeysConcat(a + b + d, s, e.path);
    NamesKeysConcat(a + b + d + s, t, e.path);
  }

  lemma PlainNamesKeys(c: Context, e: DiffEntry)
    ensures NamesKeysOnly(PathFindings(c, e), e.path) && NamesKeysOnly(DiscoveryFindings(c, e), e.path)
    ensures ExistingFindings(c, e).Some? ==> NamesKeysOnly(ExistingFindings(c, e).value, e.path)
  {
    hide MatchesAny;
  }

  lemma RestNamesKeys(c: Context, e: DiffEntry)
    requires SemanticFindings(c, e).Some? && StaticFindings(c, e).Some?
    ensures NamesKeysOnly(SemanticFindings(c, e).value, e.path) && NamesKeysOnly(StaticFindings(c, e).value, e.path)
  {
    hide IsTestClass, MatchesAny, LineFindings, KeyFindings, AddedLines.ReadLines, AddedLines.LinesOf;
    if !IsGitlink(e.after) {
      KeysNameKeys(c, e.path, c.src.changedKeys(e).value);
    }
    var (patterns, sub) := Patterns(c, e.path);
    if e.status != Deleted && IsFile(e.after) && patterns != [] {
      LinesNameNone(c, e.path, patterns, sub,
        AddedLines.ReadLines(AddedLines.LinesOf(c.src.diffText(e.path).value)).value);
    }
  }

  // ------------------------------------------------------------------ the theorems

  /** Some recorded violation names the key. */
  ghost predicate NamesKey(vs: seq<Violation>, k: string) {
    exists i :: 0 <= i < |vs| && vs[i].detail == SemanticKey(k)
  }

  /**
    The key is the first changed one, the path is no gitlink at the head, and neither the whole-file protection
    nor the forbidden addition already stands for the path.
   */
  ghost predicate IsNamed(c: Context, e: DiffEntry, k: string) {
    && !IsGitlink(e.after) && c.src.changedKeys(e).Some?
    && c.src.changedKeys(e).value != [] && c.src.changedKeys(e).value[0] == k
    && !MatchesAny(c.pol.wholeFiles, e.path) && e.path !in c.manifestWhole && e.path !in c.headWhole
    && !(e.status == Added && MatchesAny(c.pol.forbidNew, e.path))
  }

  lemma {:induction false} RecordedIsFound(vs: seq<Violation>, v: Violation)
    requires v in Record([], vs)
    ensures v in vs
    decreases |vs|
  {
    var front := vs[..|vs| - 1];
    if v in Record([], front) {
      RecordedIsFound(front, v);
    }
  }

  /** One entry: exactly when a changed semantic key is reported by name. */
  lemma SemanticKeyRecordedIff(c: Context, e: DiffEntry, k: string)
    requires EntryFindings(c, e).Some?
    ensures NamesKey(Record([], EntryFindings(c, e).value), k) <==> IsNamed(c, e, k)
  {
    hide EntryFindings, Record, FirstWith, MatchesAny;
    var vs := EntryFindings(c, e).value;
    EntryNamesKeys(c, e);
    EntryFirst(c, e, e.path);
    RecordedIffFirst(vs, OfKey(e.path, k));
    if NamesKey(Record([], vs), k) {
      var i :| 0 <= i < |Record([], vs)| && Record([], vs)[i].detail == SemanticKey(k);
      RecordedIsFound(vs, Record([], vs)[i]);
    }
  }

  lemma {:induction false} AllFirst(c: Context, entries: seq<DiffEntry>, j: nat)
    requires AllFindings(c, entries).Some? && j < |entries|
    requires forall i, k :: 0 <= i < k < |entries| ==> entries[i].path != entries[k].path
    ensures FirstWith(AllFindings(c, entries).value, DiscoveryKey(entries[j].path)) == FirstDiscovery(c, entries[j])
    decreases |entries|
  {
    hide EntryFindings, FirstWith, FirstDiscovery;
    var n, p := |entries| - 1, entries[j].path;
    var front := entries[..n];
    FirstConcat(AllFindings(c, front).value, EntryFindings(c, entries[n]).value, DiscoveryKey(p));
    EntryFirst(c, entries[n], p);
    if j < n {
      AllFirst(c, front, j);
    } else {
      AllHaveNone(c, front, p);
    }
  }

  lemma {:induction false} AllHaveNone(c: Context, entries: seq<DiffEntry>, p: Text)
    requires AllFindings(c, entries).Some? && forall i :: 0 <= i < |entries| ==> entries[i].path != p
    ensures FirstWith(AllFindings(c, entries).value, DiscoveryKey(p)) == None
    decreases |entries|
  {
    hide EntryFindings;
    if entries != [] {
      var front, e := entries[..|entries| - 1], entries[|entries| - 1];
      AllHaveNone(c, front, p);
      FirstConcat(AllFindings(c, front).value, EntryFindings(c, e).value, DiscoveryKey(p));
      EntryFirst(c, e, p);
    }
  }

  lemma {:induction false} BrokenFirst(paths: seq<Text>, p: Text)
    ensures FirstWith(BrokenFindings(paths), DiscoveryKey(p)) ==
      if p in paths then Some(Tamper(DiscoveryConfigChanged, p)) else None
    decreases |paths|
  {
    if paths != [] {
      BrokenFirst(paths[..|paths| - 1], p);
    }
  }

  /**
    A judged range: the violation that names the key is reported exactly when the path changed and the key is
    the first changed one of a path that no other discovery rule covers.
   */
  lemma RangeNamesKeyIff(repo: Repo, req: Request, vs: seq<Violation>, p: Text, k: string)
    requires Judged(repo, req, vs)
    ensures Readable(repo, req.start) && Readable(repo, req.head)
    ensures var from, to := repo.trees[req.start], repo.trees[req.head];
      OfKey(p, k) in vs <==> p in ChangedPaths(from, to) && IsNamed(ContextOf(repo, req), EntryOf(from, to, p), k)
  {
    hide Record, AllFindings, BrokenFindings, FirstWith, MatchesAny, ContextOf;
    var entries: seq<DiffEntry>, broken: seq<Text> :| Explains(repo, req, entries, broken, vs);
    var c, from, to := ContextOf(repo, req), repo.trees[req.start], repo.trees[req.head];
    var findings := AllFindings(c, entries).value;
    RecordedIffFirst(findings + BrokenFindings(broken), OfKey(p, k));
    FirstConcat(findings, BrokenFindings(broken), DiscoveryKey(p));
    BrokenFirst(broken, p);
    if p in ChangedPaths(from, to) {
      assert Lists(entries, p);
      var j :| 0 <= j < |entries| && entries[j].path == p;
      AllFirst(c, entries, j);
    } else {
      AllHaveNone(c, entries, p);
    }
  }

  /** A changed key is never silent: its path has a discovery violation, whichever one stands for it. */
  lemma RangeReportsChangedKeys(repo: Repo, req: Request, vs: seq<Violation>, p: Text)
    requires Judged(repo, req, vs)
    requires Readable(repo, req.start) && Readable(repo, req.head)
    requires p in ChangedPaths(repo.trees[req.start], repo.trees[req.head])
    requires ChangedKeys(ContextOf(repo, req), EntryOf(repo.trees[req.start], repo.trees[req.head], p)) != []
    ensures DiscoveryKey(p) in Keys(vs)
  {
    hide Record, AllFindings, BrokenFindings, FirstWith, MatchesAny, ContextOf, ChangedKeys;
    var entries: seq<DiffEntry>, broken: seq<Text> :| Explains(repo, req, entries, broken, vs);
    var c := ContextOf(repo, req);
    var findings := AllFindings(c, entries).value;
    assert Lists(entries, p);
    var j :| 0 <= j < |entries| && entries[j].path == p;
    AllFirst(c, entries, j);
    FirstConcat(findings, BrokenFindings(broken), DiscoveryKey(p));
    FirstIsThere(findings + BrokenFindings(broken), DiscoveryKey(p));
    RecordKeys([], findings + BrokenFindings(broken));
  }

  // ------------------------------------------------------------- two concrete entries

  const FILE: Text := [97]

  const SOURCES := Sources(
    (e: DiffEntry) => Some(["devDependencies", "scripts"]), (p: Text, k: string) => false, (p: Text) => None,
    (p: Text) => [], (p: Text) => [], (pattern: string, text: string) => false)

  const NO_POLICY := Policy([], [], [], [], [], [])

  const CHANGE := DiffEntry(FILE, Modified, Some(TreeEntry(Regular, "old")), Some(TreeEntry(Regular, "new")))

  /** Two keys changed. */
  const TWO_KEYS := Context(NO_POLICY, SOURCES, {}, {}, {}, None)

  /** Two keys changed in a file that the manifest protects as a whole. */
  const WHOLE_FILE := TWO_KEYS.(manifestWhole := {FILE})

  lemma CanBeJudged(c: Context)
    requires c == TWO_KEYS || c == WHOLE_FILE
    ensures EntryFindings(c, CHANGE).Some?
  {
  }

  /** Of two changed keys only the first is reported. */
  lemma SecondKeyIsNotNamed()
    ensures EntryFindings(TWO_KEYS, CHANGE).Some?
    ensures var vs := Record([], EntryFindings(TWO_KEYS, CHANGE).value);
      NamesKey(vs, "devDependencies") && !NamesKey(vs, "scripts")
  {
    hide EntryFindings, Record, NamesKey;
    CanBeJudged(TWO_KEYS);
    SemanticKeyRecordedIff(TWO_KEYS, CHANGE, "devDependencies");
    SemanticKeyRecordedIff(TWO_KEYS, CHANGE, "scripts");
    assert "devDependencies" != "scripts" by {
      assert "devDependencies"[0] != "scripts"[0];
    }
  }

  /** In a file that is protected as a whole not even the first is. */
  lemma WholeFileHidesKeys()
    ensures EntryFindings(WHOLE_FILE, CHANGE).Some?
    ensures var vs := Record([], EntryFindings(WHOLE_FILE, CHANGE).value);
      !NamesKey(vs, "devDependencies") && !NamesKey(vs, "scripts")
  {
    hide EntryFindings, Record, NamesKey;
    CanBeJudged(WHOLE_FILE);
    SemanticKeyRecordedIff(WHOLE_FILE, CHANGE, "devDependencies");
    SemanticKeyRecordedIff(WHOLE_FILE, CHANGE, "scripts");
  }
}
