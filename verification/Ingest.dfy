/**
  The test-protection rules applied to the diff of an implementer or a producer
  (src/internal/verify/ingest.go).

  The semantic key comparison, the zero-context diff text and the patterns of the static
  checks come from outside: they are functions of the input.
 */
module Ingest {

  import opened Wrappers
  import opened GlobLanguage
  import opened GlobSearch
  import opened Trees
  import opened Evidence
  import AddedLines

  datatype Code = TestTamper | ProtectedPathViolation | GitlinkDenied

  datatype SubCode =
    | NoSubCode | ProtectedPathChanged | ManifestFileChanged | TestFileDeleted | ExistingTestModified
    | TestDependencyChanged | SkipMarkerAdded | DiscoveryConfigChanged | TestEnvDetection

  datatype Detail = Plain | SemanticKey(name: string)

  datatype Violation = Violation(code: Code, sub: SubCode, path: Text, line: int, detail: Detail)

  /** The glob lists of the policies; `humanOnly` takes its paths out of the test class. */
  datatype Policy = Policy(
    protected: seq<Text>, testClass: seq<Text>, humanOnly: seq<Text>,
    wholeFiles: seq<Text>, forbidNew: seq<Text>, testDependencies: seq<Text>)

  /** `None` stands for a blob or a diff that cannot be read. */
  datatype Sources = Sources(
    changedKeys: DiffEntry -> Option<seq<string>>,
    dependencyKey: (Text, string) -> bool,
    diffText: Text -> Option<string>,
    skipMarkers: Text -> seq<string>,
    envDetection: Text -> seq<string>,
    matchesLine: (string, string) -> bool)

  datatype Context = Context(
    pol: Policy, src: Sources, manifest: set<Text>, manifestWhole: set<Text>, headWhole: set<Text>, red: Option<Tree>)

  type Findings = Option<seq<Violation>>

  // ------------------------------------------------------ what an entry violates

  ghost predicate MatchesAny(globs: seq<Text>, p: Text) {
    exists i :: 0 <= i < |globs| && Matches(globs[i], p)
  }

  function When(c: bool, v: Violation): seq<Violation> {
    if c then [v] else []
  }

  function Tamper(sub: SubCode, p: Text): Violation {
    Violation(TestTamper, sub, p, 0, Plain)
  }

  predicate IsGitlink(e: Option<TreeEntry>) {
    e.Some? && e.value.mode == Gitlink
  }

  predicate IsFile(e: Option<TreeEntry>) {
    e.Some? && (e.value.mode == Regular || e.value.mode == Executable)
  }

  ghost predicate IsTestClass(c: Context, p: Text) {
    MatchesAny(c.pol.testClass, p) && !MatchesAny(c.pol.humanOnly, p)
  }

  ghost function PathFindings(c: Context, e: DiffEntry): seq<Violation> {
    When(IsGitlink(e.before) || IsGitlink(e.after), Violation(GitlinkDenied, NoSubCode, e.path, 0, Plain))
    + When(MatchesAny(c.pol.protected, e.path),
      Violation(ProtectedPathViolation, ProtectedPathChanged, e.path, 0, Plain))
    + When(e.path in c.manifest, Tamper(ManifestFileChanged, e.path))
    + When(IsTestClass(c, e.path) && e.status == Deleted, Tamper(TestFileDeleted, e.path))
  }

  /** A test file outside the manifest may be new, but not one the red commit already had. */
  ghost function ExistingFindings(c: Context, e: DiffEntry): Findings {
    if !IsTestClass(c, e.path) || e.path in c.manifest || e.status == Deleted then Some([])
    else if c.red.None? then None
    else Some(When(e.path in c.red.value, Tamper(ExistingTestModified, e.path)))
  }

  ghost function DiscoveryFindings(c: Context, e: DiffEntry): seq<Violation> {
    When(MatchesAny(c.pol.testDependencies, e.path), Tamper(TestDependencyChanged, e.path))
    + When(MatchesAny(c.pol.wholeFiles, e.path) || e.path in c.manifestWhole || e.path in c.headWhole,
           Tamper(DiscoveryConfigChanged, e.path))
    + When(e.status == Added && !IsGitlink(e.after) && MatchesAny(c.pol.forbidNew, e.path),
           Tamper(DiscoveryConfigChanged, e.path))
  }

  function KeyFindings(c: Context, p: Text, keys: seq<string>): seq<Violation>
    decreases |keys|
  {
    if keys == [] then []
    else
      var k := keys[|keys| - 1];
      KeyFindings(c, p, keys[..|keys| - 1])
      + When(c.src.dependencyKey(p, k), Tamper(TestDependencyChanged, p))
      + [Violation(TestTamper, DiscoveryConfigChanged, p, 0, SemanticKey(k))]
  }

  function SemanticFindings(c: Context, e: DiffEntry): Findings {
    if IsGitlink(e.after) then Some([])
    else
      match c.src.changedKeys(e)
      case None => None
      case Some(keys) => Some(KeyFindings(c, e.path, keys))
  }

  predicate Hit(c: Context, patterns: seq<string>, text: string) {
    exists k :: 0 <= k < |patterns| && c.src.matchesLine(patterns[k], text)
  }

  function LineFindings(
    c: Context, p: Text, patterns: seq<string>, sub: SubCode, lines: seq<AddedLines.Added>): seq<Violation>
    decreases |lines|
  {
    if lines == [] then []
    else
      var l := lines[|lines| - 1];
      LineFindings(c, p, patterns, sub, lines[..|lines| - 1])
      + When(Hit(c, patterns, l.text), Violation(TestTamper, sub, p, l.line, Plain))
  }

  ghost function Patterns(c: Context, p: Text): (r: (seq<string>, SubCode)) {
    if IsTestClass(c, p) then (c.src.skipMarkers(p), SkipMarkerAdded)
    else if !MatchesAny(c.pol.protected, p) then (c.src.envDetection(p), TestEnvDetection)
    else ([], SkipMarkerAdded)
  }

  ghost function StaticFindings(c: Context, e: DiffEntry): Findings {
    var (patterns, sub) := Patterns(c, e.path);
    if e.status == Deleted || !IsFile(e.after) || patterns == [] then Some([])
    else
      match c.src.diffText(e.path)
      case None => None
      case Some(text) =>
        match AddedLines.ReadLines(AddedLines.LinesOf(text))
        case None => None
        case Some(lines) => Some(LineFindings(c, e.path, patterns, sub, lines))
  }

  ghost function EntryFindings(c: Context, e: DiffEntry): Findings {
    var existing, semantic, lines := ExistingFindings(c, e), SemanticFindings(c, e), StaticFindings(c, e);
    if existing.None? || semantic.None? || lines.None? then None
    else Some(PathFindings(c, e) + existing.value + DiscoveryFindings(c, e) + semantic.value + lines.value)
  }

  ghost function AllFindings(c: Context, entries: seq<DiffEntry>): Findings
    decreases |entries|
  {
    if entries == [] then Some([])
    else
      var before, last := AllFindings(c, entries[..|entries| - 1]), EntryFindings(c, entries[|entries| - 1]);
      if before.None? || last.None? then None else Some(before.value + last.value)
  }

  // ------------------------------------------------------- recording violations

  type Key = (Code, SubCode, Text, int)

  function KeyOf(v: Violation): Key {
    (v.code, v.sub, v.path, v.line)
  }

  function Keys(vs: seq<Violation>): set<Key> {
    set i | 0 <= i < |vs| :: KeyOf(vs[i])
  }

  /** The violations of `vs` behind those of `out`; of two with the same key only the first is kept. */
  function Record(out: seq<Violation>, vs: seq<Violation>): seq<Violation>
    decreases |vs|
  {
    if vs == [] then out
    else
      var before, v := Record(out, vs[..|vs| - 1]), vs[|vs| - 1];
      if KeyOf(v) in Keys(before) then before else before + [v]
  }

  lemma {:induction false} RecordConcat(out: seq<Violation>, a: seq<Violation>, b: seq<Violation>)
    ensures Record(out, a + b) == Record(Record(out, a), b)
    decreases |b|
  {
    if b == [] {
      assert a + b == a;
    } else {
      assert (a + b)[..|a + b| - 1] == a + b[..|b| - 1];
      RecordConcat(out, a, b[..|b| - 1]);
    }
  }

  lemma RecordOne(out: seq<Violation>, v: Violation)
    ensures Record(out, [v]) == if KeyOf(v) in Keys(out) then out else out + [v]
  {
    assert [v][..0] == [];
  }

  lemma KeysAppend(out: seq<Violation>, v: Violation)
    ensures Keys(out + [v]) == Keys(out) + {KeyOf(v)}
  {
    var all := out + [v];
    forall i | 0 <= i < |out| ensures KeyOf(out[i]) in Keys(all) {
      assert all[i] == out[i];
    }
    assert all[|out|] == v;
    forall i | 0 <= i < |all| ensures KeyOf(all[i]) in Keys(out) + {KeyOf(v)} {
      if i < |out| {
        assert all[i] == out[i];
      }
    }
  }

  /** Recording loses no key and invents none. */
  lemma {:induction false} RecordKeys(out: seq<Violation>, vs: seq<Violation>)
    ensures Keys(Record(out, vs)) == Keys(out) + Keys(vs)
    decreases |vs|
  {
    if vs == [] {
      assert Keys(vs) == {};
    } else {
      var front, v := vs[..|vs| - 1], vs[|vs| - 1];
      RecordKeys(out, front);
      assert vs == front + [v];
      KeysAppend(front, v);
      KeysAppend(Record(out, front), v);
    }
  }

  // ---------------------------------------------------------------- the checker

  method MatchAny(globs: seq<Text>, p: Text) returns (matched: bool)
    ensures matched <==> MatchesAny(globs, p)
  {
    for i := 0 to |globs|
      invariant forall k :: 0 <= k < i ==> !Matches(globs[k], p)
    {
      var m := MatchGlob(globs[i], p);
      if m {
        return true;
      }
    }
    matched := false;
  }

  class IngestCheck {
    const c: Context
    var out: seq<Violation>
    var seen: set<Key>
    var redTree: Option<Tree>

    ghost predicate Valid()
      reads this
    {
      seen == Keys(out) && (redTree.Some? ==> redTree == c.red)
    }

    constructor (c: Context)
      ensures Valid() && out == [] && this.c == c
    {
      this.c := c;
      out, seen, redTree := [], {}, None;
    }

    method Add(v: Violation)
      requires Valid()
      modifies `out, `seen
      ensures Valid() && out == Record(old(out), [v])
    {
      RecordOne(out, v);
      KeysAppend(out, v);
      if KeyOf(v) in seen {
        return;
      }
      seen := seen + {KeyOf(v)};
      out := out + [v];
    }

    method AddWhen(holds: bool, v: Violation)
      requires Valid()
      modifies `out, `seen
      ensures Valid() && out == Record(old(out), When(holds, v))
    {
      if holds {
        Add(v);
      }
    }

    /** The tree of the red commit, read once. */
    method Red() returns (tree: Option<Tree>)
      requires Valid()
      modifies `redTree
      ensures Valid() && tree == c.red
    {
      if redTree.None? {
        redTree := c.red;
      }
      tree := redTree;
    }

    method CheckPath(e: DiffEntry, testClass: bool)
      requires Valid() && (testClass <==> IsTestClass(c, e.path))
      modifies `out, `seen
      ensures Valid() && out == Record(old(out), PathFindings(c, e))
    {
      hide Record, Matches;
      ghost var was := out;
      var protected := MatchAny(c.pol.protected, e.path);
      AddWhen(IsGitlink(e.before) || IsGitlink(e.after), Violation(GitlinkDenied, NoSubCode, e.path, 0, Plain));
      AddWhen(protected, Violation(ProtectedPathViolation, ProtectedPathChanged, e.path, 0, Plain));
      AddWhen(e.path in c.manifest, Tamper(ManifestFileChanged, e.path));
      AddWhen(testClass && e.status == Deleted, Tamper(TestFileDeleted, e.path));
      RecordFour(was,
        When(IsGitlink(e.before) || IsGitlink(e.after), Violation(GitlinkDenied, NoSubCode, e.path, 0, Plain)),
        When(protected, Violation(ProtectedPathViolation, ProtectedPathChanged, e.path, 0, Plain)),
        When(e.path in c.manifest, Tamper(ManifestFileChanged, e.path)),
        When(testClass && e.status == Deleted, Tamper(TestFileDeleted, e.path)));
    }

    method CheckExisting(e: DiffEntry, testClass: bool) returns (ok: bool)
      requires Valid() && (testClass <==> IsTestClass(c, e.path))
      modifies this
      ensures Valid() && (ok <==> ExistingFindings(c, e).Some?)
      ensures ok ==> out == Record(old(out), ExistingFindings(c, e).value)
    {
      if testClass && e.path !in c.manifest && e.status != Deleted {
        var red := Red();
        if red.None? {
          return false;
        }
        AddWhen(e.path in red.value, Tamper(ExistingTestModified, e.path));
      }
      ok := true;
    }

    method CheckDiscovery(e: DiffEntry)
      requires Valid()
      modifies `out, `seen
      ensures Valid() && out == Record(old(out), DiscoveryFindings(c, e))
    {
      hide Record, Matches;
      ghost var was := out;
      var dependency := MatchAny(c.pol.testDependencies, e.path);
      var whole := MatchAny(c.pol.wholeFiles, e.path);
      var forbidden := MatchAny(c.pol.forbidNew, e.path);
      AddWhen(dependency, Tamper(TestDependencyChanged, e.path));
      AddWhen(whole || e.path in c.manifestWhole || e.path in c.headWhole, Tamper(DiscoveryConfigChanged, e.path));
      AddWhen(e.status == Added && !IsGitlink(e.after) && forbidden, Tamper(DiscoveryConfigChanged, e.path));
      RecordThree(was, When(dependency, Tamper(TestDependencyChanged, e.path)),
        When(whole || e.path in c.manifestWhole || e.path in c.headWhole, Tamper(DiscoveryConfigChanged, e.path)),
        When(e.status == Added && !IsGitlink(e.after) && forbidden, Tamper(DiscoveryConfigChanged, e.path)));
    }

    method CheckSemantic(e: DiffEntry) returns (ok: bool)
      requires Valid()
      modifies `out, `seen
      ensures Valid() && (ok <==> SemanticFindings(c, e).Some?)
      ensures ok ==> out == Record(old(out), SemanticFindings(c, e).value)
    {
      if IsGitlink(e.after) {
        return true;
      }
      var changed := c.src.changedKeys(e);
      if changed.None? {
        return false;
      }
      var keys := changed.value;
      for i := 0 to |keys|
        invariant Valid() && out == Record(old(out), KeyFindings(c, e.path, keys[..i]))
      {
        assert keys[..i + 1][..i] == keys[..i];
        ghost var was := KeyFindings(c, e.path, keys[..i]);
        ghost var dependency := When(c.src.dependencyKey(e.path, keys[i]), Tamper(TestDependencyChanged, e.path));
        AddWhen(c.src.dependencyKey(e.path, keys[i]), Tamper(TestDependencyChanged, e.path));
        RecordConcat(old(out), was, dependency);
        Add(Violation(TestTamper, DiscoveryConfigChanged, e.path, 0, SemanticKey(keys[i])));
        RecordConcat(old(out), was + dependency,
                     [Violation(TestTamper, DiscoveryConfigChanged, e.path, 0, SemanticKey(keys[i]))]);
      }
      assert keys[..|keys|] == keys;
      ok := true;
    }

    method MatchesLine(patterns: seq<string>, text: string) returns (hit: bool)
      ensures hit <==> Hit(c, patterns, text)
    {
      for k := 0 to |patterns|
        invariant forall j :: 0 <= j < k ==> !c.src.matchesLine(patterns[j], text)
      {
        if c.src.matchesLine(patterns[k], text) {
          return true;
        }
      }
      hit := false;
    }

    method CheckLines(p: Text, patterns: seq<string>, sub: SubCode, lines: seq<AddedLines.Added>)
      requires Valid()
      modifies `out, `seen
      ensures Valid() && out == Record(old(out), LineFindings(c, p, patterns, sub, lines))
    {
      for i := 0 to |lines|
        invariant Valid() && out == Record(old(out), LineFindings(c, p, patterns, sub, lines[..i]))
      {
        assert lines[..i + 1][..i] == lines[..i];
        var hit := MatchesLine(patterns, lines[i].text);
        var v := Violation(TestTamper, sub, p, lines[i].line, Plain);
        RecordConcat(old(out), LineFindings(c, p, patterns, sub, lines[..i]), When(hit, v));
        AddWhen(hit, v);
      }
      assert lines[..|lines|] == lines;
    }

    method CheckStatic(e: DiffEntry, testClass: bool) returns (ok: bool)
      requires Valid() && (testClass <==> IsTestClass(c, e.path))
      modifies `out, `seen
      ensures Valid() && (ok <==> StaticFindings(c, e).Some?)
      ensures ok ==> out == Record(old(out), StaticFindings(c, e).value)
    {
      hide Matches, AddedLines.ReadLines, AddedLines.LinesOf, LineFindings;
      if e.status == Deleted || !IsFile(e.after) {
        return true;
      }
      var patterns, sub := [], SkipMarkerAdded;
      var protected := MatchAny(c.pol.protected, e.path);
      if testClass {
        patterns := c.src.skipMarkers(e.path);
      } else if !protected {
        patterns, sub := c.src.envDetection(e.path), TestEnvDetection;
      }
      if patterns == [] {
        return true;
      }
      var text := c.src.diffText(e.path);
      if text.None? {
        return false;
      }
      var lines := AddedLines.ParseAddedLines(text.value);
      if lines.None? {
        return false;
      }
      CheckLines(e.path, patterns, sub, lines.value);
      ok := true;
    }

    /** Everything one changed path violates is recorded, or the entry cannot be judged. */
    method Entry(e: DiffEntry) returns (ok: bool)
      requires Valid()
      modifies this
      ensures Valid() && (ok <==> EntryFindings(c, e).Some?)
      ensures ok ==> out == Record(old(out), EntryFindings(c, e).value)
    {
      hide Record, MatchesAny, PathFindings, ExistingFindings, DiscoveryFindings, SemanticFindings, StaticFindings;
      ghost var was := out;
      var matches := MatchAny(c.pol.testClass, e.path);
      var humanOnly := MatchAny(c.pol.humanOnly, e.path);
      var testClass := matches && !humanOnly;
      CheckPath(e, testClass);
      ok := CheckExisting(e, testClass);
      if !ok {
        return;
      }
      CheckDiscovery(e);
      ok := CheckSemantic(e);
      if !ok {
        return;
      }
      ok := CheckStatic(e, testClass);
      if !ok {
        return;
      }
      RecordFour(was, PathFindings(c, e), ExistingFindings(c, e).value, DiscoveryFindings(c, e),
        SemanticFindings(c, e).value);
      RecordConcat(was,
        PathFindings(c, e) + ExistingFindings(c, e).value + DiscoveryFindings(c, e) + SemanticFindings(c, e).value,
        StaticFindings(c, e).value);
    }
  }

  lemma RecordThree(out: seq<Violation>, a: seq<Violation>, b: seq<Violation>, d: seq<Violation>)
    ensures Record(out, a + b + d) == Record(Record(Record(out, a), b), d)
  {
    RecordConcat(out, a, b);
    RecordConcat(out, a + b, d);
  }

  lemma RecordFour(out: seq<Violation>, a: seq<Violation>, b: seq<Violation>, d: seq<Violation>, e: seq<Violation>)
    ensures Record(out, a + b + d + e) == Record(Record(Record(Record(out, a), b), d), e)
  {
    RecordThree(out, a, b, d);
    RecordConcat(out, a + b + d, e);
  }

  // ------------------------------------------------------------- the whole check

  datatype Role = Implementer | Producer | OtherRole

  /** The discovery protection at the head: not derived, not derivable, or the files it covers. */
  datatype Discovery = NoValidation | Underivable | Derived(whole: set<Text>, broken: set<Text>)

  datatype Request = Request(
    role: Role, start: string, head: string, maxFiles: int, manifest: Manifest,
    pol: Policy, src: Sources, discovery: Discovery)

  datatype Ingestion = Violations(violations: seq<Violation>) | NotJudged

  function Paths(files: seq<ManifestFile>): set<Text> {
    set i | 0 <= i < |files| :: files[i].path
  }

  function ContextOf(repo: Repo, req: Request): Context {
    Context(req.pol, req.src, Paths(req.manifest.files),
      set i | 0 <= i < |req.manifest.wholeFiles| :: req.manifest.wholeFiles[i],
            if req.discovery.Derived? then req.discovery.whole else {},
            if req.manifest.testCommit in repo.trees then Some(repo.trees[req.manifest.testCommit]) else None)
  }

  function BrokenFindings(paths: seq<Text>): seq<Violation>
    decreases |paths|
  {
    if paths == [] then []
    else BrokenFindings(paths[..|paths| - 1]) + [Tamper(DiscoveryConfigChanged, paths[|paths| - 1])]
  }

  /** The range can be compared at all. */
  predicate Comparable(repo: Repo, req: Request) {
    && req.role != OtherRole
    && IsRevision(req.manifest.testCommit)
    && Readable(repo, req.start) && Readable(repo, req.head)
    && |ChangedPaths(repo.trees[req.start], repo.trees[req.head])| <= req.maxFiles
  }

  ghost predicate Judgeable(repo: Repo, req: Request) {
    && Comparable(repo, req)
    && var from, to := repo.trees[req.start], repo.trees[req.head];
    && (ChangedPaths(from, to) == {} || req.discovery != Underivable)
    && (forall p :: p in ChangedPaths(from, to) ==> EntryFindings(ContextOf(repo, req), EntryOf(from, to, p)).Some?)
  }

  ghost predicate Lines(paths: seq<Text>, all: set<Text>) {
    forall p :: p in paths <==> p in all
  }

  /** The broken paths that are reported: none when nothing changed. */
  function Broken(req: Request, entries: seq<DiffEntry>): set<Text> {
    if req.discovery.Derived? && entries != [] then req.discovery.broken else {}
  }

  /** The violations are the findings of every entry of the difference, and of the files discovery cannot read. */
  ghost predicate Explains(repo: Repo, req: Request, entries: seq<DiffEntry>, broken: seq<Text>, vs: seq<Violation>) {
    && Comparable(repo, req)
    && IsDifference(entries, repo.trees[req.start], repo.trees[req.head])
    && AllFindings(ContextOf(repo, req), entries).Some?
    && Lines(broken, Broken(req, entries))
    && vs == Record([], AllFindings(ContextOf(repo, req), entries).value + BrokenFindings(broken))
  }

  ghost predicate Judged(repo: Repo, req: Request, vs: seq<Violation>) {
    exists entries, broken :: Explains(repo, req, entries, broken, vs)
  }

  lemma {:induction false} AllFindingsSome(c: Context, entries: seq<DiffEntry>)
    ensures AllFindings(c, entries).Some? <==> forall i :: 0 <= i < |entries| ==> EntryFindings(c, entries[i]).Some?
    decreases |entries|
  {
    hide EntryFindings;
    if entries != [] {
      var front := entries[..|entries| - 1];
      AllFindingsSome(c, front);
      assert forall i :: 0 <= i < |front| ==> front[i] == entries[i];
    }
  }

  lemma JudgeableIff(repo: Repo, req: Request, entries: seq<DiffEntry>)
    requires Comparable(repo, req) && IsDifference(entries, repo.trees[req.start], repo.trees[req.head])
    ensures Judgeable(repo, req) <==>
      (entries == [] || req.discovery != Underivable) && AllFindings(ContextOf(repo, req), entries).Some?
  {
    hide EntryFindings, AllFindings, ContextOf;
    var c, from, to := ContextOf(repo, req), repo.trees[req.start], repo.trees[req.head];
    AllFindingsSome(c, entries);
    assert entries == [] <==> ChangedPaths(from, to) == {} by {
      if ChangedPaths(from, to) != {} {
        var p :| p in ChangedPaths(from, to);
        assert Lists(entries, p);
      }
      if entries != [] {
        assert entries[0].path in ChangedPaths(from, to);
      }
    }
    forall p | p in ChangedPaths(from, to) && AllFindings(c, entries).Some?
      ensures EntryFindings(c, EntryOf(from, to, p)).Some?
    {
      assert Lists(entries, p);
      var i :| 0 <= i < |entries| && entries[i].path == p;
    }
  }

  method AddBroken(check: IngestCheck, broken: set<Text>) returns (ghost paths: seq<Text>)
    requires check.Valid()
    modifies check
    ensures check.Valid() && Lines(paths, broken)
    ensures check.out == Record(old(check.out), BrokenFindings(paths))
  {
    hide Record;
    paths := [];
    var left := broken;
    RecordNothing(check.out);
    while left != {}
      invariant check.Valid() && left <= broken
      invariant forall p :: p in paths <==> p in broken && p !in left
      invariant check.out == Record(old(check.out), BrokenFindings(paths))
      decreases |left|
    {
      var p :| p in left;
      left := left - {p};
      ghost var was := paths;
      check.Add(Tamper(DiscoveryConfigChanged, p));
      paths := paths + [p];
      assert paths[..|paths| - 1] == was;
      RecordConcat(old(check.out), BrokenFindings(was), [Tamper(DiscoveryConfigChanged, p)]);
    }
  }

  lemma RecordNothing(out: seq<Violation>)
    ensures Record(out, BrokenFindings([])) == out && Record(out, []) == out
  {
  }

  method CheckEntries(check: IngestCheck, entries: seq<DiffEntry>) returns (ok: bool)
    requires check.Valid() && check.out == []
    modifies check
    ensures check.Valid() && (ok <==> AllFindings(check.c, entries).Some?)
    ensures ok ==> check.out == Record([], AllFindings(check.c, entries).value)
  {
    hide Record, EntryFindings;
    RecordNothing([]);
    AllFindingsSome(check.c, entries);
    for i := 0 to |entries|
      invariant check.Valid() && AllFindings(check.c, entries[..i]).Some?
      invariant check.out == Record([], AllFindings(check.c, entries[..i]).value)
    {
      ghost var was := AllFindings(check.c, entries[..i]).value;
      assert entries[..i + 1][..i] == entries[..i];
      ok := check.Entry(entries[i]);
      if !ok {
        return;
      }
      RecordConcat([], was, EntryFindings(check.c, entries[i]).value);
    }
    assert entries[..|entries|] == entries;
    ok := true;
  }

  method CheckIngestion(repo: Repo, req: Request) returns (r: Ingestion)
    ensures r.Violations? <==> Judgeable(repo, req)
    ensures r.Violations? ==> Judged(repo, req, r.violations)
  {
    hide Record, EntryFindings, AllFindings;
    if req.role == OtherRole || !IsRevision(req.manifest.testCommit) {
      return NotJudged;
    }
    var diff := DeriveDiff(repo, req.start, req.head, req.maxFiles);
    if !diff.Entries? {
      return NotJudged;
    }
    var entries := diff.entries;
    assert Comparable(repo, req);
    JudgeableIff(repo, req, entries);
    if entries != [] && req.discovery == Underivable {
      return NotJudged;
    }
    var check := new IngestCheck(ContextOf(repo, req));
    var ok := CheckEntries(check, entries);
    if !ok {
      return NotJudged;
    }
    ghost var findings := AllFindings(check.c, entries).value;
    ghost var broken := AddBroken(check, Broken(req, entries));
    RecordConcat([], findings, BrokenFindings(broken));
    assert Explains(repo, req, entries, broken, check.out);
    r := Violations(check.out);
  }
}
