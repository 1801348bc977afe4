/**
  The integrity facts of the range from the red commit to a head: the status of every
  manifest file and the mapped violations (src/internal/verify/green_derive.go), and what
  a chain of clean ingestion steps guarantees about them.
 */
module Integrity {

  import opened Wrappers
  import opened GlobLanguage
  import opened Trees
  import opened Evidence
  import opened Ingest
  import AddedLines

  datatype FileStatus = Intact | FileModified | FileDeleted | FileRenamed | UnknownStatus

  datatype IntegrityFile = IntegrityFile(path: Text, expected: string, actual: Option<string>, status: FileStatus)

  datatype ChangeKind = WholeFileChanged | SemanticKeyChanged(key: string) | OtherChangeKind

  datatype DiscoveryChange = DiscoveryChange(path: Text, kind: ChangeKind)

  /** The code of a static finding: a sub-code of a violation, or one of the codes only a document carries. */
  datatype FindingCode = Sub(sub: SubCode) | TestFileRenamed | NewDiscoveryFile | ForeignCommitCode | OtherCode

  datatype Severity = ViolationSeverity | WarningSeverity | OtherSeverity

  datatype Finding = Finding(code: FindingCode, path: Text, line: int, severity: Severity)

  datatype Facts = Facts(files: seq<IntegrityFile>, discovery: seq<DiscoveryChange>, findings: seq<Finding>)

  datatype Derivation = FactsOf(facts: Facts) | NotDerived

  // -------------------------------------------------------------- the file status

  ghost predicate Flagged(vs: seq<Violation>, p: Text) {
    exists i :: 0 <= i < |vs| && vs[i].code == TestTamper && vs[i].sub == ManifestFileChanged && vs[i].path == p
  }

  /** The blob of the manifest, under the mode the red commit has for the path if it has it. */
  predicate Unchanged(red: Tree, head: Tree, f: ManifestFile) {
    && f.path in head && head[f.path].blob == f.blob
    && (f.path in red ==> red[f.path].mode == head[f.path].mode)
  }

  ghost predicate IsStatus(red: Tree, head: Tree, vs: seq<Violation>, f: ManifestFile, file: IntegrityFile) {
    && file.path == f.path && file.expected == f.blob
    && (file.status == Intact || file.status == FileModified || file.status == FileDeleted)
    && (file.status == FileDeleted <==> f.path !in head)
    && (file.status == Intact <==> Unchanged(red, head, f) && !Flagged(vs, f.path))
    && file.actual == (if f.path in head then Some(head[f.path].blob) else None)
  }

  method FlaggedPaths(vs: seq<Violation>) returns (flagged: set<Text>)
    ensures forall p :: p in flagged <==> Flagged(vs, p)
  {
    flagged := {};
    for i := 0 to |vs|
      invariant forall p :: p in flagged <==> Flagged(vs[..i], p)
    {
      if vs[i].code == TestTamper && vs[i].sub == ManifestFileChanged {
        flagged := flagged + {vs[i].path};
      }
      forall p ensures Flagged(vs[..i + 1], p) <==>
        Flagged(vs[..i], p) || (vs[i].code == TestTamper && vs[i].sub == ManifestFileChanged && vs[i].path == p)
      {
        FlaggedStep(vs, i, p);
      }
    }
    assert vs[..|vs|] == vs;
  }

  lemma FlaggedStep(vs: seq<Violation>, i: nat, p: Text)
    requires i < |vs|
    ensures Flagged(vs[..i + 1], p) <==>
      Flagged(vs[..i], p) || (vs[i].code == TestTamper && vs[i].sub == ManifestFileChanged && vs[i].path == p)
  {
    var now, before := vs[..i + 1], vs[..i];
    assert now[i] == vs[i];
    assert forall k :: 0 <= k < i ==> now[k] == before[k];
  }

  method FileStatuses(red: Tree, head: Tree, vs: seq<Violation>, files: seq<ManifestFile>)
    returns (r: seq<IntegrityFile>)
    ensures |r| == |files|
    ensures forall i :: 0 <= i < |files| ==> IsStatus(red, head, vs, files[i], r[i])
  {
    hide Flagged;
    var flagged := FlaggedPaths(vs);
    r := [];
    for i := 0 to |files|
      invariant |r| == i && forall k :: 0 <= k < i ==> IsStatus(red, head, vs, files[k], r[k])
    {
      var f := files[i];
      var file := IntegrityFile(f.path, f.blob, None, FileDeleted);
      if f.path in head {
        var e := head[f.path];
        file := file.(actual := Some(e.blob), status := FileModified);
        if e.blob == f.blob && (f.path !in red || red[f.path].mode == e.mode) && f.path !in flagged {
          file := file.(status := Intact);
        }
      }
      assert f.path in flagged <==> Flagged(vs, f.path);
      assert IsStatus(red, head, vs, f, file);
      r := r + [file];
    }
  }

  // -------------------------------------------------------- the violation mapping

  /** The static finding a violation maps to, unless it is reported elsewhere. */
  function FindingOf(v: Violation): Option<Finding> {
    if v.code != TestTamper then Some(Finding(Sub(ProtectedPathChanged), v.path, v.line, ViolationSeverity))
    else if v.sub == ManifestFileChanged || v.sub == DiscoveryConfigChanged then None
    else Some(Finding(Sub(v.sub), v.path, v.line, ViolationSeverity))
  }

  function ChangeOf(v: Violation): DiscoveryChange {
    DiscoveryChange(v.path, if v.detail.SemanticKey? then SemanticKeyChanged(v.detail.name) else WholeFileChanged)
  }

  predicate KnownCode(v: Violation) {
    v.code == TestTamper ==> v.sub != NoSubCode && v.sub != ProtectedPathChanged
  }

  predicate IsDiscovery(v: Violation) {
    v.code == TestTamper && v.sub == DiscoveryConfigChanged
  }

  function FindingsOf(vs: seq<Violation>): seq<Finding>
    decreases |vs|
  {
    if vs == [] then []
    else
      var f := FindingOf(vs[|vs| - 1]);
      FindingsOf(vs[..|vs| - 1]) + (if f.Some? then [f.value] else [])
  }

  /** The discovery changes, each once, in the order of their first violation. */
  function ChangesOf(vs: seq<Violation>): seq<DiscoveryChange>
    decreases |vs|
  {
    if vs == [] then []
    else
      var before, v := ChangesOf(vs[..|vs| - 1]), vs[|vs| - 1];
      if IsDiscovery(v) && ChangeOf(v) !in before then before + [ChangeOf(v)] else before
  }

  method MapViolations(vs: seq<Violation>) returns (ok: bool, findings: seq<Finding>, discovery: seq<DiscoveryChange>)
    ensures ok <==> forall i :: 0 <= i < |vs| ==> KnownCode(vs[i])
    ensures ok ==> findings == FindingsOf(vs) && discovery == ChangesOf(vs)
  {
    findings, discovery := [], [];
    var seen: set<DiscoveryChange> := {};
    for i := 0 to |vs|
      invariant forall k :: 0 <= k < i ==> KnownCode(vs[k])
      invariant findings == FindingsOf(vs[..i]) && discovery == ChangesOf(vs[..i])
      invariant forall d :: d in seen <==> d in discovery
    {
      assert vs[..i + 1][..i] == vs[..i];
      var v := vs[i];
      if v.code != TestTamper {
        findings := findings + [Finding(Sub(ProtectedPathChanged), v.path, v.line, ViolationSeverity)];
      } else if v.sub == DiscoveryConfigChanged {
        var d := ChangeOf(v);
        if d !in seen {
          seen := seen + {d};
          discovery := discovery + [d];
        }
      } else if v.sub == NoSubCode || v.sub == ProtectedPathChanged {
        return false, [], [];
      } else if v.sub != ManifestFileChanged {
        findings := findings + [Finding(Sub(v.sub), v.path, v.line, ViolationSeverity)];
      }
    }
    assert vs[..|vs|] == vs;
    ok := true;
  }

  method DeriveIntegrity(repo: Repo, head: string, manifest: Manifest, vs: seq<Violation>) returns (r: Derivation)
    ensures r.FactsOf? <==>
      (Readable(repo, manifest.testCommit) && Readable(repo, head) && forall i :: 0 <= i < |vs| ==> KnownCode(vs[i]))
    ensures r.FactsOf? ==> |r.facts.files| == |manifest.files|
    ensures r.FactsOf? ==> forall i :: 0 <= i < |manifest.files| ==>
      IsStatus(repo.trees[manifest.testCommit], repo.trees[head], vs, manifest.files[i], r.facts.files[i])
    ensures r.FactsOf? ==> r.facts.findings == FindingsOf(vs) && r.facts.discovery == ChangesOf(vs)
  {
    if !Readable(repo, manifest.testCommit) || !Readable(repo, head) {
      return NotDerived;
    }
    var files := FileStatuses(repo.trees[manifest.testCommit], repo.trees[head], vs, manifest.files);
    var ok, findings, discovery := MapViolations(vs);
    if !ok {
      return NotDerived;
    }
    r := FactsOf(Facts(files, discovery, findings));
  }

  /** No violation disappears: each one is a finding, a discovery change, or a flagged manifest file. */
  lemma {:induction false} NothingIsLost(vs: seq<Violation>)
    ensures FindingsOf(vs) == [] && ChangesOf(vs) == [] && (forall p :: !Flagged(vs, p)) <==> vs == []
    decreases |vs|
  {
    if vs != [] {
      var front, v := vs[..|vs| - 1], vs[|vs| - 1];
      NothingIsLost(front);
      if v.code == TestTamper && v.sub == ManifestFileChanged {
        assert vs[|vs| - 1] == v;
        assert Flagged(vs, v.path);
      }
    }
  }

  // ----------------------------------------------------- which files are flagged

  ghost predicate Reports(vs: seq<Violation>, p: Text) {
    exists k :: k in Keys(vs) && k.0 == TestTamper && k.1 == ManifestFileChanged && k.2 == p
  }

  lemma FlaggedIsReported(vs: seq<Violation>, p: Text)
    ensures Flagged(vs, p) <==> Reports(vs, p)
  {
    if Flagged(vs, p) {
      var i :| 0 <= i < |vs| && vs[i].code == TestTamper && vs[i].sub == ManifestFileChanged && vs[i].path == p;
      assert KeyOf(vs[i]) in Keys(vs);
    }
  }

  /** Recording keeps exactly the flagged paths. */
  lemma RecordFlags(vs: seq<Violation>, p: Text)
    ensures Flagged(Record([], vs), p) <==> Flagged(vs, p)
  {
    RecordKeys([], vs);
    assert Keys([]) == {};
    assert Keys(Record([], vs)) == Keys(vs);
    FlaggedIsReported(vs, p);
    FlaggedIsReported(Record([], vs), p);
  }

  lemma FlaggedConcat(a: seq<Violation>, b: seq<Violation>, p: Text)
    ensures Flagged(a + b, p) <==> Flagged(a, p) || Flagged(b, p)
  {
    var all := a + b;
    if Flagged(a, p) {
      var i :| 0 <= i < |a| && a[i].code == TestTamper && a[i].sub == ManifestFileChanged && a[i].path == p;
      assert all[i] == a[i];
    }
    if Flagged(b, p) {
      var i :| 0 <= i < |b| && b[i].code == TestTamper && b[i].sub == ManifestFileChanged && b[i].path == p;
      assert all[|a| + i] == b[i];
    }
    if Flagged(all, p) {
      var i :| 0 <= i < |all| && all[i].code == TestTamper && all[i].sub == ManifestFileChanged && all[i].path == p;
      if i < |a| {
        assert a[i] == all[i];
      } else {
        assert b[i - |a|] == all[i];
      }
    }
  }

  lemma {:induction false} KeysAreNotManifest(c: Context, q: Text, keys: seq<string>, p: Text)
    ensures !Flagged(KeyFindings(c, q, keys), p)
    decreases |keys|
  {
    if keys != [] {
      KeysAreNotManifest(c, q, keys[..|keys| - 1], p);
    }
  }

  lemma {:induction false} LinesAreNotManifest(
    c: Context, q: Text, patterns: seq<string>, sub: SubCode, lines: seq<AddedLines.Added>, p: Text)
    requires sub != ManifestFileChanged
    ensures !Flagged(LineFindings(c, q, patterns, sub, lines), p)
    decreases |lines|
  {
    if lines != [] {
      LinesAreNotManifest(c, q, patterns, sub, lines[..|lines| - 1], p);
    }
  }

  lemma {:induction false} BrokenAreNotManifest(paths: seq<Text>, p: Text)
    ensures !Flagged(BrokenFindings(paths), p)
    decreases |paths|
  {
    if paths != [] {
      BrokenAreNotManifest(paths[..|paths| - 1], p);
    }
  }

  lemma PathFlags(c: Context, e: DiffEntry, p: Text)
    ensures Flagged(PathFindings(c, e), p) <==> e.path == p && p in c.manifest
    ensures !Flagged(DiscoveryFindings(c, e), p)
    ensures ExistingFindings(c, e).Some? ==> !Flagged(ExistingFindings(c, e).value, p)
  {
    hide MatchesAny;
    var all := PathFindings(c, e);
    var early :=
      |When(IsGitlink(e.before) || IsGitlink(e.after), Violation(GitlinkDenied, NoSubCode, e.path, 0, Plain))|
      + |When(MatchesAny(c.pol.protected, e.path),
              Violation(ProtectedPathViolation, ProtectedPathChanged, e.path, 0, Plain))|;
    if e.path in c.manifest {
      assert all[early] == Tamper(ManifestFileChanged, e.path);
    }
  }

  lemma RestFlags(c: Context, e: DiffEntry, p: Text)
    ensures SemanticFindings(c, e).Some? ==> !Flagged(SemanticFindings(c, e).value, p)
    ensures StaticFindings(c, e).Some? ==> !Flagged(StaticFindings(c, e).value, p)
  {
    hide IsTestClass, MatchesAny, Flagged, KeyFindings, LineFindings, AddedLines.ReadLines, AddedLines.LinesOf;
    if SemanticFindings(c, e).Some? {
      if !IsGitlink(e.after) {
        KeysAreNotManifest(c, e.path, c.src.changedKeys(e).value, p);
      } else {
        NothingFlagged(p);
      }
    }
    var (patterns, sub) := Patterns(c, e.path);
    if StaticFindings(c, e).Some? {
      if e.status == Deleted || !IsFile(e.after) || patterns == [] {
        NothingFlagged(p);
      } else {
        LinesAreNotManifest(c, e.path, patterns, sub,
          AddedLines.ReadLines(AddedLines.LinesOf(c.src.diffText(e.path).value)).value, p);
      }
    }
  }

  lemma NothingFlagged(p: Text)
    ensures !Flagged([], p)
  {
  }

  lemma EntryFlags(c: Context, e: DiffEntry, p: Text)
    requires EntryFindings(c, e).Some?
    ensures Flagged(EntryFindings(c, e).value, p) <==> e.path == p && p in c.manifest
  {
    hide Flagged, PathFindings, ExistingFindings, DiscoveryFindings, SemanticFindings, StaticFindings;
    PathFlags(c, e, p);
    RestFlags(c, e, p);
    var a, b, d := PathFindings(c, e), ExistingFindings(c, e).value, DiscoveryFindings(c, e);
    var s, t := SemanticFindings(c, e).value, StaticFindings(c, e).value;
    FlaggedConcat(a, b, p);
    FlaggedConcat(a + b, d, p);
    FlaggedConcat(a + b + d, s, p);
    FlaggedConcat(a + b + d + s, t, p);
  }

  lemma {:induction false} AllFlags(c: Context, entries: seq<DiffEntry>, p: Text)
    requires AllFindings(c, entries).Some?
    ensures Flagged(AllFindings(c, entries).value, p) <==> Lists(entries, p) && p in c.manifest
    decreases |entries|
  {
    hide Flagged, EntryFindings;
    if entries == [] {
      NothingFlagged(p);
    } else {
      var front, e := entries[..|entries| - 1], entries[|entries| - 1];
      AllFlags(c, front, p);
      EntryFlags(c, e, p);
      FlaggedConcat(AllFindings(c, front).value, EntryFindings(c, e).value, p);
      assert Lists(entries, p) <==> Lists(front, p) || e.path == p by {
        assert forall i :: 0 <= i < |front| ==> front[i] == entries[i];
      }
    }
  }

  /** A judged range flags exactly the manifest files whose tree entry is not the same at both ends. */
  lemma FlagsChangedManifestFiles(repo: Repo, req: Request, vs: seq<Violation>, p: Text)
    requires Judged(repo, req, vs)
    ensures Readable(repo, req.start) && Readable(repo, req.head)
    ensures Flagged(vs, p) <==>
      p in Paths(req.manifest.files) && At(repo.trees[req.start], p) != At(repo.trees[req.head], p)
  {
    hide Record, AllFindings, Flagged, BrokenFindings;
    var entries, broken :| Explains(repo, req, entries, broken, vs);
    var findings := AllFindings(ContextOf(repo, req), entries).value;
    RecordFlags(findings + BrokenFindings(broken), p);
    FlaggedConcat(findings, BrokenFindings(broken), p);
    BrokenAreNotManifest(broken, p);
    AllFlags(ContextOf(repo, req), entries, p);
  }

  /**
    With the violations of the whole range from the red commit, a manifest file is intact exactly when the
    head has the red commit's own entry for it, with the blob the manifest records.
   */
  lemma IntactIff(repo: Repo, req: Request, vs: seq<Violation>, f: ManifestFile, file: IntegrityFile)
    requires Judged(repo, req, vs) && req.start == req.manifest.testCommit && f in req.manifest.files
    requires Readable(repo, req.start) && Readable(repo, req.head)
    requires IsStatus(repo.trees[req.start], repo.trees[req.head], vs, f, file)
    ensures var red, head := repo.trees[req.start], repo.trees[req.head];
      file.status == Intact <==> f.path in red && At(red, f.path) == At(head, f.path) && red[f.path].blob == f.blob
  {
    FlagsChangedManifestFiles(repo, req, vs, f.path);
    assert f.path in Paths(req.manifest.files);
  }

  // ----------------------------------------------------------- known violation codes

  predicate Known(vs: seq<Violation>) {
    forall i :: 0 <= i < |vs| ==> KnownCode(vs[i])
  }

  lemma KnownConcat(a: seq<Violation>, b: seq<Violation>)
    requires Known(a) && Known(b)
    ensures Known(a + b)
  {
  }

  lemma {:induction false} RecordIsKnown(out: seq<Violation>, vs: seq<Violation>)
    requires Known(out) && Known(vs)
    ensures Known(Record(out, vs))
    decreases |vs|
  {
    if vs != [] {
      RecordIsKnown(out, vs[..|vs| - 1]);
      assert KnownCode(vs[|vs| - 1]);
    }
  }

  lemma {:induction false} KeyCodesAreKnown(c: Context, p: Text, keys: seq<string>)
    ensures Known(KeyFindings(c, p, keys))
    decreases |keys|
  {
    if keys != [] {
      KeyCodesAreKnown(c, p, keys[..|keys| - 1]);
    }
  }

  lemma {:induction false} LineCodesAreKnown(
    c: Context, p: Text, patterns: seq<string>, sub: SubCode, lines: seq<AddedLines.Added>)
    requires sub != NoSubCode && sub != ProtectedPathChanged
    ensures Known(LineFindings(c, p, patterns, sub, lines))
    decreases |lines|
  {
    if lines != [] {
      LineCodesAreKnown(c, p, patterns, sub, lines[..|lines| - 1]);
    }
  }

  lemma {:induction false} BrokenCodesAreKnown(paths: seq<Text>)
    ensures Known(BrokenFindings(paths))
    decreases |paths|
  {
    if paths != [] {
      BrokenCodesAreKnown(paths[..|paths| - 1]);
    }
  }

  lemma PathCodesAreKnown(c: Context, e: DiffEntry)
    ensures Known(PathFindings(c, e)) && Known(DiscoveryFindings(c, e))
    ensures ExistingFindings(c, e).Some? ==> Known(ExistingFindings(c, e).value)
  {
    hide MatchesAny;
  }

  lemma RestCodesAreKnown(c: Context, e: DiffEntry)
    ensures SemanticFindings(c, e).Some? ==> Known(SemanticFindings(c, e).value)
    ensures StaticFindings(c, e).Some? ==> Known(StaticFindings(c, e).value)
  {
    hide IsTestClass, MatchesAny, KeyFindings, LineFindings, AddedLines.ReadLines, AddedLines.LinesOf;
    if SemanticFindings(c, e).Some? && !IsGitlink(e.after) {
      KeyCodesAreKnown(c, e.path, c.src.changedKeys(e).value);
    }
    var (patterns, sub) := Patterns(c, e.path);
    if StaticFindings(c, e).Some? && e.status != Deleted && IsFile(e.after) && patterns != [] {
      LineCodesAreKnown(c, e.path, patterns, sub,
        AddedLines.ReadLines(AddedLines.LinesOf(c.src.diffText(e.path).value)).value);
    }
  }

  lemma EntryCodesAreKnown(c: Context, e: DiffEntry)
    requires EntryFindings(c, e).Some?
    ensures Known(EntryFindings(c, e).value)
  {
    hide Known, PathFindings, ExistingFindings, DiscoveryFindings, SemanticFindings, StaticFindings;
    PathCodesAreKnown(c, e);
    RestCodesAreKnown(c, e);
    var a, b, d := PathFindings(c, e), ExistingFindings(c, e).value, DiscoveryFindings(c, e);
    var s, t := SemanticFindings(c, e).value, StaticFindings(c, e).value;
    KnownConcat(a, b);
    KnownConcat(a + b, d);
    KnownConcat(a + b + d, s);
    KnownConcat(a + b + d + s, t);
  }

  lemma {:induction false} AllCodesAreKnown(c: Context, entries: seq<DiffEntry>)
    requires AllFindings(c, entries).Some?
    ensures Known(AllFindings(c, entries).value)
    decreases |entries|
  {
    hide EntryFindings;
    if entries != [] {
      var front := entries[..|entries| - 1];
      AllCodesAreKnown(c, front);
      EntryCodesAreKnown(c, entries[|entries| - 1]);
      KnownConcat(AllFindings(c, front).value, EntryFindings(c, entries[|entries| - 1]).value);
    }
  }

  /** The derivation understands every violation the ingestion check reports. */
  lemma JudgedCodesAreKnown(repo: Repo, req: Request, vs: seq<Violation>)
    requires Judged(repo, req, vs)
    ensures forall i :: 0 <= i < |vs| ==> KnownCode(vs[i])
  {
    hide Record, AllFindings, BrokenFindings;
    var entries, broken :| Explains(repo, req, entries, broken, vs);
    var findings := AllFindings(ContextOf(repo, req), entries).value;
    AllCodesAreKnown(ContextOf(repo, req), entries);
    BrokenCodesAreKnown(broken);
    KnownConcat(findings, BrokenFindings(broken));
    RecordIsKnown([], findings + BrokenFindings(broken));
  }

  // --------------------------------------------------------- chains of ingestions

  /** Steps that start at the red commit, each where the one before ended, judged against one manifest. */
  ghost predicate Chain(repo: Repo, manifest: Manifest, steps: seq<Request>, found: seq<seq<Violation>>) {
    && |steps| == |found|
    && (forall k :: 0 <= k < |steps| ==> Judged(repo, steps[k], found[k]) && steps[k].manifest == manifest)
    && (|steps| > 0 ==> steps[0].start == manifest.testCommit)
    && (forall k :: 0 < k < |steps| ==> steps[k].start == steps[k - 1].head)
  }

  function LastHead(manifest: Manifest, steps: seq<Request>): string {
    if steps == [] then manifest.testCommit else steps[|steps| - 1].head
  }

  function TreeAt(repo: Repo, rev: string): Tree {
    if rev in repo.trees then repo.trees[rev] else map[]
  }

  /** A chain that leaves a manifest file with another entry than the red commit's flags the file in some step. */
  lemma {:induction false} ChangeIsFlagged(
    repo: Repo, manifest: Manifest, steps: seq<Request>, found: seq<seq<Violation>>, p: Text)
    requires Chain(repo, manifest, steps, found) && p in Paths(manifest.files)
    requires At(TreeAt(repo, manifest.testCommit), p) != At(TreeAt(repo, LastHead(manifest, steps)), p)
    ensures exists k :: 0 <= k < |found| && Flagged(found[k], p)
    decreases |steps|
  {
    hide Flagged, Judged;
    var n := |steps| - 1;
    FlagsChangedManifestFiles(repo, steps[n], found[n], p);
    if At(TreeAt(repo, steps[n].start), p) == At(TreeAt(repo, steps[n].head), p) {
      var front, before := steps[..n], found[..n];
      assert LastHead(manifest, front) == steps[n].start;
      ChangeIsFlagged(repo, manifest, front, before, p);
      var k :| 0 <= k < |before| && Flagged(before[k], p);
      assert found[k] == before[k];
    } else {
      assert Flagged(found[n], p);
    }
  }

  /** A step that changes a manifest file is flagged, even if a later step restores it. */
  lemma EveryChangeIsFlagged(
    repo: Repo, manifest: Manifest, steps: seq<Request>, found: seq<seq<Violation>>, k: nat, p: Text)
    requires Chain(repo, manifest, steps, found) && p in Paths(manifest.files) && k < |steps|
    requires At(TreeAt(repo, steps[k].start), p) != At(TreeAt(repo, steps[k].head), p)
    ensures Flagged(found[k], p)
  {
    hide Flagged, Judged;
    FlagsChangedManifestFiles(repo, steps[k], found[k], p);
  }

  /**
    After a chain of steps without violations, the derivation over the whole range marks a manifest file
    intact exactly when the red commit has it with the blob the manifest records.
   */
  lemma CleanChainIsIntact(
    repo: Repo, steps: seq<Request>, found: seq<seq<Violation>>, whole: Request, vs: seq<Violation>, i: nat,
    file: IntegrityFile)
    requires Chain(repo, whole.manifest, steps, found)
    requires forall k :: 0 <= k < |found| ==> found[k] == []
    requires whole.start == whole.manifest.testCommit && whole.head == LastHead(whole.manifest, steps)
    requires Judged(repo, whole, vs) && Readable(repo, whole.start) && Readable(repo, whole.head)
    requires i < |whole.manifest.files|
    requires IsStatus(repo.trees[whole.start], repo.trees[whole.head], vs, whole.manifest.files[i], file)
    ensures var red, f := repo.trees[whole.start], whole.manifest.files[i];
      file.status == Intact <==> f.path in red && red[f.path].blob == f.blob
  {
    hide Judged, IsStatus, Flagged;
    var f, red, head := whole.manifest.files[i], repo.trees[whole.start], repo.trees[whole.head];
    assert f.path in Paths(whole.manifest.files);
    IntactIff(repo, whole, vs, f, file);
    UnflaggedIsUnchanged(repo, whole.manifest, steps, found, f.path);
  }

  lemma UnflaggedIsUnchanged(repo: Repo, manifest: Manifest, steps: seq<Request>, found: seq<seq<Violation>>, p: Text)
    requires Chain(repo, manifest, steps, found) && p in Paths(manifest.files)
    requires forall k :: 0 <= k < |found| ==> found[k] == []
    ensures At(TreeAt(repo, manifest.testCommit), p) == At(TreeAt(repo, LastHead(manifest, steps)), p)
  {
    hide Chain, Judged;
    forall k | 0 <= k < |found| ensures !Flagged(found[k], p) {
      NothingFlagged(p);
    }
    if At(TreeAt(repo, manifest.testCommit), p) != At(TreeAt(repo, LastHead(manifest, steps)), p) {
      ChangeIsFlagged(repo, manifest, steps, found, p);
    }
  }
}
