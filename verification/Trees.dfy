/**
  Git trees as maps from path to entry, and the raw difference of two of them
  (src/internal/verify/gitdiff.go, DeriveDiff).
 */
module Trees {

  import opened Wrappers
  import opened GlobLanguage

  datatype Mode = Regular | Executable | Symlink | Gitlink

  datatype TreeEntry = TreeEntry(mode: Mode, blob: string)

  type Tree = map<Text, TreeEntry>

  datatype Change = Added | Deleted | Modified | TypeChanged

  datatype DiffEntry = DiffEntry(path: Text, status: Change, before: Option<TreeEntry>, after: Option<TreeEntry>)

  /** The commits that can be read, with their trees. */
  datatype Repo = Repo(trees: map<string, Tree>)

  datatype Diff = Entries(entries: seq<DiffEntry>) | TooLarge | Unverifiable

  predicate IsHex(c: char) {
    '0' <= c <= '9' || 'a' <= c <= 'f'
  }

  /** A full lowercase object id that is not the all-zero one. */
  predicate IsRevision(rev: string) {
    && |rev| == 40
    && (forall i :: 0 <= i < |rev| ==> IsHex(rev[i]))
    && (exists i :: 0 <= i < |rev| && rev[i] != '0')
  }

  predicate Readable(repo: Repo, rev: string) {
    IsRevision(rev) && rev in repo.trees
  }

  function At(t: Tree, p: Text): Option<TreeEntry> {
    if p in t then Some(t[p]) else None
  }

  function FileType(m: Mode): Mode {
    if m == Executable then Regular else m
  }

  /** The paths whose entry is not the same in both trees; a rename is one deletion and one addition. */
  function ChangedPaths(a: Tree, b: Tree): set<Text> {
    set p | p in a.Keys + b.Keys && At(a, p) != At(b, p)
  }

  function EntryOf(a: Tree, b: Tree, p: Text): DiffEntry {
    var before, after := At(a, p), At(b, p);
    var status :=
      if before.None? then Added
      else if after.None? then Deleted
      else if FileType(before.value.mode) != FileType(after.value.mode) then TypeChanged
      else Modified;
    DiffEntry(p, status, before, after)
  }

  ghost predicate Lists(entries: seq<DiffEntry>, p: Text) {
    exists i :: 0 <= i < |entries| && entries[i].path == p
  }

  /** One entry for every changed path, and none for the others. */
  ghost predicate IsDifference(entries: seq<DiffEntry>, a: Tree, b: Tree) {
    && (forall i :: 0 <= i < |entries| ==>
          entries[i].path in ChangedPaths(a, b) && entries[i] == EntryOf(a, b, entries[i].path))
    && (forall i, j :: 0 <= i < j < |entries| ==> entries[i].path != entries[j].path)
    && (forall p :: p in ChangedPaths(a, b) ==> Lists(entries, p))
  }

  method DeriveDiff(repo: Repo, a: string, b: string, maxFiles: int) returns (r: Diff)
    ensures r == Unverifiable <==> maxFiles < 0 || !Readable(repo, a) || !Readable(repo, b)
    ensures r == TooLarge ==> |ChangedPaths(repo.trees[a], repo.trees[b])| > maxFiles
    ensures r.Entries? ==> IsDifference(r.entries, repo.trees[a], repo.trees[b])
    ensures r.Entries? ==> |r.entries| == |ChangedPaths(repo.trees[a], repo.trees[b])| <= maxFiles
  {
    if maxFiles < 0 || !Readable(repo, a) || !Readable(repo, b) {
      return Unverifiable;
    }
    var from, to := repo.trees[a], repo.trees[b];
    var left := ChangedPaths(from, to);
    var entries: seq<DiffEntry> := [];
    while left != {}
      invariant left <= ChangedPaths(from, to)
      invariant |entries| + |left| == |ChangedPaths(from, to)|
      invariant forall i :: 0 <= i < |entries| ==>
        (entries[i].path in ChangedPaths(from, to) - left && entries[i] == EntryOf(from, to, entries[i].path))
      invariant forall i, j :: 0 <= i < j < |entries| ==> entries[i].path != entries[j].path
      invariant forall p :: p in ChangedPaths(from, to) ==> p in left || Lists(entries, p)
      decreases |left|
    {
      var p :| p in left;
      ghost var before := entries;
      left := left - {p};
      entries := entries + [EntryOf(from, to, p)];
      assert entries[|before|].path == p;
      forall q | q in ChangedPaths(from, to) && Lists(before, q) ensures Lists(entries, q) {
        var i :| 0 <= i < |before| && before[i].path == q;
        assert entries[i].path == q;
      }
    }
    r := if |entries| > maxFiles then TooLarge else Entries(entries);
  }
}
