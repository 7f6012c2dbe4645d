/** RuntimeState::refresh: one pass over the tree, described path by path. */
module Indexer {
  import opened Wrappers
  import opened Indexing

  /** Everything the index holds about one path. */
  datatype Entry = Entry(fingerprint: Option<Fingerprint>, summary: Option<Summary>, rows: seq<Row>)

  function Get<K, V>(m: map<K, V>, k: K): (r: Option<V>) {
    if k in m then Some(m[k]) else None
  }

  function EntryAt(fingerprints: map<Path, Fingerprint>, files: map<Path, Summary>, rows: seq<Row>,
                   p: Path): (e: Entry) {
    Entry(Get(fingerprints, p), Get(files, p), RowsFor(rows, p))
  }

  // ------------------------------------------------------ what one pass does

  /** A candidate whose metadata is readable and differs from the recorded one, and which parses. */
  predicate Reindexed(c: Setting, tree: Tree, recorded: Option<Fingerprint>, p: Path) {
    && p in Candidates(c, tree)
    && tree[p].fingerprint.Some?
    && recorded != tree[p].fingerprint
    && ParseIn(c, tree, p).Some?
  }

  /** A recorded path that is no longer a candidate. */
  predicate Vanished(c: Setting, tree: Tree, recorded: Option<Fingerprint>, p: Path) {
    p !in Candidates(c, tree) && recorded.Some?
  }

  function EntryAfter(c: Setting, tree: Tree, e: Entry, p: Path): (r: Entry) {
    if Reindexed(c, tree, e.fingerprint, p) then
      var parsed := ParseIn(c, tree, p).value;
      Entry(tree[p].fingerprint, Some(parsed.summary), [RowOf(parsed)])
    else if Vanished(c, tree, e.fingerprint, p) then Entry(None, None, [])
    else e
  }

  /** An entry moves exactly if its file was indexed again or has vanished. */
  lemma EntryMoves(c: Setting, tree: Tree, e: Entry, p: Path)
    ensures EntryAfter(c, tree, e, p) != e <==>
            Reindexed(c, tree, e.fingerprint, p) || Vanished(c, tree, e.fingerprint, p)
  {
  }

  ghost predicate Changes(c: Setting, tree: Tree, fingerprints: map<Path, Fingerprint>) {
    exists p :: Reindexed(c, tree, Get(fingerprints, p), p) || Vanished(c, tree, Get(fingerprints, p), p)
  }

  datatype Snapshot = Snapshot(schemaVersion: nat, version: nat, filesIndexed: nat, symbolsTotal: nat,
                               files: seq<Summary>)

  function SymbolsTotal(files: seq<Summary>): (n: nat) {
    if files == [] then 0 else |files[0].symbols| + SymbolsTotal(files[1..])
  }

  /** symbols_total is the sum over the files: one more file adds its own. */
  lemma {:induction false} OneMoreFile(files: seq<Summary>, f: Summary)
    ensures SymbolsTotal(files + [f]) == SymbolsTotal(files) + |f.symbols| && SymbolsTotal([]) == 0
  {
    if files == [] {
      assert files + [f] == [f];
    } else {
      OneMoreFile(files[1..], f);
      assert (files + [f])[1..] == files[1..] + [f];
    }
  }

  /** The snapshot with this version that lists exactly the given files, sorted by path. */
  ghost predicate SnapshotOf(s: Snapshot, version: nat, files: map<Path, Summary>) {
    && s == Snapshot(SNAPSHOT_SCHEMA_VERSION, version, |s.files|, SymbolsTotal(s.files), s.files)
    && Lists(s.files, files)
  }

  // ------------------------------------------------------------ the objects

  class IndexingService {
    var version: nat
    var snapshot: Snapshot

    constructor ()
      ensures version == 0 && SnapshotOf(snapshot, 0, map[])
    {
      version, snapshot := 0, Snapshot(SNAPSHOT_SCHEMA_VERSION, 0, 0, 0, []);
    }

    /** Publish the files under the next version. */
    method Publish(files: map<Path, Summary>)
      requires forall p :: p in files ==> files[p].path == p
      modifies this
      ensures version == old(version) + 1 && SnapshotOf(snapshot, version, files)
      ensures snapshot.schemaVersion == 1 && snapshot.version == version && snapshot.filesIndexed == |snapshot.files|
    {
      version := version + 1;
      var listing := ListSorted(files);
      snapshot := Snapshot(SNAPSHOT_SCHEMA_VERSION, version, |listing|, SymbolsTotal(listing), listing);
    }
  }

  class RuntimeState {
    var fingerprints: map<Path, Fingerprint>
    var files: map<Path, Summary>
    var rows: seq<Row>

    ghost predicate Valid()
      reads this
    {
      forall p :: p in files ==> files[p].path == p
    }

    ghost function At(p: Path): (e: Entry)
      reads this
    {
      EntryAt(fingerprints, files, rows, p)
    }

    /** A new process starts with empty maps, but with whatever rows the database already holds. */
    constructor (rows: seq<Row>)
      ensures Valid() && fingerprints == map[] && files == map[] && forall p ::
          At(p) == Entry(None, None, RowsFor(rows, p))
    {
      fingerprints, files, this.rows := map[], map[], rows;
    }

    /** One pass: every path moves as EntryAfter says, and the version rises by one exactly when
        something was indexed again or removed, or when nothing was published before. */
    method Refresh(inner: IndexingService, c: Setting, tree: Tree)
      requires Valid()
      modifies this, inner
      ensures Valid()
      ensures forall p :: At(p) == EntryAfter(c, tree, old(At(p)), p)
      ensures var publish := Changes(c, tree, old(fingerprints)) || old(inner.version) == 0;
              && (publish ==>
                    inner.version == old(inner.version) + 1 && SnapshotOf(inner.snapshot, inner.version, files))
              && (!publish ==> inner.version == old(inner.version) && inner.snapshot == old(inner.snapshot))
      ensures inner.version == old(inner.version)
                + (if old(inner.version) == 0 || exists p :: At(p) != old(At(p)) then 1 else 0)
    {
      ghost var first := fingerprints;
      var reindexed := IndexCandidates(c, tree);
      ghost var second := fingerprints;
      var purged := PurgeVanished(c, tree);
      assert reindexed || purged <==> Changes(c, tree, first) by {
        SamePurge(c, tree, first, second);
      }
      if reindexed || purged || inner.version == 0 {
        inner.Publish(files);
      }
      forall p
        ensures At(p) != old(At(p)) <==> Reindexed(c, tree, Get(first, p), p) || Vanished(c, tree, Get(first, p), p)
      {
        EntryMoves(c, tree, old(At(p)), p);
      }
    }

    /** for rel_path in candidates, in any order */
    method IndexCandidates(c: Setting, tree: Tree) returns (changed: bool)
      requires Valid()
      modifies this
      ensures Valid()
      ensures changed <==> exists p :: Reindexed(c, tree, Get(old(fingerprints), p), p)
      ensures forall p :: At(p) ==
                if Reindexed(c, tree, old(At(p)).fingerprint, p) then EntryAfter(c, tree, old(At(p)), p) else old(At(p))
      ensures forall p :: p !in Candidates(c, tree) ==> Get(fingerprints, p) == Get(old(fingerprints), p)
    {
      var left := Candidates(c, tree);
      changed := false;
      while left != {}
        invariant left <= Candidates(c, tree) && Valid()
        invariant changed <==> exists p :: p !in left && Reindexed(c, tree, Get(old(fingerprints), p), p)
        invariant forall p :: At(p) ==
                    if p !in left && Reindexed(c, tree, old(At(p)).fingerprint, p)
                    then EntryAfter(c, tree, old(At(p)), p) else old(At(p))
      {
        var p :| p in left;
        assert At(p) == old(At(p));
        var again := IndexOne(c, tree, p);
        changed := changed || again;
        left := left - {p};
      }
    }

    method IndexOne(c: Setting, tree: Tree, p: Path) returns (again: bool)
      requires Valid() && p in Candidates(c, tree)
      modifies this
      ensures Valid()
      ensures again <==> Reindexed(c, tree, Get(old(fingerprints), p), p)
      ensures forall q :: At(q) == if q == p then EntryAfter(c, tree, old(At(q)), q) else old(At(q))
    {
      if tree[p].fingerprint.None? { return false; }
      var fingerprint := tree[p].fingerprint.value;
      if p in fingerprints && fingerprints[p] == fingerprint { return false; }
      match Parse(c, p, tree[p].raw) {
        case Some(parsed) =>
          RowsAfterUpsert(rows, RowOf(parsed));
          fingerprints := fingerprints[p := fingerprint];
          files := files[p := parsed.summary];
          rows := UpsertRow(rows, RowOf(parsed));
          return true;
        case None =>
          return false;
      }
    }

    /** for old_path in existing_paths: whatever was not seen is removed everywhere. */
    method PurgeVanished(c: Setting, tree: Tree) returns (changed: bool)
      requires Valid()
      modifies this
      ensures Valid()
      ensures changed <==> exists p :: Vanished(c, tree, Get(old(fingerprints), p), p)
      ensures forall p :: At(p) ==
                if Vanished(c, tree, old(At(p)).fingerprint, p) then Entry(None, None, []) else old(At(p))
    {
      var seen := Candidates(c, tree);
      var existing := fingerprints.Keys;
      changed := false;
      while existing != {}
        invariant existing <= old(fingerprints).Keys && Valid()
        invariant changed <==> exists p :: p !in existing && Vanished(c, tree, Get(old(fingerprints), p), p)
        invariant forall p :: At(p) ==
                    if p !in existing && Vanished(c, tree, old(At(p)).fingerprint, p) then Entry(None, None, [])
                    else old(At(p))
      {
        var p :| p in existing;
        existing := existing - {p};
        if p in seen { continue; }
        RemoveEntry(p);
        changed := true;
      }
    }

    method RemoveEntry(p: Path)
      requires Valid()
      modifies this
      ensures Valid()
      ensures forall q :: At(q) == if q == p then Entry(None, None, []) else old(At(q))
    {
      RowsAfterDelete(rows, p);
      fingerprints := fingerprints - {p};
      files := files - {p};
      rows := DeleteRows(rows, p);
    }
  }

  lemma RowsAfterUpsert(rows: seq<Row>, row: Row)
    ensures forall q :: RowsFor(UpsertRow(rows, row), q) == if row.path == q then [row] else RowsFor(rows, q)
  {
    forall q ensures RowsFor(UpsertRow(rows, row), q) == if row.path == q then [row] else RowsFor(rows, q) {
      UpsertedRows(rows, row, q);
    }
  }

  lemma RowsAfterDelete(rows: seq<Row>, p: Path)
    ensures forall q :: RowsFor(DeleteRows(rows, p), q) == if q == p then [] else RowsFor(rows, q)
  {
    forall q ensures RowsFor(DeleteRows(rows, p), q) == if q == p then [] else RowsFor(rows, q) {
      DeletedRows(rows, p, q);
    }
  }

  lemma SamePurge(c: Setting, tree: Tree, first: map<Path, Fingerprint>, second: map<Path, Fingerprint>)
    requires forall p :: p !in Candidates(c, tree) ==> Get(second, p) == Get(first, p)
    ensures forall p :: Vanished(c, tree, Get(second, p), p) <==> Vanished(c, tree, Get(first, p), p)
  {
  }

  /** list(self.files.values()), sorted by path. */
  method ListSorted(files: map<Path, Summary>) returns (listing: seq<Summary>)
    requires forall p :: p in files ==> files[p].path == p
    ensures Lists(listing, files)
  {
    listing := [];
    var left := files.Keys;
    assert files - left == map[];
    while left != {}
      invariant left <= files.Keys
      invariant Lists(listing, files - left)
    {
      var p :| p in left;
      listing := InsertSorted(listing, files[p], files - left);
      assert files - (left - {p}) == (files - left)[p := files[p]];
      left := left - {p};
    }
    assert files - left == files;
  }

  method InsertSorted(listing: seq<Summary>, entry: Summary, ghost files: map<Path, Summary>) returns (r: seq<Summary>)
    requires Lists(listing, files) && entry.path !in files
    ensures Lists(r, files[entry.path := entry])
  {
    var i := 0;
    while i < |listing| && PathLess(listing[i].path, entry.path)
      invariant 0 <= i <= |listing|
      invariant forall k :: 0 <= k < i ==> PathLess(listing[k].path, entry.path)
    {
      i := i + 1;
    }
    r := listing[..i] + [entry] + listing[i..];
    InsertedIsSorted(listing, entry, i);
    InsertedLists(listing, entry, i, files);
  }

  lemma InsertedLists(listing: seq<Summary>, entry: Summary, i: nat, files: map<Path, Summary>)
    requires Lists(listing, files) && entry.path !in files && i <= |listing|
    requires Sorted(listing[..i] + [entry] + listing[i..])
    ensures Lists(listing[..i] + [entry] + listing[i..], files[entry.path := entry])
  {
    var r := listing[..i] + [entry] + listing[i..];
    var more := files[entry.path := entry];
    forall k | 0 <= k < |r| ensures r[k].path in more && more[r[k].path] == r[k] {
      if k < i { assert r[k] == listing[k]; }
      if k > i { assert r[k] == listing[k - 1]; }
    }
    forall p | p in more ensures more[p] in r {
      if p == entry.path {
        assert r[i] == entry;
      } else {
        var k :| 0 <= k < |listing| && listing[k] == files[p];
        assert r[if k < i then k else k + 1] == listing[k];
      }
    }
  }

  lemma InsertedIsSorted(listing: seq<Summary>, entry: Summary, i: nat)
    requires Sorted(listing) && i <= |listing|
    requires forall k :: 0 <= k < |listing| ==> listing[k].path != entry.path
    requires forall k :: 0 <= k < i ==> PathLess(listing[k].path, entry.path)
    requires i < |listing| ==> !PathLess(listing[i].path, entry.path)
    ensures Sorted(listing[..i] + [entry] + listing[i..])
  {
    var r := listing[..i] + [entry] + listing[i..];
    forall k | i <= k < |listing| ensures PathLess(entry.path, listing[k].path) {
      PathLessTotal(entry.path, listing[i].path);
      if i < k { PathLessTransitive(entry.path, listing[i].path, listing[k].path); }
    }
    forall j, k | 0 <= j < k < |r| ensures PathLess(r[j].path, r[k].path) {
      assert j < i ==> r[j] == listing[j];
      assert j > i ==> r[j] == listing[j - 1];
      assert k < i ==> r[k] == listing[k];
      assert k > i ==> r[k] == listing[k - 1];
    }
  }
}
