/** Incremental equals rebuild: after any history of edits, creations, deletions and passes, the
    index is the one that parsing every candidate anew on every pass would have left. */
module IndexerTheorems {
  import opened Wrappers
  import opened Indexing
  import opened Indexer

  /** The entry of p after a pass over each of the trees, in turn. */
  function EntryAfterAll(c: Setting, trees: seq<Tree>, e: Entry, p: Path): (r: Entry) {
    if trees == [] then e
    else EntryAfter(c, trees[|trees| - 1], EntryAfterAll(c, trees[..|trees| - 1], e, p), p)
  }

  predicate Readable(c: Setting, tree: Tree, p: Path) {
    p in Candidates(c, tree) && tree[p].fingerprint.Some? && ParseIn(c, tree, p).Some?
  }

  /** The simple index: every pass forgets what is no candidate, parses every candidate again, and
      keeps what it has for a candidate that cannot be read or parsed. It looks at no fingerprint. */
  function Rebuilt(c: Setting, trees: seq<Tree>, p: Path): (r: Option<Parsed>) {
    if trees == [] then None
    else
      var tree := trees[|trees| - 1];
      if p !in Candidates(c, tree) then None
      else if Readable(c, tree, p) then ParseIn(c, tree, p)
      else Rebuilt(c, trees[..|trees| - 1], p)
  }

  /** Did the simple index ever hold the path? */
  predicate EverIndexed(c: Setting, trees: seq<Tree>, p: Path) {
    trees != [] && (Rebuilt(c, trees, p).Some? || EverIndexed(c, trees[..|trees| - 1], p))
  }

  /** Equal fingerprints of a path mean equal contents, at any two passes. */
  ghost predicate Faithful(c: Setting, trees: seq<Tree>, p: Path) {
    forall i, j :: 0 <= i < j < |trees| && p in Candidates(c, trees[i]) && p in Candidates(c, trees[j])
                   && trees[i][p].fingerprint.Some? && trees[i][p].fingerprint == trees[j][p].fingerprint
                   ==> trees[i][p].raw == trees[j][p].raw
  }

  /** What the index should hold about p: one agreeing row for an indexed path, no row for a path
      once indexed, and whatever an earlier process left for a path never indexed by this one. */
  function Expected(c: Setting, trees: seq<Tree>, p: Path, left: seq<Row>): (r: (Option<Summary>, seq<Row>)) {
    match Rebuilt(c, trees, p)
    case Some(parsed) => (Some(parsed.summary), [RowOf(parsed)])
    case None => (None, if EverIndexed(c, trees, p) then [] else left)
  }

  /** The recorded fingerprint is that of a pass whose parse is the one the simple index holds. */
  ghost predicate RecordedAt(c: Setting, trees: seq<Tree>, p: Path, fingerprint: Option<Fingerprint>, k: nat) {
    && k < |trees| && p in Candidates(c, trees[k])
    && fingerprint.Some? && trees[k][p].fingerprint == fingerprint
    && ParseIn(c, trees[k], p) == Rebuilt(c, trees, p)
  }

  lemma {:induction false} IncrementalIsRebuild(c: Setting, trees: seq<Tree>, left: seq<Row>, p: Path)
    requires Faithful(c, trees, p)
    ensures var e := EntryAfterAll(c, trees, Entry(None, None, left), p);
            && (e.summary, e.rows) == Expected(c, trees, p, left)
            && (e.fingerprint.Some? <==> e.summary.Some?)
            && (e.fingerprint.Some? ==> exists k :: RecordedAt(c, trees, p, e.fingerprint, k))
  {
    if trees != [] {
      var n := |trees| - 1;
      var front, tree := trees[..n], trees[n];
      assert forall i :: 0 <= i < n ==> front[i] == trees[i];
      IncrementalIsRebuild(c, front, left, p);
      var before := EntryAfterAll(c, front, Entry(None, None, left), p);
      var e := EntryAfterAll(c, trees, Entry(None, None, left), p);
      assert before.fingerprint.Some? ==> Rebuilt(c, front, p).Some? && EverIndexed(c, front, p);
      if Readable(c, tree, p) {
        if Reindexed(c, tree, before.fingerprint, p) {
          assert RecordedAt(c, trees, p, e.fingerprint, n);
        } else {
          var k: nat :| RecordedAt(c, front, p, before.fingerprint, k);
          assert trees[k][p].raw == trees[n][p].raw;
          assert RecordedAt(c, trees, p, e.fingerprint, n);
        }
      } else if p in Candidates(c, tree) && before.fingerprint.Some? {
        var k: nat :| RecordedAt(c, front, p, before.fingerprint, k);
        assert RecordedAt(c, trees, p, e.fingerprint, k);
      }
    }
  }

  ghost predicate AllReadable(c: Setting, tree: Tree) {
    forall q :: q in Candidates(c, tree) ==> Readable(c, tree, q)
  }

  /** When every current candidate can be read and parsed, the index is the parse of the current
      candidates, whatever happened before. */
  lemma CurrentFilesOnly(c: Setting, trees: seq<Tree>, p: Path)
    requires trees != []
    requires AllReadable(c, trees[|trees| - 1])
    ensures var tree := trees[|trees| - 1];
            Rebuilt(c, trees, p) == if p in Candidates(c, tree) then ParseIn(c, tree, p) else None
  {
  }

  /** The index of a path that held one parse follows a pass to another exactly if the fingerprint
      changed, or nothing it stores about the file did: this is all that faithfulness is needed for. */
  lemma FollowsExactly(c: Setting, tree: Tree, e: Entry, held: Parsed, p: Path)
    requires e.fingerprint.Some? && e.summary == Some(held.summary) && e.rows == [RowOf(held)]
    requires Readable(c, tree, p)
    ensures var now := ParseIn(c, tree, p).value;
            var r := EntryAfter(c, tree, e, p);
            r.summary == Some(now.summary) && r.rows == [RowOf(now)]
            <==> e.fingerprint != tree[p].fingerprint || (held.summary == now.summary && RowOf(held) == RowOf(now))
  {
    var now := ParseIn(c, tree, p).value;
    assert [RowOf(held)] == [RowOf(now)] <==> [RowOf(held)][0] == [RowOf(now)][0];
  }

  /** A second pass over an unchanged tree touches nothing and publishes nothing. */
  lemma SecondPassIsIdle(c: Setting, tree: Tree, e: Entry, p: Path)
    ensures var r := EntryAfter(c, tree, e, p);
            && EntryAfter(c, tree, r, p) == r
            && !Reindexed(c, tree, r.fingerprint, p) && !Vanished(c, tree, r.fingerprint, p)
  {
  }

  /** The indexer thread: a fresh process on a database with old rows, then one pass per tree. */
  method RunPasses(c: Setting, trees: seq<Tree>, left: seq<Row>) returns (runtime: RuntimeState, inner: IndexingService)
    ensures fresh(runtime) && fresh(inner) && runtime.Valid()
    ensures forall p :: runtime.At(p) == EntryAfterAll(c, trees, Entry(None, None, RowsFor(left, p)), p)
    ensures SnapshotOf(inner.snapshot, inner.version, runtime.files)
    ensures trees != [] ==> inner.version >= 1
    ensures forall p :: Faithful(c, trees, p) ==>
              && (Get(runtime.files, p), RowsFor(runtime.rows, p)) == Expected(c, trees, p, RowsFor(left, p))
              && (p in runtime.fingerprints <==> p in runtime.files)
    ensures trees != [] && AllReadable(c, trees[|trees| - 1]) && (forall p :: Faithful(c, trees, p)) ==>
              && runtime.files == CurrentFiles(c, trees[|trees| - 1])
              && runtime.fingerprints.Keys == Candidates(c, trees[|trees| - 1])
              && forall p :: p in Candidates(c, trees[|trees| - 1]) ==>
                   RowsFor(runtime.rows, p) == [RowOf(ParseIn(c, trees[|trees| - 1], p).value)]
    ensures trees != [] && AllReadable(c, trees[|trees| - 1]) && (forall p :: Faithful(c, trees, p)) ==>
              forall p :: Holds(c, trees[|trees| - 1], p, Get(runtime.files, p), RowsFor(runtime.rows, p),
                                RowsFor(left, p))
  {
    runtime := new RuntimeState(left);
    inner := new IndexingService();
    for i := 0 to |trees|
      invariant runtime.Valid()
      invariant forall p :: runtime.At(p) == EntryAfterAll(c, trees[..i], Entry(None, None, RowsFor(left, p)), p)
      invariant SnapshotOf(inner.snapshot, inner.version, runtime.files)
      invariant i > 0 ==> inner.version >= 1
    {
      OnePass(runtime, inner, c, trees[i]);
      assert trees[..i + 1][..i] == trees[..i];
    }
    assert trees[..|trees|] == trees;
    forall p | Faithful(c, trees, p)
      ensures (Get(runtime.files, p), RowsFor(runtime.rows, p)) == Expected(c, trees, p, RowsFor(left, p))
      ensures p in runtime.fingerprints <==> p in runtime.files
    {
      IncrementalIsRebuild(c, trees, RowsFor(left, p), p);
      assert runtime.At(p) == EntryAfterAll(c, trees, Entry(None, None, RowsFor(left, p)), p);
    }
    if trees != [] && AllReadable(c, trees[|trees| - 1]) && forall p :: Faithful(c, trees, p) {
      FilesAreCurrent(c, trees, left, runtime);
      forall p
        ensures Holds(c, trees[|trees| - 1], p, Get(runtime.files, p), RowsFor(runtime.rows, p), RowsFor(left, p))
      {
        CurrentIsWanted(c, trees[|trees| - 1], p, RowsFor(left, p));
        if p !in Candidates(c, trees[|trees| - 1]) { OthersKeepNoRows(c, trees, p, RowsFor(left, p)); }
      }
    }
  }

  predicate Ends(p: Path, suffix: string)
    requires |suffix| == 3
  {
    |p| >= 3 && p[|p| - 3] == suffix[0] && p[|p| - 2] == suffix[1] && p[|p| - 1] == suffix[2]
  }

  /** The files that belong in the index: allowed, not excluded, Rust or Python, and of 768 KiB at most. */
  predicate Wanted(c: Setting, tree: Tree, p: Path) {
    && p in tree && c.allowRead(p) && !c.excluded(p) && (Ends(p, ".rs") || Ends(p, ".py"))
    && tree[p].walkedSize.Some? && tree[p].walkedSize.value <= 786432
  }

  /** A wanted file has its summary and its one row, made of what it contains now. Any other path has no summary,
      and no rows but those that an earlier process left for it. */
  predicate Holds(c: Setting, tree: Tree, p: Path, summary: Option<Summary>, rows: seq<Row>, left: seq<Row>) {
    if !Wanted(c, tree, p) then summary == None && (rows == [] || rows == left)
    else
      && tree[p].raw.Some?
      && var source := c.decode(tree[p].raw.value);
         var symbols := c.extract(source, if Ends(p, ".rs") then Rust else Python);
         var language := if Ends(p, ".rs") then "rust" else "python";
         && symbols.Some? && summary == Some(Summary(p, language, |tree[p].raw.value|, symbols.value))
         && rows == [Row(p, language, SymbolBlob(symbols.value),
                         JoinNames(symbols.value) + (if |source| <= 60000 then source else source[..60000]))]
  }

  lemma CandidatesAreWanted(c: Setting, tree: Tree, p: Path)
    ensures p in Candidates(c, tree) <==> Wanted(c, tree, p)
  {
    EndsWithIs(p, ".rs");
    EndsWithIs(p, ".py");
  }

  lemma EndsWithIs(p: Path, suffix: string)
    requires |suffix| == 3
    ensures EndsWith(p, suffix) <==> Ends(p, suffix)
  {
  }

  lemma OthersKeepNoRows(c: Setting, trees: seq<Tree>, p: Path, left: seq<Row>)
    requires trees != [] && p !in Candidates(c, trees[|trees| - 1])
    ensures Expected(c, trees, p, left).1 in {[], left}
  {
  }

  lemma CurrentIsWanted(c: Setting, tree: Tree, p: Path, left: seq<Row>)
    requires AllReadable(c, tree)
    ensures Wanted(c, tree, p) <==> p in Candidates(c, tree)
    ensures p in Candidates(c, tree) ==>
              Holds(c, tree, p, Get(CurrentFiles(c, tree), p), [RowOf(ParseIn(c, tree, p).value)], left)
    ensures p !in Candidates(c, tree) ==> Get(CurrentFiles(c, tree), p) == None
  {
    CandidatesAreWanted(c, tree, p);
    EndsWithIs(p, ".rs");
    EndsWithIs(p, ".py");
    if p in Candidates(c, tree) { assert Readable(c, tree, p); }
  }

  /** The parse of everything that is a candidate now. */
  function CurrentFiles(c: Setting, tree: Tree): (m: map<Path, Summary>) {
    map p | p in Candidates(c, tree) && ParseIn(c, tree, p).Some? :: ParseIn(c, tree, p).value.summary
  }

  /** With faithful fingerprints and readable files the whole runtime is that parse: nothing of the history
      is left in it but rows of paths that were never indexed. */
  lemma FilesAreCurrent(c: Setting, trees: seq<Tree>, left: seq<Row>, runtime: RuntimeState)
    requires trees != [] && AllReadable(c, trees[|trees| - 1])
    requires forall p :: (Get(runtime.files, p), RowsFor(runtime.rows, p)) == Expected(c, trees, p, RowsFor(left, p))
    requires forall p :: p in runtime.fingerprints <==> p in runtime.files
    ensures var tree := trees[|trees| - 1];
            && runtime.files == CurrentFiles(c, tree) && runtime.fingerprints.Keys == Candidates(c, tree)
            && forall p :: p in Candidates(c, tree) ==> RowsFor(runtime.rows, p) == [RowOf(ParseIn(c, tree, p).value)]
  {
    var tree := trees[|trees| - 1];
    forall p
      ensures Get(runtime.files, p) == Get(CurrentFiles(c, tree), p)
      ensures p in runtime.fingerprints <==> p in Candidates(c, tree)
      ensures p in Candidates(c, tree) ==> RowsFor(runtime.rows, p) == [RowOf(ParseIn(c, tree, p).value)]
    {
      CurrentFilesOnly(c, trees, p);
      assert (Get(runtime.files, p), RowsFor(runtime.rows, p)) == Expected(c, trees, p, RowsFor(left, p));
      if p in Candidates(c, tree) { assert Readable(c, tree, p); }
    }
    SameMap(runtime.files, CurrentFiles(c, tree));
  }

  /** A pass keeps the snapshot in step with the files: it republishes whenever they may differ. */
  method OnePass(runtime: RuntimeState, inner: IndexingService, c: Setting, tree: Tree)
    requires runtime.Valid() && SnapshotOf(inner.snapshot, inner.version, runtime.files)
    modifies runtime, inner
    ensures runtime.Valid() && SnapshotOf(inner.snapshot, inner.version, runtime.files) && inner.version >= 1
    ensures forall p :: runtime.At(p) == EntryAfter(c, tree, old(runtime.At(p)), p)
  {
    runtime.Refresh(inner, c, tree);
    if !Changes(c, tree, old(runtime.fingerprints)) {
      forall p ensures Get(runtime.files, p) == Get(old(runtime.files), p) {
        assert runtime.At(p) == EntryAfter(c, tree, old(runtime.At(p)), p) == old(runtime.At(p));
      }
      SameMap(runtime.files, old(runtime.files));
    }
  }

  lemma SameMap(a: map<Path, Summary>, b: map<Path, Summary>)
    requires forall p :: Get(a, p) == Get(b, p)
    ensures a == b
  {
    forall p ensures p in a <==> p in b {
      assert Get(a, p) == Get(b, p);
    }
    forall p | p in a ensures a[p] == b[p] {
      assert Get(a, p) == Get(b, p);
    }
  }
}
