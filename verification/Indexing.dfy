/** The incremental source index: one pass over the file tree updates fingerprints, summaries, the
    row table and the published snapshot, touching only what the fingerprints say has changed. */
module Indexing {
  import opened Wrappers

  type Path = string

  const MAX_INDEX_FILE_BYTES: nat := 768 * 1024
  const MAX_SEMANTIC_BODY_CHARS: nat := 60_000
  const SNAPSHOT_SCHEMA_VERSION: nat := 1

  datatype Fingerprint = Fingerprint(bytes: nat, modifiedNs: nat)

  datatype LanguageKind = Rust | Python {
    function Label(): (s: string) {
      match this
      case Rust => "rust"
      case Python => "python"
    }
  }

  datatype Symbol = Symbol(kind: string, name: string, startLine: nat, endLine: nat)

  datatype Summary = Summary(path: Path, language: string, bytes: nat, symbols: seq<Symbol>)

  datatype Parsed = Parsed(summary: Summary, semanticBody: string)

  datatype Row = Row(path: Path, language: string, symbols: string, body: string)

  /** What one pass can see of a file: its size while walking, its metadata and its bytes. */
  datatype FileView = FileView(walkedSize: Option<nat>, fingerprint: Option<Fingerprint>, raw: Option<seq<bv8>>)

  type Tree = map<Path, FileView>

  /** What is fixed for a process: the globs, lossy decoding, and the grammars. */
  datatype Setting = Setting(
    allowRead: Path -> bool,
    excluded: Path -> bool,
    decode: seq<bv8> -> string,
    extract: (string, LanguageKind) -> Option<seq<Symbol>>)

  function EndsWith(s: string, suffix: string): (b: bool) {
    |suffix| <= |s| && s[|s| - |suffix|..] == suffix
  }

  function LanguageOf(p: Path): (r: Option<LanguageKind>) {
    if EndsWith(p, ".rs") then Some(Rust)
    else if EndsWith(p, ".py") then Some(Python)
    else None
  }

  /** collect_candidate_files */
  function Candidates(c: Setting, tree: Tree): (r: set<Path>) {
    set p | p in tree && !c.excluded(p) && c.allowRead(p) && LanguageOf(p).Some?
            && tree[p].walkedSize.Some? && tree[p].walkedSize.value <= MAX_INDEX_FILE_BYTES
  }

  function JoinNames(symbols: seq<Symbol>): (s: string) {
    if symbols == [] then "" else symbols[0].name + "\n" + JoinNames(symbols[1..])
  }

  function Truncated(s: string, n: nat): (r: string) {
    if |s| <= n then s else s[..n]
  }

  /** parse_indexed_file: fails for an unknown extension, an unreadable file or a grammar error. */
  function Parse(c: Setting, p: Path, raw: Option<seq<bv8>>): (r: Option<Parsed>) {
    if LanguageOf(p).None? || raw.None? then None
    else
      var kind := LanguageOf(p).value;
      var source := c.decode(raw.value);
      match c.extract(source, kind)
      case None => None
      case Some(symbols) =>
        Some(Parsed(Summary(p, kind.Label(), |raw.value|, symbols),
                    JoinNames(symbols) + Truncated(source, MAX_SEMANTIC_BODY_CHARS)))
  }

  function ParseIn(c: Setting, tree: Tree, p: Path): (r: Option<Parsed>) {
    if p in tree then Parse(c, p, tree[p].raw) else None
  }

  function SymbolBlob(symbols: seq<Symbol>): (s: string) {
    if symbols == [] then ""
    else if |symbols| == 1 then symbols[0].kind + " " + symbols[0].name
    else symbols[0].kind + " " + symbols[0].name + "\n" + SymbolBlob(symbols[1..])
  }

  /** The symbols column: one line a symbol, without a newline after the last. */
  lemma {:induction false} OneMoreSymbol(symbols: seq<Symbol>, s: Symbol)
    ensures SymbolBlob(symbols + [s]) ==
              (if symbols == [] then "" else SymbolBlob(symbols) + "\n") + (s.kind + " " + s.name)
    ensures JoinNames(symbols + [s]) == JoinNames(symbols) + s.name + "\n"
    ensures SymbolBlob([]) == JoinNames([]) == ""
  {
    if symbols == [] {
      assert symbols + [s] == [s];
    } else {
      OneMoreSymbol(symbols[1..], s);
      assert (symbols + [s])[1..] == symbols[1..] + [s];
    }
  }

  function RowOf(parsed: Parsed): (r: Row) {
    Row(parsed.summary.path, parsed.summary.language, SymbolBlob(parsed.summary.symbols), parsed.semanticBody)
  }

  // -------------------------------------------------------------- row table

  function RowsFor(rows: seq<Row>, p: Path): (r: seq<Row>) {
    if rows == [] then []
    else if rows[0].path == p then [rows[0]] + RowsFor(rows[1..], p)
    else RowsFor(rows[1..], p)
  }

  /** DELETE FROM code_fts WHERE path = ?1 */
  function DeleteRows(rows: seq<Row>, p: Path): (r: seq<Row>) {
    if rows == [] then []
    else if rows[0].path == p then DeleteRows(rows[1..], p)
    else [rows[0]] + DeleteRows(rows[1..], p)
  }

  /** DELETE, then INSERT */
  function UpsertRow(rows: seq<Row>, row: Row): (r: seq<Row>) {
    DeleteRows(rows, row.path) + [row]
  }

  lemma {:induction false} DeletedRows(rows: seq<Row>, p: Path, q: Path)
    ensures RowsFor(DeleteRows(rows, p), q) == if p == q then [] else RowsFor(rows, q)
  {
    if rows != [] {
      DeletedRows(rows[1..], p, q);
      if rows[0].path != p {
        var rest := DeleteRows(rows[1..], p);
        assert ([rows[0]] + rest)[1..] == rest;
      }
    }
  }

  lemma {:induction false} AppendedRow(rows: seq<Row>, row: Row, q: Path)
    ensures RowsFor(rows + [row], q) == if row.path == q then RowsFor(rows, q) + [row] else RowsFor(rows, q)
  {
    if rows == [] {
      assert rows + [row] == [row];
      assert [row][1..] == [];
    } else {
      assert (rows + [row])[1..] == rows[1..] + [row];
      AppendedRow(rows[1..], row, q);
    }
  }

  /** After an upsert its path has exactly the new row, and every other path has what it had. */
  lemma UpsertedRows(rows: seq<Row>, row: Row, q: Path)
    ensures RowsFor(UpsertRow(rows, row), q) == if row.path == q then [row] else RowsFor(rows, q)
  {
    DeletedRows(rows, row.path, q);
    AppendedRow(DeleteRows(rows, row.path), row, q);
  }

  // ------------------------------------------------------ the sorted listing

  /** str comparison: lexicographic by code point. */
  predicate PathLess(a: Path, b: Path) {
    if b == [] then false
    else if a == [] then true
    else if a[0] != b[0] then a[0] < b[0]
    else PathLess(a[1..], b[1..])
  }

  /** Up to position k the paths agree; there a ends or has the smaller character. */
  predicate LessAt(a: Path, b: Path, k: nat) {
    k <= |a| && k < |b| && a[..k] == b[..k] && (k == |a| || a[k] < b[k])
  }

  lemma {:induction false} PathLessExactly(a: Path, b: Path)
    ensures PathLess(a, b) <==> exists k :: LessAt(a, b, k)
    decreases |a|
  {
    if b != [] && a != [] && a[0] == b[0] {
      PathLessExactly(a[1..], b[1..]);
      if k: nat :| LessAt(a[1..], b[1..], k) {
        assert a[..k + 1] == [a[0]] + a[1..][..k] && b[..k + 1] == [b[0]] + b[1..][..k];
        assert LessAt(a, b, k + 1);
      }
      forall k: nat | LessAt(a, b, k) ensures k > 0 && LessAt(a[1..], b[1..], k - 1) {
        assert a[1..][..k - 1] == a[..k][1..] && b[1..][..k - 1] == b[..k][1..];
      }
    } else if b != [] && (a == [] || a[0] < b[0]) {
      assert LessAt(a, b, 0);
    } else {
      forall k: nat ensures !LessAt(a, b, k) {
        if k > 0 && k <= |a| && k < |b| { assert a[..k][0] == a[0] && b[..k][0] == b[0]; }
      }
    }
  }

  lemma {:induction false} PathLessTotal(a: Path, b: Path)
    ensures a == b || PathLess(a, b) || PathLess(b, a)
    ensures !(PathLess(a, b) && PathLess(b, a)) && !PathLess(a, a)
    decreases |a|
  {
    if a != [] {
      PathLessTotal(a[1..], a[1..]);
      if b != [] && a[0] == b[0] {
        PathLessTotal(a[1..], b[1..]);
        assert a == [a[0]] + a[1..] && b == [b[0]] + b[1..];
      }
    }
  }

  lemma {:induction false} PathLessTransitive(a: Path, b: Path, c: Path)
    requires PathLess(a, b) && PathLess(b, c)
    ensures PathLess(a, c)
    decreases |a|
  {
    if a != [] && a[0] == b[0] == c[0] {
      PathLessTransitive(a[1..], b[1..], c[1..]);
    }
  }

  ghost predicate Sorted(entries: seq<Summary>) {
    forall i, j :: 0 <= i < j < |entries| ==> PathLess(entries[i].path, entries[j].path)
  }

  /** The list holds the values of the map, each once, in the order of their paths. */
  ghost predicate Lists(entries: seq<Summary>, files: map<Path, Summary>) {
    && Sorted(entries)
    && (forall i :: 0 <= i < |entries| ==> entries[i].path in files && files[entries[i].path] == entries[i])
    && (forall p :: p in files ==> files[p] in entries)
  }

  lemma FirstIsLeast(a: seq<Summary>, files: map<Path, Summary>, p: Path)
    requires Lists(a, files) && a != [] && p in files && files[p].path == p
    ensures p == a[0].path || PathLess(a[0].path, p)
  {
    var k :| 0 <= k < |a| && a[k] == files[p];
  }

  lemma HeadsAgree(a: seq<Summary>, b: seq<Summary>, files: map<Path, Summary>)
    requires Lists(a, files) && Lists(b, files) && a != []
    requires forall p :: p in files ==> files[p].path == p
    ensures b != [] && a[0] == b[0]
  {
    var p := a[0].path;
    assert p in files && files[p] in b;
    assert b[0].path in files;
    FirstIsLeast(a, files, b[0].path);
    FirstIsLeast(b, files, p);
    PathLessTotal(p, b[0].path);
  }

  /** There is only one such list: the snapshot is determined by the map. */
  lemma {:induction false} ListingIsUnique(a: seq<Summary>, b: seq<Summary>, files: map<Path, Summary>)
    requires Lists(a, files) && Lists(b, files)
    requires forall p :: p in files ==> files[p].path == p
    ensures a == b
    decreases |a|
  {
    if a == [] {
      assert forall p :: p !in files;
    } else {
      HeadsAgree(a, b, files);
      TailLists(a, files);
      TailLists(b, files);
      ListingIsUnique(a[1..], b[1..], files - {a[0].path});
      assert a == [a[0]] + a[1..] && b == [b[0]] + b[1..];
    }
  }

  lemma TailLists(a: seq<Summary>, files: map<Path, Summary>)
    requires Lists(a, files) && a != []
    requires forall p :: p in files ==> files[p].path == p
    ensures Lists(a[1..], files - {a[0].path})
  {
    var tail, rest := a[1..], files - {a[0].path};
    PathLessTotal(a[0].path, a[0].path);
    forall i | 0 <= i < |tail| ensures tail[i].path in rest && rest[tail[i].path] == tail[i] {
      assert tail[i] == a[i + 1];
      assert PathLess(a[0].path, a[i + 1].path);
    }
    forall q | q in rest ensures rest[q] in tail {
      var i :| 0 <= i < |a| && a[i] == files[q];
      assert tail[i - 1] == a[i];
    }
  }
}
