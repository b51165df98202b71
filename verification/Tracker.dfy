/** The version store of internal/tracker/sqlite_tracker.go: tables of versions,
    snapshot rows and cached diffs, the HEAD file, and the pending-commit protocol. */
module Tracker {
  import opened Text
  import opened TextDiff
  import opened Headers

  // -------------------------------------------------------------------------
  // Data.
  // -------------------------------------------------------------------------

  datatype File = File(body: string, headers: Header)
  datatype Snapshot = Snapshot(url: string, file: File)
  datatype Version = Version(id: string, parent: Option<string>)
  datatype Row = Row(version: string, path: string, file: File)
  datatype FileDiff = FileDiff(body: seq<DiffChunk>, headers: HeaderDiff)
  type VersionDiff = map<string, FileDiff>
  datatype CachedDiff = CachedDiff(base: Option<string>, head: string, diff: VersionDiff)
  datatype Store = Store(versions: seq<Version>, rows: seq<Row>, diffs: seq<CachedDiff>, head: Option<string>)

  /** Library calls: the path of a URL (None if it does not parse), the text diff,
      and the header functions with the visit order of their maps fixed. */
  datatype Env = Env(pathOf: string -> Option<string>,
                     normalize: Header -> Header,
                     editScript: (string, string) -> seq<Edit>,
                     headerDiff: (Header, Header) -> HeaderDiff)

  const EMPTY_STORE := Store([], [], [], None)

  ghost function Ids(versions: seq<Version>): set<string> {
    set v | v in versions :: v.id
  }

  // -------------------------------------------------------------------------
  // Diffs of versions.
  // -------------------------------------------------------------------------

  function RowsOf(rows: seq<Row>, version: Option<string>): seq<Row> {
    if rows == [] then []
    else (if version == Some(rows[0].version) then [rows[0]] else []) + RowsOf(rows[1..], version)
  }

  /** The files of a version, keyed by path: a later row replaces an earlier one. */
  function FilesOf(rows: seq<Row>): map<string, File> {
    if rows == [] then map[]
    else
      var last := rows[|rows| - 1];
      FilesOf(rows[..|rows| - 1])[last.path := last.file]
  }

  function DiffFiles(env: Env, base: map<string, File>, head: map<string, File>): VersionDiff {
    map path | path in head ::
      var prior := if path in base then base[path] else File("", map[]);
      FileDiff(Chunks(env.editScript(prior.body, head[path].body), 0, 0),
               env.headerDiff(prior.headers, head[path].headers))
  }

  /** The diff of two versions, reading the rows in table order. */
  function ComputeDiff(env: Env, rows: seq<Row>, base: Option<string>, head: string): VersionDiff {
    DiffFiles(env, FilesOf(RowsOf(rows, base)), FilesOf(RowsOf(rows, Some(head))))
  }

  ghost predicate Lists(listing: seq<Row>, rows: seq<Row>, version: Option<string>) {
    multiset(listing) == multiset(RowsOf(rows, version))
  }

  /** A diff that some order of the selected rows yields: SQL promises no order. */
  ghost predicate IsDiff(env: Env, rows: seq<Row>, base: Option<string>, head: string, diff: VersionDiff) {
    exists baseRows, headRows ::
      Lists(baseRows, rows, base) && Lists(headRows, rows, Some(head))
      && diff == DiffFiles(env, FilesOf(baseRows), FilesOf(headRows))
  }

  ghost predicate DistinctPaths(rows: seq<Row>) {
    forall r, r' :: r in rows && r' in rows && r.path == r'.path ==> r == r'
  }

  lemma {:induction false} FilesOfRows(rows: seq<Row>)
    requires DistinctPaths(rows)
    ensures forall r :: r in rows ==> r.path in FilesOf(rows) && FilesOf(rows)[r.path] == r.file
    ensures forall p :: p in FilesOf(rows) ==> exists r :: r in rows && r.path == p
  {
    if rows != [] {
      var front, last := rows[..|rows| - 1], rows[|rows| - 1];
      assert rows == front + [last];
      FilesOfRows(front);
    }
  }

  lemma FilesForgetOrder(a: seq<Row>, b: seq<Row>)
    requires multiset(a) == multiset(b) && DistinctPaths(a)
    ensures FilesOf(a) == FilesOf(b)
  {
    forall r ensures r in a <==> r in b {
      assert r in a <==> r in multiset(a);
      assert r in b <==> r in multiset(b);
    }
    FilesOfRows(a);
    FilesOfRows(b);
  }

  /** With distinct paths in both versions there is one diff, whatever the row order. */
  lemma {:induction false} DiffIsUnique(env: Env, rows: seq<Row>, base: Option<string>, head: string, diff: VersionDiff)
    requires IsDiff(env, rows, base, head, diff)
    requires DistinctPaths(RowsOf(rows, base)) && DistinctPaths(RowsOf(rows, Some(head)))
    ensures diff == ComputeDiff(env, rows, base, head)
  {
    var baseRows, headRows :| Lists(baseRows, rows, base) && Lists(headRows, rows, Some(head))
      && diff == DiffFiles(env, FilesOf(baseRows), FilesOf(headRows));
    FilesForgetOrder(RowsOf(rows, base), baseRows);
    FilesForgetOrder(RowsOf(rows, Some(head)), headRows);
  }

  /** What the library calls promise: an edit script spells its two texts, and the header
      diff is that of the normalised headers. */
  ghost predicate KeepsPromises(env: Env) {
    && (forall b, h :: BaseText(env.editScript(b, h)) == b && HeadText(env.editScript(b, h)) == h)
    && (forall b, h :: IsHeaderDiff(env.headerDiff(b, h), env.normalize(b), env.normalize(h)))
  }

  ghost predicate HasFile(rows: seq<Row>, version: Option<string>, path: string, f: File) {
    exists r :: r in rows && Some(r.version) == version && r.path == path && r.file == f
  }

  /** The file a version has at a path; an empty one if it has none there. */
  ghost predicate IsFileAt(rows: seq<Row>, version: Option<string>, path: string, f: File) {
    HasFile(rows, version, path, f) || (f == File("", map[]) && forall f' :: !HasFile(rows, version, path, f'))
  }

  lemma {:induction false} RowsOfAre(rows: seq<Row>, version: Option<string>, r: Row)
    ensures r in RowsOf(rows, version) <==> r in rows && Some(r.version) == version
  {
    if rows != [] {
      RowsOfAre(rows[1..], version, r);
      assert rows == [rows[0]] + rows[1..];
    }
  }

  lemma FileIsAt(rows: seq<Row>, version: Option<string>, path: string, f: File)
    requires DistinctPaths(RowsOf(rows, version))
    ensures path in FilesOf(RowsOf(rows, version)) <==> exists g :: HasFile(rows, version, path, g)
    ensures IsFileAt(rows, version, path, f) ==>
              f == if path in FilesOf(RowsOf(rows, version)) then FilesOf(RowsOf(rows, version))[path] else File("", map[])
  {
    FilesOfRows(RowsOf(rows, version));
    forall r ensures r in RowsOf(rows, version) <==> r in rows && Some(r.version) == version { RowsOfAre(rows, version, r); }
    if path in FilesOf(RowsOf(rows, version)) {
      var r :| r in RowsOf(rows, version) && r.path == path;
      assert HasFile(rows, version, path, r.file);
    }
  }

  /** The diff of a file turns `b` into `h`: replaying the body chunks gives the body of `h` up
      to white space, and outside the redacted names the header diff gives its headers. */
  ghost predicate TurnsInto(env: Env, d: FileDiff, b: File, h: File) {
    && Fit(d.body, |b.body|, 0)
    && EraseSpace(Replay(d.body, b.body, 0)) == EraseSpace(h.body)
    && (NothingDropped(env.editScript(b.body, h.body)) ==> Replay(d.body, b.body, 0) == h.body)
    && var (was, now) := (Applied(env.normalize(b.headers), d.headers), env.normalize(h.headers));
       forall n :: n !in d.headers.redacted ==> (n in was <==> n in now) && (n in now ==> was[n] == now[n])
  }

  lemma FileDiffTurns(env: Env, b: File, h: File)
    requires KeepsPromises(env)
    ensures TurnsInto(env, FileDiff(Chunks(env.editScript(b.body, h.body), 0, 0), env.headerDiff(b.headers, h.headers)), b, h)
  {
    ReplaySpellsHead(env.editScript(b.body, h.body));
    DiffAppliesToHead(env.headerDiff(b.headers, h.headers), env.normalize(b.headers), env.normalize(h.headers));
  }

  /** A diff of two versions covers exactly the paths of head, and for each of them turns the
      file of base (an empty one for a new path) into that of head. */
  lemma {:induction false} DiffTurnsBaseIntoHead(
    env: Env, rows: seq<Row>, base: Option<string>, head: string, diff: VersionDiff, path: string, b: File, h: File)
    requires KeepsPromises(env) && IsDiff(env, rows, base, head, diff)
    requires DistinctPaths(RowsOf(rows, base)) && DistinctPaths(RowsOf(rows, Some(head)))
    ensures path in diff <==> exists f :: HasFile(rows, Some(head), path, f)
    ensures path in diff && IsFileAt(rows, base, path, b) && IsFileAt(rows, Some(head), path, h) ==>
              TurnsInto(env, diff[path], b, h)
  {
    DiffIsUnique(env, rows, base, head, diff);
    FileIsAt(rows, base, path, b);
    FileIsAt(rows, Some(head), path, h);
    FileDiffTurns(env, b, h);
  }

  // -------------------------------------------------------------------------
  // The store invariant and the steps that change a store.
  // -------------------------------------------------------------------------

  /** Every version has its own id, and its parent was committed before it. */
  ghost predicate WellFounded(versions: seq<Version>) {
    && (forall i, j :: 0 <= i < j < |versions| ==> versions[i].id != versions[j].id)
    && (forall i :: 0 <= i < |versions| && versions[i].parent.Some? ==>
          versions[i].parent.value in Ids(versions[..i]))
  }

  ghost predicate CommittedOrNone(versions: seq<Version>, id: Option<string>) {
    id.Some? ==> id.value in Ids(versions)
  }

  ghost predicate CacheAgrees(env: Env, s: Store) {
    forall c :: c in s.diffs ==>
      && c.head in Ids(s.versions) && CommittedOrNone(s.versions, c.base)
      && IsDiff(env, s.rows, c.base, c.head, c.diff)
  }

  ghost predicate Inv(env: Env, s: Store) {
    && WellFounded(s.versions)
    && CommittedOrNone(s.versions, s.head)
    && (forall r :: r in s.rows ==> r.version in Ids(s.versions))
    && CacheAgrees(env, s)
  }

  /** A transaction that commits one version with its rows and, if it could be
      computed, the diff to its parent. HEAD follows once the file is written. */
  function Publish(s: Store, v: Version, rows: seq<Row>, diff: Option<VersionDiff>, headWritten: bool): Store {
    Store(s.versions + [v], s.rows + rows,
          s.diffs + (if v.parent.Some? && diff.Some? then [CachedDiff(v.parent, v.id, diff.value)] else []),
          if headWritten then Some(v.id) else s.head)
  }

  ghost predicate Publishable(env: Env, s: Store, v: Version, rows: seq<Row>, diff: Option<VersionDiff>) {
    && v.id !in Ids(s.versions) && CommittedOrNone(s.versions, v.parent)
    && (forall r :: r in rows ==> r.version == v.id)
    && (diff.Some? ==> IsDiff(env, s.rows + rows, v.parent, v.id, diff.value))
  }

  lemma {:induction false} RowsOfOthers(rows: seq<Row>, more: seq<Row>, version: Option<string>)
    requires forall r :: r in more ==> version != Some(r.version)
    ensures RowsOf(rows + more, version) == RowsOf(rows, version)
  {
    if rows != [] {
      assert (rows + more)[1..] == rows[1..] + more;
      RowsOfOthers(rows[1..], more, version);
    } else if more != [] {
      assert rows + more == more && more[0] in more;
      RowsOfOthers([], more[1..], version);
      assert [] + more[1..] == more[1..];
    } else {
      assert rows + more == rows;
    }
  }

  lemma VersionsStayWellFounded(versions: seq<Version>, v: Version)
    requires WellFounded(versions) && v.id !in Ids(versions) && CommittedOrNone(versions, v.parent)
    ensures WellFounded(versions + [v])
  {
    var all := versions + [v];
    forall i | 0 <= i < |all| ensures all[..i] == versions[..i] {}
    assert versions[..|versions|] == versions;
  }

  lemma DiffStays(env: Env, rows: seq<Row>, more: seq<Row>, base: Option<string>, head: string, diff: VersionDiff)
    requires IsDiff(env, rows, base, head, diff)
    requires forall r :: r in more ==> base != Some(r.version) && head != r.version
    ensures IsDiff(env, rows + more, base, head, diff)
  {
    RowsOfOthers(rows, more, base);
    RowsOfOthers(rows, more, Some(head));
    var baseRows, headRows :| Lists(baseRows, rows, base) && Lists(headRows, rows, Some(head))
      && diff == DiffFiles(env, FilesOf(baseRows), FilesOf(headRows));
    assert Lists(baseRows, rows + more, base) && Lists(headRows, rows + more, Some(head));
  }

  lemma CacheStays(env: Env, s: Store, v: Version, rows: seq<Row>, diff: Option<VersionDiff>, headWritten: bool)
    requires Inv(env, s) && Publishable(env, s, v, rows, diff)
    ensures CacheAgrees(env, Publish(s, v, rows, diff, headWritten))
  {
    var s' := Publish(s, v, rows, diff, headWritten);
    forall c | c in s'.diffs
      ensures c.head in Ids(s'.versions) && CommittedOrNone(s'.versions, c.base)
      ensures IsDiff(env, s'.rows, c.base, c.head, c.diff)
    {
      if c in s.diffs { DiffStays(env, s.rows, rows, c.base, c.head, c.diff); }
    }
  }

  lemma PublishKeepsInv(env: Env, s: Store, v: Version, rows: seq<Row>, diff: Option<VersionDiff>, headWritten: bool)
    requires Inv(env, s) && Publishable(env, s, v, rows, diff)
    ensures Inv(env, Publish(s, v, rows, diff, headWritten))
  {
    VersionsStayWellFounded(s.versions, v);
    CacheStays(env, s, v, rows, diff, headWritten);
  }

  /** A computed diff is cached if both versions exist (foreign keys). */
  function Cache(s: Store, base: Option<string>, head: string, diff: VersionDiff): Store {
    s.(diffs := s.diffs + [CachedDiff(base, head, diff)])
  }

  lemma CacheKeepsInv(env: Env, s: Store, base: Option<string>, head: string, diff: VersionDiff)
    requires Inv(env, s) && IsDiff(env, s.rows, base, head, diff)
    requires head in Ids(s.versions) && CommittedOrNone(s.versions, base)
    ensures Inv(env, Cache(s, base, head, diff))
  {}

  /** A cached diff of versions with distinct paths is what recomputing would give. */
  lemma CachedEqualsRecomputed(env: Env, s: Store, c: CachedDiff)
    requires Inv(env, s) && c in s.diffs
    requires DistinctPaths(RowsOf(s.rows, c.base)) && DistinctPaths(RowsOf(s.rows, Some(c.head)))
    ensures c.diff == ComputeDiff(env, s.rows, c.base, c.head)
  {
    DiffIsUnique(env, s.rows, c.base, c.head, c.diff);
  }

  // -------------------------------------------------------------------------
  // Every history of a store.
  // -------------------------------------------------------------------------

  /** All that the tracker ever does to a store. */
  datatype Change =
    | Commits(version: Version, rows: seq<Row>, diff: Option<VersionDiff>, headWritten: bool)
    | Caches(base: Option<string>, headID: string, computed: VersionDiff)
    | ChecksOut(id: string)

  ghost predicate Allowed(env: Env, s: Store, change: Change) {
    match change
    case Commits(v, rows, diff, _) => Publishable(env, s, v, rows, diff)
    case Caches(base, head, diff) =>
      IsDiff(env, s.rows, base, head, diff) && head in Ids(s.versions) && CommittedOrNone(s.versions, base)
    case ChecksOut(id) => id in Ids(s.versions)
  }

  function Changed(s: Store, change: Change): Store {
    match change
    case Commits(v, rows, diff, headWritten) => Publish(s, v, rows, diff, headWritten)
    case Caches(base, head, diff) => Cache(s, base, head, diff)
    case ChecksOut(id) => s.(head := Some(id))
  }

  ghost predicate Evolves(env: Env, s: Store, changes: seq<Change>, s': Store)
    decreases |changes|
  {
    if changes == [] then s == s'
    else Allowed(env, s, changes[0]) && Evolves(env, Changed(s, changes[0]), changes[1..], s')
  }

  lemma {:induction false} EvolvesKeepsInv(env: Env, s: Store, changes: seq<Change>, s': Store)
    requires Inv(env, s) && Evolves(env, s, changes, s')
    ensures Inv(env, s')
    decreases |changes|
  {
    if changes != [] {
      match changes[0] {
        case Commits(v, rows, diff, headWritten) => PublishKeepsInv(env, s, v, rows, diff, headWritten);
        case Caches(base, head, diff) => CacheKeepsInv(env, s, base, head, diff);
        case ChecksOut(_) =>
      }
      EvolvesKeepsInv(env, Changed(s, changes[0]), changes[1..], s');
    }
  }

  /** In every store the tracker can get to: each cached diff of versions with distinct paths
      is what recomputing gives, HEAD names a committed version, and the ancestors of every
      version are committed earlier and end. */
  lemma EveryStoreIsSound(env: Env, changes: seq<Change>, s: Store)
    requires Evolves(env, EMPTY_STORE, changes, s)
    ensures forall c :: c in s.diffs && DistinctPaths(RowsOf(s.rows, c.base)) && DistinctPaths(RowsOf(s.rows, Some(c.head))) ==>
              c.diff == ComputeDiff(env, s.rows, c.base, c.head)
    ensures s.head.Some? ==> s.head.value in Ids(s.versions)
    ensures WellFounded(s.versions)
  {
    EvolvesKeepsInv(env, EMPTY_STORE, changes, s);
    forall c | c in s.diffs && DistinctPaths(RowsOf(s.rows, c.base)) && DistinctPaths(RowsOf(s.rows, Some(c.head)))
      ensures c.diff == ComputeDiff(env, s.rows, c.base, c.head)
    {
      CachedEqualsRecomputed(env, s, c);
    }
  }

  // -------------------------------------------------------------------------
  // History: parent chains end.
  // -------------------------------------------------------------------------

  ghost function Position(versions: seq<Version>, id: string): (i: nat)
    requires id in Ids(versions)
    ensures i < |versions| && versions[i].id == id
  {
    var i :| 0 <= i < |versions| && versions[i].id == id; i
  }

  lemma ParentIsEarlier(versions: seq<Version>, id: string)
    requires WellFounded(versions) && id in Ids(versions)
    requires versions[Position(versions, id)].parent.Some?
    ensures var p := versions[Position(versions, id)].parent.value;
            p in Ids(versions) && Position(versions, p) < Position(versions, id)
  {
    var i := Position(versions, id);
    var v :| v in versions[..i] && v.id == versions[i].parent.value;
    var j :| 0 <= j < i && versions[j] == v;
    assert versions[j] in versions;
    assert Position(versions, v.id) == j;
  }

  /** The version and its ancestors, newest first. */
  ghost function Ancestry(versions: seq<Version>, id: string): seq<string>
    requires WellFounded(versions) && id in Ids(versions)
    decreases Position(versions, id)
  {
    var v := versions[Position(versions, id)];
    if v.parent.None? then [id]
    else
      ParentIsEarlier(versions, id);
      [id] + Ancestry(versions, v.parent.value)
  }

  /** Starts at `id`, goes from parent to parent, always to earlier versions, and ends at one
      without a parent. */
  ghost predicate IsDescent(versions: seq<Version>, id: string, chain: seq<string>)
    requires id in Ids(versions)
  {
    && chain != [] && chain[0] == id && |chain| <= Position(versions, id) + 1
    && (forall k :: 0 <= k < |chain| ==>
          chain[k] in Ids(versions) && Position(versions, chain[k]) <= Position(versions, id))
    && (forall j, k :: 0 <= j < k < |chain| ==> chain[j] != chain[k])
    && (forall k :: 0 < k < |chain| ==> versions[Position(versions, chain[k - 1])].parent == Some(chain[k]))
    && versions[Position(versions, chain[|chain| - 1])].parent == None
  }

  lemma DescentFrom(versions: seq<Version>, id: string, parent: string, rest: seq<string>)
    requires id in Ids(versions) && parent in Ids(versions) && Position(versions, parent) < Position(versions, id)
    requires IsDescent(versions, parent, rest) && versions[Position(versions, id)].parent == Some(parent)
    ensures IsDescent(versions, id, [id] + rest)
  {
    var chain := [id] + rest;
    forall k | 0 <= k < |chain|
      ensures chain[k] in Ids(versions) && Position(versions, chain[k]) <= Position(versions, id)
      ensures k > 0 ==> chain[k] == rest[k - 1] && chain[k] != id
    {}
  }

  /** Following parents always ends, at a version without a parent, and never
      meets a version twice. */
  lemma {:induction false} AncestryEnds(versions: seq<Version>, id: string)
    requires WellFounded(versions) && id in Ids(versions)
    ensures IsDescent(versions, id, Ancestry(versions, id))
    decreases Position(versions, id)
  {
    var v := versions[Position(versions, id)];
    if v.parent.Some? {
      ParentIsEarlier(versions, id);
      AncestryEnds(versions, v.parent.value);
      DescentFrom(versions, id, v.parent.value, Ancestry(versions, v.parent.value));
    }
  }

  // -------------------------------------------------------------------------
  // The pending commit and the tracker.
  // -------------------------------------------------------------------------

  /** The rows of the snapshots that can be inserted before the first failure:
      at most `limit` inserts succeed, and a URL has to parse. */
  function RowFor(env: Env, version: string, path: string, f: File, raw: bool): Row {
    Row(version, path, if raw then f else f.(headers := env.normalize(f.headers)))
  }

  function Insertable(env: Env, version: string, snapshots: seq<Snapshot>, raw: bool, limit: nat): seq<Row> {
    if snapshots == [] || limit == 0 then []
    else match env.pathOf(snapshots[0].url)
      case None => []
      case Some(path) =>
        [RowFor(env, version, path, snapshots[0].file, raw)] + Insertable(env, version, snapshots[1..], raw, limit - 1)
  }

  lemma {:induction false} InsertableVersion(env: Env, version: string, snapshots: seq<Snapshot>, raw: bool, limit: nat)
    ensures forall r :: r in Insertable(env, version, snapshots, raw, limit) ==> r.version == version
    ensures |Insertable(env, version, snapshots, raw, limit)| <= |snapshots|
  {
    if snapshots != [] && limit != 0 && env.pathOf(snapshots[0].url).Some? {
      InsertableVersion(env, version, snapshots[1..], raw, limit - 1);
    }
  }

  lemma OneMoreFile(rows: seq<Row>, r: Row)
    ensures FilesOf(rows + [r]) == FilesOf(rows)[r.path := r.file]
  {
    assert (rows + [r])[..|rows|] == rows;
  }

  lemma OneMoved<T>(done: seq<T>, todo: multiset<T>, t: T)
    requires t in todo
    ensures multiset(done + [t]) + (todo - multiset{t}) == multiset(done) + todo
  {}

  lemma InsertOne(env: Env, version: string, s: Snapshot, rest: seq<Snapshot>, raw: bool, limit: nat)
    ensures Insertable(env, version, [s] + rest, raw, limit + 1)
         == match env.pathOf(s.url)
            case None => []
            case Some(path) => [RowFor(env, version, path, s.file, raw)] + Insertable(env, version, rest, raw, limit)
  {
    assert ([s] + rest)[0] == s && ([s] + rest)[1..] == rest;
  }

  lemma ConcatAssociative<T>(a: seq<T>, b: seq<T>, c: seq<T>)
    ensures (a + b) + c == a + (b + c)
  {}

  /** Inserting goes on where a first batch of inserts, all successful, ended. */
  lemma {:induction false} InsertableConcat(env: Env, version: string, a: seq<Snapshot>, b: seq<Snapshot>, raw: bool, limit: nat)
    requires |Insertable(env, version, a, raw, |a|)| == |a|
    ensures Insertable(env, version, a + b, raw, |a| + limit)
         == Insertable(env, version, a, raw, |a|) + Insertable(env, version, b, raw, limit)
  {
    if a == [] {
      assert a + b == b;
    } else {
      var s, rest := a[0], a[1..];
      assert a == [s] + rest;
      ConcatAssociative([s], rest, b);
      InsertOne(env, version, s, rest, raw, |rest|);
      InsertOne(env, version, s, rest + b, raw, |rest| + limit);
      InsertableConcat(env, version, rest, b, raw, limit);
      var row := RowFor(env, version, env.pathOf(s.url).value, s.file, raw);
      ConcatAssociative([row], Insertable(env, version, rest, raw, |rest|), Insertable(env, version, b, raw, limit));
    }
  }

  class PendingCommit {
    const versionID: string
    const parentID: Option<string>
    var tx: Option<seq<Row>>  // rows inserted by the open transaction
    var snapshotCount: nat

    constructor (versionID: string, parentID: Option<string>)
      ensures this.versionID == versionID && this.parentID == parentID
      ensures tx == Some([]) && snapshotCount == 0
    {
      this.versionID := versionID;
      this.parentID := parentID;
      tx := Some([]);
      snapshotCount := 0;
    }
  }

  /** How FinalizeCommit can end once it holds an open transaction. The last two
      come after the SQL commit, so the version is in the store all the same. */
  datatype FinalizeOutcome = CommitFailed | ReadBackFailed | HeadWriteFailed | Finalized

  class SQLiteTracker {
    const env: Env
    var versions: seq<Version>
    var rows: seq<Row>
    var diffs: seq<CachedDiff>
    var head: Option<string>
    var pending: PendingCommit?  // the open write transaction, of which SQLite has one

    function State(): Store
      reads this
    {
      Store(versions, rows, diffs, head)
    }

    ghost predicate Valid()
      reads this, pending
    {
      && Inv(env, State())
      && (pending != null ==>
            && pending.tx.Some? && |pending.tx.value| == pending.snapshotCount
            && pending.versionID !in Ids(versions) && CommittedOrNone(versions, pending.parentID)
            && forall r :: r in pending.tx.value ==> r.version == pending.versionID)
    }

    constructor (env: Env)
      ensures Valid() && State() == EMPTY_STORE && pending == null && this.env == env
    {
      this.env := env;
      versions, rows, diffs, head := [], [], [], None;
      pending := null;
    }

    /** Start a pending commit on top of HEAD. `dbOk`: the transaction could be
        opened and the version row inserted. */
    method BeginCommit(message: string, versionID: string, dbOk: bool) returns (pc: PendingCommit?)
      requires Valid()
      modifies this`pending
      ensures Valid() && State() == old(State())
      ensures pc != null <==> message != "" && dbOk && old(pending) == null && versionID !in Ids(versions)
      ensures pc == null ==> pending == old(pending)
      ensures pc != null ==>
                && fresh(pc) && pending == pc && pc.versionID == versionID && pc.parentID == head
                && pc.tx == Some([]) && pc.snapshotCount == 0
    {
      var known := KnownVersion(Some(versionID));
      if message == "" || !dbOk || pending != null || known { return null; }
      pc := new PendingCommit(versionID, head);
      pending := pc;
    }

    method KnownVersion(id: Option<string>) returns (known: bool)
      ensures known <==> id.Some? && id.value in Ids(versions)
    {
      for i := 0 to |versions|
        invariant forall k :: 0 <= k < i ==> id != Some(versions[k].id)
      {
        if id == Some(versions[i].id) {
          assert versions[i] in versions;
          return true;
        }
      }
      return false;
    }

    /** Insert snapshots into the open transaction; `limit` inserts succeed at most. */
    method AddSnapshots(pc: PendingCommit?, snapshots: seq<Snapshot>, limit: nat) returns (ok: bool)
      requires Valid() && (pc != null && pc.tx.Some? ==> pc == pending)
      modifies pc
      ensures Valid() && State() == old(State())
      ensures pc == null || (old(pc.tx).None? && snapshots != []) ==> !ok
      ensures pc != null && old(pc.tx).None? ==> pc.tx == None && pc.snapshotCount == old(pc.snapshotCount)
      ensures pc != null && old(pc.tx).Some? ==>
                var new_ := Insertable(env, pc.versionID, snapshots, false, limit);
                && pc.tx == Some(old(pc.tx).value + new_)
                && pc.snapshotCount == old(pc.snapshotCount) + |new_|
                && (ok <==> |new_| == |snapshots|)
    {
      if pc == null { return false; }
      if |snapshots| == 0 {
        if pc.tx.Some? { assert pc.tx.value + [] == pc.tx.value; }
        return true;
      }
      if pc.tx.None? { return false; }
      ghost var all := Insertable(env, pc.versionID, snapshots, false, limit);
      ghost var rest, left := snapshots, limit;
      InsertableVersion(env, pc.versionID, snapshots, false, limit);
      for i := 0 to |snapshots|
        invariant pc.tx.Some? && rest == snapshots[i..] && left == limit - i
        invariant pc.tx.value + Insertable(env, pc.versionID, rest, false, left) == old(pc.tx).value + all
        invariant pc.snapshotCount == old(pc.snapshotCount) + i && |pc.tx.value| == |old(pc.tx).value| + i
        invariant Valid()
      {
        InsertableVersion(env, pc.versionID, rest, false, left);
        var path := env.pathOf(snapshots[i].url);
        if path.None? || i >= limit {
          assert pc.tx.value + [] == pc.tx.value;
          return false;
        }
        var f := snapshots[i].file;
        pc.tx := Some(pc.tx.value + [Row(pc.versionID, path.value, f.(headers := env.normalize(f.headers)))]);
        pc.snapshotCount := pc.snapshotCount + 1;
        InsertableStep(env, pc.versionID, rest, left);
        rest, left := rest[1..], left - 1;
      }
      assert pc.tx.value + [] == pc.tx.value;
      return true;
    }

    /** Roll the transaction back; a no-op on a closed handle. */
    method CancelCommit(pc: PendingCommit?)
      requires Valid() && (pc != null && pc.tx.Some? ==> pc == pending)
      modifies this`pending, pc
      ensures Valid() && State() == old(State())
      ensures pc != null ==> pc.tx == None && pc.snapshotCount == old(pc.snapshotCount)
      ensures pending == if pc == old(pending) then null else old(pending)
    {
      if pc == null || pc.tx.None? { return; }
      pc.tx := None;
      pending := null;
    }

    /** Read the files of a version; the rows arrive in any order. */
    method GetVersionSnapshots(table: seq<Row>, version: Option<string>)
      returns (files: map<string, File>, ghost listing: seq<Row>)
      ensures Lists(listing, table, version) && files == FilesOf(listing)
    {
      files, listing := map[], [];
      var selected := multiset(RowsOf(table, version));
      var todo := selected;
      while todo != multiset{}
        invariant multiset(listing) + todo == selected && files == FilesOf(listing)
        decreases todo
      {
        var r :| r in todo;
        OneMoved(listing, todo, r);
        OneMoreFile(listing, r);
        todo := todo - multiset{r};
        listing := listing + [r];
        files := files[r.path := r.file];
      }
    }

    method ComputeVersionDiff(table: seq<Row>, base: Option<string>, headID: string) returns (diff: VersionDiff)
      ensures IsDiff(env, table, base, headID, diff)
    {
      var baseFiles, baseRows := GetVersionSnapshots(table, base);
      var headFiles, headRows := GetVersionSnapshots(table, Some(headID));
      diff := DiffFiles(env, baseFiles, headFiles);
      assert Lists(baseRows, table, base) && Lists(headRows, table, Some(headID));
    }

    /** The SQL commit of a version with its rows, then the HEAD file. The diff to
        the parent is stored in the same transaction; failing to is only logged. */
    method CommitVersion(v: Version, newRows: seq<Row>, diffOk: bool, headOk: bool)
      returns (ghost diff: Option<VersionDiff>)
      requires Inv(env, State()) && v.id !in Ids(versions) && CommittedOrNone(versions, v.parent)
      requires forall r :: r in newRows ==> r.version == v.id
      modifies this`versions, this`rows, this`diffs, this`head
      ensures Publishable(env, old(State()), v, newRows, diff)
      ensures State() == Publish(old(State()), v, newRows, diff, headOk)
      ensures Inv(env, State())
    {
      diff := None;
      var newDiffs := diffs;
      if v.parent.Some? && diffOk {
        var d := ComputeVersionDiff(rows + newRows, v.parent, v.id);
        newDiffs := diffs + [CachedDiff(v.parent, v.id, d)];
        diff := Some(d);
      }
      PublishKeepsInv(env, State(), v, newRows, diff, headOk);
      versions, rows, diffs := versions + [v], rows + newRows, newDiffs;
      if headOk { head := Some(v.id); }
    }

    /** Commit the pending version. A commit without snapshots is refused and rolled
        back. `outcome` says which step fails, if any. */
    method FinalizeCommit(pc: PendingCommit?, diffOk: bool, outcome: FinalizeOutcome)
      returns (ok: bool, ghost diff: Option<VersionDiff>)
      requires Valid() && (pc != null && pc.tx.Some? ==> pc == pending)
      modifies this, pc
      ensures Valid()
      ensures pc == null || old(pc.tx).None? ==>
                !ok && State() == old(State()) && pending == old(pending) && (pc != null ==> pc.tx == None)
      ensures pc != null && old(pc.tx).Some? && old(pc.snapshotCount) == 0 ==>
                !ok && State() == old(State()) && pending == null && pc.tx == None
      ensures pc != null && old(pc.tx).Some? && old(pc.snapshotCount) > 0 && outcome == CommitFailed ==>
                !ok && State() == old(State()) && pending == pc && pc.tx == old(pc.tx)
      ensures pc != null && old(pc.tx).Some? && old(pc.snapshotCount) > 0 && outcome != CommitFailed ==>
                var v, txRows := Version(pc.versionID, pc.parentID), old(pc.tx).value;
                && (ok <==> outcome == Finalized)
                && Publishable(env, old(State()), v, txRows, diff)
                && State() == Publish(old(State()), v, txRows, diff, outcome == Finalized)
                && pending == null && pc.tx == None
    {
      diff := None;
      if pc == null || pc.tx.None? { return false, None; }
      if pc.snapshotCount == 0 {
        pc.tx := None;
        pending := null;
        return false, None;
      }
      if outcome == CommitFailed { return false, None; }
      diff := CommitVersion(Version(pc.versionID, pc.parentID), pc.tx.value, diffOk, outcome == Finalized);
      pc.tx := None;
      pending := null;
      ok := outcome == Finalized;
    }

    /** Commit (one snapshot, headers normalised) and CommitBatch (`raw`: headers as
        given) in one: all snapshots become one version on top of HEAD, or nothing. */
    method CommitSnapshots(snapshots: seq<Snapshot>, message: string, versionID: string, raw: bool,
                           limit: nat, dbOk: bool, diffOk: bool, headOk: bool)
      returns (ok: bool, ghost diff: Option<VersionDiff>)
      requires Valid()
      modifies this`versions, this`rows, this`diffs, this`head
      ensures Valid()
      ensures ok <==>
                && snapshots != [] && message != "" && dbOk && pending == null && versionID !in Ids(old(versions))
                && |Insertable(env, versionID, snapshots, raw, limit)| == |snapshots|
      ensures !ok ==> State() == old(State())
      ensures ok ==>
                var v, newRows := Version(versionID, old(head)), Insertable(env, versionID, snapshots, raw, limit);
                && Publishable(env, old(State()), v, newRows, diff)
                && State() == Publish(old(State()), v, newRows, diff, headOk)
    {
      var newRows := Insertable(env, versionID, snapshots, raw, limit);
      var known := KnownVersion(Some(versionID));
      if |snapshots| == 0 || message == "" || !dbOk || pending != null || known || |newRows| < |snapshots| {
        InsertableVersion(env, versionID, snapshots, raw, limit);
        return false, None;
      }
      InsertableVersion(env, versionID, snapshots, raw, limit);
      diff := CommitVersion(Version(versionID, head), newRows, diffOk, headOk);
      ok := true;
    }

    /** Point HEAD at a committed version (its files are written first). */
    method Checkout(versionID: string, filesOk: bool, headOk: bool) returns (ok: bool)
      requires Valid()
      modifies this`head
      ensures Valid()
      ensures ok <==> versionID in Ids(versions) && filesOk && headOk
      ensures head == if ok then Some(versionID) else old(head)
    {
      var known := KnownVersion(Some(versionID));
      if !known || !filesOk || !headOk { return false; }
      head := Some(versionID);
      return true;
    }

    /** The cached diff of two versions. SQL finds no row for a base that is NULL. */
    method CachedDiffOf(base: Option<string>, headID: string) returns (hit: Option<VersionDiff>)
      ensures hit.None? <==> base.None? || forall c :: c in diffs ==> c.base != base || c.head != headID
      ensures hit.Some? ==> CachedDiff(base, headID, hit.value) in diffs
    {
      for i := 0 to |diffs|
        invariant base.None? || forall k :: 0 <= k < i ==> diffs[k].base != base || diffs[k].head != headID
      {
        if base.Some? && diffs[i].base == base && diffs[i].head == headID {
          assert diffs[i] in diffs;
          return Some(diffs[i].diff);
        }
      }
      return None;
    }

    /** The diff of two versions: from the cache, or computed and then cached. */
    method DiffVersions(base: Option<string>, headID: string, insertOk: bool)
      returns (diff: VersionDiff, ghost hit: Option<VersionDiff>)
      requires Valid()
      modifies this`diffs
      ensures Valid()
      ensures IsDiff(env, rows, base, headID, diff)
      ensures DistinctPaths(RowsOf(rows, base)) && DistinctPaths(RowsOf(rows, Some(headID))) ==>
                diff == ComputeDiff(env, rows, base, headID)
      ensures hit.None? <==> base.None? || forall c :: c in old(diffs) ==> c.base != base || c.head != headID
      ensures hit.Some? ==> CachedDiff(base, headID, hit.value) in old(diffs) && diff == hit.value
      ensures old(diffs) <= diffs
      ensures insertOk && pending == null && headID in Ids(versions) && CommittedOrNone(versions, base) ==>
                CachedDiff(base, headID, diff) in diffs
      ensures State() == if hit.None? && insertOk && pending == null
                            && headID in Ids(versions) && CommittedOrNone(versions, base)
                         then Cache(old(State()), base, headID, diff) else old(State())
    {
      var cached := CachedDiffOf(base, headID);
      hit := cached;
      if cached.Some? {
        diff := cached.value;
      } else {
        diff := ComputeVersionDiff(rows, base, headID);
        var headKnown := KnownVersion(Some(headID));
        var baseKnown := KnownVersion(base);
        if insertOk && pending == null && headKnown && (base.None? || baseKnown) {
          CacheKeepsInv(env, State(), base, headID, diff);
          diffs := diffs + [CachedDiff(base, headID, diff)];
        }
      }
      UniqueIfDistinct(env, rows, base, headID, diff);
    }
  }

  lemma {:induction false} UniqueIfDistinct(env: Env, rows: seq<Row>, base: Option<string>, head: string, diff: VersionDiff)
    requires IsDiff(env, rows, base, head, diff)
    ensures DistinctPaths(RowsOf(rows, base)) && DistinctPaths(RowsOf(rows, Some(head))) ==>
              diff == ComputeDiff(env, rows, base, head)
  {
    if DistinctPaths(RowsOf(rows, base)) && DistinctPaths(RowsOf(rows, Some(head))) {
      DiffIsUnique(env, rows, base, head, diff);
    }
  }

  lemma InsertableStep(env: Env, version: string, snapshots: seq<Snapshot>, limit: nat)
    requires snapshots != [] && limit > 0 && env.pathOf(snapshots[0].url).Some?
    ensures Insertable(env, version, snapshots, false, limit)
         == [Row(version, env.pathOf(snapshots[0].url).value,
                 snapshots[0].file.(headers := env.normalize(snapshots[0].file.headers)))]
            + Insertable(env, version, snapshots[1..], false, limit - 1)
  {}
}
