/**
 A backup is written file by file into a staging directory, marked complete last and renamed into
 place; verification accepts a directory only when every record of its index is borne out by bytes.
 */
module BackupDirectory {
  import opened Wrappers

  type Bytes = seq<nat>

  /** SHA-256, taken to be free of collisions. */
  datatype Sha = Sha(content: Bytes)

  const MAXIMUM_SAFE_INTEGER: nat := 9007199254740991

  datatype ObjectRecord = ObjectRecord(key: string, relativePath: Path, sizeBytes: nat, sha256: Sha)

  datatype DatabaseRecord = DatabaseRecord(sizeBytes: nat, sha256: Sha, schemaVersion: int, snapshotId: string)

  datatype Index = Index(
    invocationId: string, createdAt: string, productVersion: string, database: DatabaseRecord,
    objects: seq<ObjectRecord>, tenants: seq<string>, objectCount: nat, totalObjectBytes: nat)

  /** A file of a backup directory; objects are addressed by their content. */
  datatype Path = MarkerFile | IndexFile | DumpFile | ObjectFile(sha: Sha)

  /** The text of an index file stands for the value it prints. */
  datatype Content = Raw(bytes: Bytes) | IndexText(index: Index)

  type Directory = map<Path, Content>

  function ObjectRelativePath(sha: Sha): Path {
    ObjectFile(sha)
  }

  // ---------------------------------------------------------------- canonical order

  /** A locale order on keys: total and transitive, but different keys may compare as equal. */
  ghost predicate IsLocaleOrder(leq: (string, string) -> bool) {
    && (forall a, b :: leq(a, b) || leq(b, a))
    && (forall a, b, c :: leq(a, b) && leq(b, c) ==> leq(a, c))
  }

  /** Stable: a record goes in front of those that compare as equal and were behind it. */
  function Insert(x: ObjectRecord, s: seq<ObjectRecord>, leq: (string, string) -> bool): seq<ObjectRecord> {
    if s == [] || leq(x.key, s[0].key) then [x] + s else [s[0]] + Insert(x, s[1..], leq)
  }

  function Sort(s: seq<ObjectRecord>, leq: (string, string) -> bool): seq<ObjectRecord> {
    if s == [] then [] else Insert(s[0], Sort(s[1..], leq), leq)
  }

  function InsertName(x: string, s: seq<string>, leq: (string, string) -> bool): seq<string> {
    if s == [] || leq(x, s[0]) then [x] + s else [s[0]] + InsertName(x, s[1..], leq)
  }

  function SortNames(s: seq<string>, leq: (string, string) -> bool): seq<string> {
    if s == [] then [] else InsertName(s[0], SortNames(s[1..], leq), leq)
  }

  function Canonicalize(index: Index, leq: (string, string) -> bool): Index {
    index.(objects := Sort(index.objects, leq), tenants := SortNames(index.tenants, leq))
  }

  ghost predicate Sorted(s: seq<ObjectRecord>, leq: (string, string) -> bool) {
    forall i, j :: 0 <= i < j < |s| ==> leq(s[i].key, s[j].key)
  }

  ghost predicate SortedNames(s: seq<string>, leq: (string, string) -> bool) {
    forall i, j :: 0 <= i < j < |s| ==> leq(s[i], s[j])
  }

  lemma {:induction false} InsertSorts(x: ObjectRecord, s: seq<ObjectRecord>, leq: (string, string) -> bool)
    requires IsLocaleOrder(leq) && Sorted(s, leq)
    ensures Sorted(Insert(x, s, leq), leq) && multiset(Insert(x, s, leq)) == multiset(s) + multiset{x}
  {
    if s != [] && !leq(x.key, s[0].key) {
      var rest := Insert(x, s[1..], leq);
      InsertSorts(x, s[1..], leq);
      assert s == [s[0]] + s[1..];
      forall j | 0 <= j < |rest| ensures leq(s[0].key, rest[j].key) {
        assert rest[j] in multiset(rest);
        assert rest[j] == x || rest[j] in s[1..];
      }
    }
  }

  lemma {:induction false} SortSorts(s: seq<ObjectRecord>, leq: (string, string) -> bool)
    requires IsLocaleOrder(leq)
    ensures Sorted(Sort(s, leq), leq) && multiset(Sort(s, leq)) == multiset(s)
  {
    if s != [] {
      SortSorts(s[1..], leq);
      InsertSorts(s[0], Sort(s[1..], leq), leq);
      assert s == [s[0]] + s[1..];
    }
  }

  lemma {:induction false} SortedIsKept(s: seq<ObjectRecord>, leq: (string, string) -> bool)
    requires Sorted(s, leq)
    ensures Sort(s, leq) == s
  {
    if s != [] {
      SortedIsKept(s[1..], leq);
      if |s| > 1 {
        assert leq(s[0].key, s[1].key);
      }
      assert s == [s[0]] + s[1..];
    }
  }

  lemma {:induction false} InsertNameSorts(x: string, s: seq<string>, leq: (string, string) -> bool)
    requires IsLocaleOrder(leq) && SortedNames(s, leq)
    ensures SortedNames(InsertName(x, s, leq), leq) && forall y :: y in InsertName(x, s, leq) <==> y == x || y in s
  {
    if s != [] && !leq(x, s[0]) {
      InsertNameSorts(x, s[1..], leq);
      assert s == [s[0]] + s[1..];
      forall j | 0 <= j < |InsertName(x, s[1..], leq)| ensures leq(s[0], InsertName(x, s[1..], leq)[j]) {
        assert InsertName(x, s[1..], leq)[j] == x || InsertName(x, s[1..], leq)[j] in s[1..];
      }
    }
  }

  lemma {:induction false} SortNamesSorts(s: seq<string>, leq: (string, string) -> bool)
    requires IsLocaleOrder(leq)
    ensures SortedNames(SortNames(s, leq), leq)
  {
    if s != [] {
      SortNamesSorts(s[1..], leq);
      InsertNameSorts(s[0], SortNames(s[1..], leq), leq);
    }
  }

  lemma {:induction false} SortedNamesAreKept(s: seq<string>, leq: (string, string) -> bool)
    requires SortedNames(s, leq)
    ensures SortNames(s, leq) == s
  {
    if s != [] {
      SortedNamesAreKept(s[1..], leq);
      if |s| > 1 {
        assert leq(s[0], s[1]);
      }
      assert s == [s[0]] + s[1..];
    }
  }

  /** Canonical form is a fixed point, also where the order cannot tell keys apart, because the sort is stable. */
  lemma {:induction false} CanonicalIsFixed(index: Index, leq: (string, string) -> bool)
    requires IsLocaleOrder(leq)
    ensures Canonicalize(Canonicalize(index, leq), leq) == Canonicalize(index, leq)
    ensures multiset(Canonicalize(index, leq).objects) == multiset(index.objects)
  {
    SortSorts(index.objects, leq);
    SortedIsKept(Sort(index.objects, leq), leq);
    SortNamesSorts(index.tenants, leq);
    SortedNamesAreKept(SortNames(index.tenants, leq), leq);
  }

  // ---------------------------------------------------------------- parsing and verifying

  function TotalBytes(s: seq<ObjectRecord>): nat {
    if s == [] then 0 else TotalBytes(s[..|s| - 1]) + s[|s| - 1].sizeBytes
  }

  ghost predicate DistinctKeys(s: seq<ObjectRecord>) {
    forall i, j :: 0 <= i < j < |s| ==> s[i].key != s[j].key
  }

  predicate ValidRecord(r: ObjectRecord) {
    r.key != "" && r.relativePath == ObjectRelativePath(r.sha256) && r.sizeBytes <= MAXIMUM_SAFE_INTEGER
  }

  /** What the parser asks of an index besides its JSON shape. */
  ghost predicate ValidIndex(index: Index) {
    && index.invocationId != "" && index.database.snapshotId != ""
    && index.database.sizeBytes <= MAXIMUM_SAFE_INTEGER && 0 <= index.database.schemaVersion <= MAXIMUM_SAFE_INTEGER
    && (forall i :: 0 <= i < |index.objects| ==> ValidRecord(index.objects[i]))
    && DistinctKeys(index.objects)
    && index.objectCount == |index.objects|
    && index.totalObjectBytes == TotalBytes(index.objects) <= MAXIMUM_SAFE_INTEGER
  }

  /** The loop over the records of a parsed index. */
  method ParseIndex(index: Index) returns (ok: bool)
    ensures ok <==> ValidIndex(index)
  {
    if index.invocationId == "" || index.database.snapshotId == "" || index.database.sizeBytes > MAXIMUM_SAFE_INTEGER
       || index.database.schemaVersion < 0 || index.database.schemaVersion > MAXIMUM_SAFE_INTEGER {
      return false;
    }
    var keys: set<string> := {};
    var total := 0;
    var i := 0;
    while i < |index.objects|
      invariant 0 <= i <= |index.objects|
      invariant forall k :: 0 <= k < i ==> ValidRecord(index.objects[k])
      invariant DistinctKeys(index.objects[..i])
      invariant forall key :: key in keys <==> exists k :: 0 <= k < i && index.objects[k].key == key
      invariant total == TotalBytes(index.objects[..i])
    {
      var record := index.objects[i];
      if record.key in keys || !ValidRecord(record) {
        return false;
      }
      assert index.objects[..i + 1][..i] == index.objects[..i];
      keys := keys + {record.key};
      total := total + record.sizeBytes;
      i := i + 1;
    }
    assert index.objects[..i] == index.objects;
    return index.objectCount == |index.objects| && total <= MAXIMUM_SAFE_INTEGER && index.totalObjectBytes == total;
  }

  predicate Matches(dir: Directory, path: Path, sizeBytes: nat, sha: Sha) {
    path in dir && dir[path].Raw? && |dir[path].bytes| == sizeBytes && Sha(dir[path].bytes) == sha
  }

  /** The directory is a finished backup with this index. */
  ghost predicate Verifies(dir: Directory, index: Index, leq: (string, string) -> bool) {
    && MarkerFile in dir && IndexFile in dir && dir[IndexFile] == IndexText(index)
    && ValidIndex(index) && Canonicalize(index, leq) == index
    && Matches(dir, DumpFile, index.database.sizeBytes, index.database.sha256)
    && forall i :: 0 <= i < |index.objects| ==>
         Matches(dir, index.objects[i].relativePath, index.objects[i].sizeBytes, index.objects[i].sha256)
  }

  method VerifyBackupDirectory(dir: Directory, leq: (string, string) -> bool) returns (r: Option<Index>)
    ensures r.Some? ==> Verifies(dir, r.value, leq)
    ensures r.None? ==> forall index :: !Verifies(dir, index, leq)
  {
    if MarkerFile !in dir || IndexFile !in dir || !dir[IndexFile].IndexText? {
      return None;
    }
    var index := dir[IndexFile].index;
    var parsed := ParseIndex(index);
    if !parsed || Canonicalize(index, leq) != index || !Matches(dir, DumpFile, index.database.sizeBytes, index.database.sha256) {
      return None;
    }
    var i := 0;
    while i < |index.objects|
      invariant 0 <= i <= |index.objects|
      invariant forall k :: 0 <= k < i ==>
        Matches(dir, index.objects[k].relativePath, index.objects[k].sizeBytes, index.objects[k].sha256)
    {
      if !Matches(dir, index.objects[i].relativePath, index.objects[i].sizeBytes, index.objects[i].sha256) {
        return None;
      }
      i := i + 1;
    }
    return Some(index);
  }

  // ---------------------------------------------------------------- validity does not depend on order

  lemma {:induction false} TotalOfBoth(a: seq<ObjectRecord>, b: seq<ObjectRecord>)
    ensures TotalBytes(a + b) == TotalBytes(a) + TotalBytes(b)
  {
    if b == [] {
      assert a + b == a;
    } else {
      assert (a + b)[..|a + b| - 1] == a + b[..|b| - 1];
      TotalOfBoth(a, b[..|b| - 1]);
    }
  }

  lemma {:induction false} TotalOfInsert(x: ObjectRecord, s: seq<ObjectRecord>, leq: (string, string) -> bool)
    ensures TotalBytes(Insert(x, s, leq)) == TotalBytes(s) + x.sizeBytes
  {
    TotalOfBoth([x], s);
    assert [x][..0] == [] && TotalBytes([x]) == x.sizeBytes;
    if s != [] && !leq(x.key, s[0].key) {
      TotalOfInsert(x, s[1..], leq);
      TotalOfBoth([s[0]], Insert(x, s[1..], leq));
      TotalOfBoth([s[0]], s[1..]);
      assert s == [s[0]] + s[1..];
    }
  }

  lemma {:induction false} TotalOfSort(s: seq<ObjectRecord>, leq: (string, string) -> bool)
    ensures TotalBytes(Sort(s, leq)) == TotalBytes(s) && |Sort(s, leq)| == |s|
  {
    if s != [] {
      TotalOfSort(s[1..], leq);
      TotalOfInsert(s[0], Sort(s[1..], leq), leq);
      TotalOfBoth([s[0]], s[1..]);
      assert s == [s[0]] + s[1..] && [s[0]][..0] == [];
      InsertLength(s[0], Sort(s[1..], leq), leq);
    }
  }

  lemma {:induction false} InsertLength(x: ObjectRecord, s: seq<ObjectRecord>, leq: (string, string) -> bool)
    ensures |Insert(x, s, leq)| == |s| + 1
  {
    if s != [] && !leq(x.key, s[0].key) {
      InsertLength(x, s[1..], leq);
    }
  }

  /** Distinct keys, said in a way that does not see the order. */
  lemma {:induction false} DistinctByMultiset(s: seq<ObjectRecord>)
    ensures DistinctKeys(s) <==>
      forall a, b :: a in multiset(s) && b in multiset(s) && a.key == b.key ==> a == b && multiset(s)[a] == 1
  {
    if s != [] {
      var init, last := s[..|s| - 1], s[|s| - 1];
      DistinctByMultiset(init);
      assert s == init + [last];
      assert multiset(s) == multiset(init) + multiset{last};
      assert DistinctKeys(s) <==> DistinctKeys(init) && forall a :: a in init ==> a.key != last.key;
      assert forall a :: a in init <==> a in multiset(init);
    }
  }

  lemma {:induction false} SameRecordsAlike(a: seq<ObjectRecord>, b: seq<ObjectRecord>)
    requires multiset(a) == multiset(b)
    ensures DistinctKeys(a) <==> DistinctKeys(b)
    ensures forall x :: x in a <==> x in b
  {
    DistinctByMultiset(a);
    DistinctByMultiset(b);
    assert forall x :: x in a <==> x in multiset(a);
    assert forall x :: x in b <==> x in multiset(b);
  }

  ghost predicate AllValid(s: seq<ObjectRecord>) {
    forall x :: x in s ==> ValidRecord(x)
  }

  lemma {:induction false} CanonicalIsValid(index: Index, leq: (string, string) -> bool)
    requires IsLocaleOrder(leq)
    ensures ValidIndex(Canonicalize(index, leq)) <==> ValidIndex(index)
  {
    var sorted := Sort(index.objects, leq);
    SortSorts(index.objects, leq);
    TotalOfSort(index.objects, leq);
    SameRecordsAlike(index.objects, sorted);
    assert AllValid(sorted) <==> AllValid(index.objects);
  }

  // ---------------------------------------------------------------- the backup run

  datatype Manifest = Manifest(key: string, sizeBytes: nat, sha256: Sha)

  datatype Snapshot = Snapshot(schemaVersion: int, snapshotId: string, dump: Bytes, manifests: seq<Manifest>)

  /** The store has exactly the bytes each manifest promises. */
  ghost predicate StoreMatches(manifests: seq<Manifest>, store: map<string, Bytes>) {
    forall i :: 0 <= i < |manifests| ==> ObjectMatches(manifests[i], store)
  }

  predicate ObjectMatches(m: Manifest, store: map<string, Bytes>) {
    m.key in store && |store[m.key]| == m.sizeBytes && Sha(store[m.key]) == m.sha256
  }

  function RecordFor(m: Manifest): ObjectRecord {
    ObjectRecord(m.key, ObjectRelativePath(m.sha256), m.sizeBytes, m.sha256)
  }

  function RecordsFor(manifests: seq<Manifest>): (records: seq<ObjectRecord>)
    ensures |records| == |manifests| && forall i :: 0 <= i < |manifests| ==> records[i] == RecordFor(manifests[i])
  {
    seq(|manifests|, i requires 0 <= i < |manifests| => RecordFor(manifests[i]))
  }

  /** The first segments of the keys, each once. */
  function Tenants(keys: seq<string>): seq<string> {
    if keys == [] then []
    else
      var before := Tenants(keys[..|keys| - 1]);
      var tenant := UpToSlash(keys[|keys| - 1]);
      if tenant == "" || tenant in before then before else before + [tenant]
  }

  function UpToSlash(key: string): string {
    if key == "" || key[0] == '/' then "" else [key[0]] + UpToSlash(key[1..])
  }

  datatype BackupError = BackupFailed | Crashed

  /** A file system of directories; `snapshots` is the history of everything another process could have seen. */
  class BackupDisk {
    var dirs: map<string, Directory>
    ghost var seen: seq<map<string, Directory>>

    constructor (dirs: map<string, Directory>)
      ensures this.dirs == dirs && seen == []
    {
      this.dirs, seen := dirs, [];
    }

    method Write(dir: string, path: Path, content: Content)
      requires dir in dirs
      modifies this
      ensures dirs == old(dirs)[dir := old(dirs)[dir][path := content]] && seen == old(seen) + [dirs]
    {
      dirs := dirs[dir := dirs[dir][path := content]];
      seen := seen + [dirs];
    }

    method MakeEmpty(dir: string)
      modifies this
      ensures dirs == old(dirs)[dir := map[]] && seen == old(seen) + [dirs]
    {
      dirs := dirs[dir := map[]];
      seen := seen + [dirs];
    }

    method Remove(dir: string)
      modifies this
      ensures dirs == old(dirs) - {dir} && seen == old(seen) + [dirs]
    {
      dirs := dirs - {dir};
      seen := seen + [dirs];
    }

    method Rename(from: string, to: string)
      requires from in dirs && from != to
      modifies this
      ensures dirs == (old(dirs) - {from})[to := old(dirs)[from]] && seen == old(seen) + [dirs]
    {
      dirs := (dirs - {from})[to := dirs[from]];
      seen := seen + [dirs];
    }
  }

  /** Nobody ever saw the final directory but as a backup that verifies with this index. */
  ghost predicate NeverIncomplete(seen: seq<map<string, Directory>>, final: string, index: Index, leq: (string, string) -> bool) {
    forall i :: 0 <= i < |seen| ==> final in seen[i] ==> Verifies(seen[i][final], index, leq)
  }

  ghost predicate NeverSeen(seen: seq<map<string, Directory>>, final: string) {
    forall i :: 0 <= i < |seen| ==> final !in seen[i]
  }

  /** The objects copied so far, each under the address of its content. */
  ghost predicate Copied(dir: Directory, manifests: seq<Manifest>, n: nat) {
    forall i :: 0 <= i < n && i < |manifests| ==>
      Matches(dir, ObjectRelativePath(manifests[i].sha256), manifests[i].sizeBytes, manifests[i].sha256)
  }

  /** Copy the objects one by one; keys may share an address, which then gets the same bytes again. */
  method CopyObjects(disk: BackupDisk, staging: string, final: string, manifests: seq<Manifest>, store: map<string, Bytes>, dump: Bytes)
    returns (r: Result<(seq<ObjectRecord>, nat), BackupError>)
    requires staging in disk.dirs && disk.dirs[staging] == map[DumpFile := Raw(dump)]
    requires staging != final && final !in disk.dirs && NeverSeen(disk.seen, final)
    modifies disk
    ensures staging in disk.dirs && final !in disk.dirs && NeverSeen(disk.seen, final)
    ensures r.Ok? ==>
      && StoreMatches(manifests, store) && r.value.0 == RecordsFor(manifests) && r.value.1 == TotalBytes(RecordsFor(manifests))
      && Copied(disk.dirs[staging], manifests, |manifests|)
      && DumpFile in disk.dirs[staging] && disk.dirs[staging][DumpFile] == Raw(dump)
    ensures r == Err(BackupFailed) ==> !StoreMatches(manifests, store)
  {
    var objects: seq<ObjectRecord> := [];
    var totalBytes := 0;
    var i := 0;
    while i < |manifests|
      invariant 0 <= i <= |manifests| && staging in disk.dirs && final !in disk.dirs && NeverSeen(disk.seen, final)
      invariant forall k :: 0 <= k < i ==> ObjectMatches(manifests[k], store)
      invariant objects == RecordsFor(manifests[..i]) && totalBytes == TotalBytes(objects)
      invariant Copied(disk.dirs[staging], manifests, i)
      invariant DumpFile in disk.dirs[staging] && disk.dirs[staging][DumpFile] == Raw(dump)
    {
      if * {
        return Err(Crashed);
      }
      var m := manifests[i];
      if !ObjectMatches(m, store) {
        return Err(BackupFailed);
      }
      disk.Write(staging, ObjectRelativePath(m.sha256), Raw(store[m.key]));
      assert RecordsFor(manifests[..i + 1]) == RecordsFor(manifests[..i]) + [RecordFor(m)];
      assert RecordsFor(manifests[..i + 1])[..i] == RecordsFor(manifests[..i]);
      objects := objects + [RecordFor(m)];
      totalBytes := totalBytes + m.sizeBytes;
      i := i + 1;
    }
    assert manifests[..i] == manifests;
    return Ok((objects, totalBytes));
  }

  datatype Invocation = Invocation(invocationId: string, createdAt: string, productVersion: string)

  function IndexFor(inv: Invocation, snapshot: Snapshot, leq: (string, string) -> bool): Index {
    var objects := RecordsFor(snapshot.manifests);
    Index(inv.invocationId, inv.createdAt, inv.productVersion,
          DatabaseRecord(|snapshot.dump|, Sha(snapshot.dump), snapshot.schemaVersion, snapshot.snapshotId),
          objects, SortNames(Tenants(Keys(objects)), leq), |objects|, TotalBytes(objects))
  }

  function Keys(objects: seq<ObjectRecord>): seq<string> {
    seq(|objects|, i requires 0 <= i < |objects| => objects[i].key)
  }

  lemma {:induction false} StagedVerifies(dir: Directory, inv: Invocation, snapshot: Snapshot, leq: (string, string) -> bool)
    requires IsLocaleOrder(leq)
    requires var index := IndexFor(inv, snapshot, leq);
      && MarkerFile in dir && IndexFile in dir && dir[IndexFile] == IndexText(Canonicalize(index, leq)) && ValidIndex(index)
    requires DumpFile in dir && dir[DumpFile] == Raw(snapshot.dump) && Copied(dir, snapshot.manifests, |snapshot.manifests|)
    ensures Verifies(dir, Canonicalize(IndexFor(inv, snapshot, leq), leq), leq)
  {
    var index := IndexFor(inv, snapshot, leq);
    var sorted := Canonicalize(index, leq);
    CanonicalIsFixed(index, leq);
    CanonicalIsValid(index, leq);
    SameRecordsAlike(sorted.objects, index.objects);
    forall i | 0 <= i < |sorted.objects|
      ensures Matches(dir, sorted.objects[i].relativePath, sorted.objects[i].sizeBytes, sorted.objects[i].sha256)
    {
      assert sorted.objects[i] in index.objects;
      var k :| 0 <= k < |index.objects| && index.objects[k] == sorted.objects[i];
      assert index.objects[k] == RecordFor(snapshot.manifests[k]);
    }
  }

  /**
   Take a backup into a fresh directory.  A run that is not cut short succeeds exactly when every object
   is as its manifest says and the index is one the parser accepts; its directory then verifies with the
   canonical index.  Whatever happens, nobody ever sees the final directory in any other state.
   */
  method RunBackup(disk: BackupDisk, staging: string, final: string, inv: Invocation, snapshot: Snapshot, store: map<string, Bytes>,
                   leq: (string, string) -> bool)
    returns (r: Result<Index, BackupError>)
    requires IsLocaleOrder(leq) && staging != final && final !in disk.dirs && disk.seen == []
    modifies disk
    ensures r.Ok? ==> r.value == IndexFor(inv, snapshot, leq) && final in disk.dirs && staging !in disk.dirs
    ensures r.Ok? ==> Verifies(disk.dirs[final], Canonicalize(r.value, leq), leq)
    ensures r != Err(Crashed) ==> (r.Ok? <==> StoreMatches(snapshot.manifests, store) && ValidIndex(IndexFor(inv, snapshot, leq)))
    ensures r == Err(BackupFailed) ==> final !in disk.dirs && staging !in disk.dirs
    ensures NeverIncomplete(disk.seen, final, Canonicalize(IndexFor(inv, snapshot, leq), leq), leq)
  {
    disk.Remove(staging);
    disk.MakeEmpty(staging);
    disk.Write(staging, DumpFile, Raw(snapshot.dump));
    assert disk.dirs[staging] == map[DumpFile := Raw(snapshot.dump)];
    var copied := CopyObjects(disk, staging, final, snapshot.manifests, store, snapshot.dump);
    if copied.Err? {
      if copied.error == BackupFailed {
        disk.Remove(staging);
      }
      return Err(copied.error);
    }
    var (objects, totalBytes) := copied.value;
    var index := Index(inv.invocationId, inv.createdAt, inv.productVersion,
                       DatabaseRecord(|snapshot.dump|, Sha(snapshot.dump), snapshot.schemaVersion, snapshot.snapshotId),
                       objects, SortNames(Tenants(Keys(objects)), leq), |objects|, totalBytes);
    CompletedVerifies(disk.dirs[staging], inv, snapshot, leq);
    r := Publish(disk, staging, final, index, leq);
  }

  /** The directory with the index and the marker added to what was copied. */
  function Completed(dir: Directory, canonical: Index): Directory {
    dir[IndexFile := IndexText(canonical)][MarkerFile := Raw([])]
  }

  lemma {:induction false} CompletedVerifies(dir: Directory, inv: Invocation, snapshot: Snapshot, leq: (string, string) -> bool)
    requires IsLocaleOrder(leq) && Copied(dir, snapshot.manifests, |snapshot.manifests|)
    requires DumpFile in dir && dir[DumpFile] == Raw(snapshot.dump)
    ensures var index := IndexFor(inv, snapshot, leq);
      ValidIndex(index) ==> Verifies(Completed(dir, Canonicalize(index, leq)), Canonicalize(index, leq), leq)
  {
    var index := IndexFor(inv, snapshot, leq);
    if ValidIndex(index) {
      var done := Completed(dir, Canonicalize(index, leq));
      CopiedSurvives(dir, done, snapshot.manifests);
      StagedVerifies(done, inv, snapshot, leq);
    }
  }

  /** The index just written parses, and prints the same again. */
  method ReadsBack(index: Index, leq: (string, string) -> bool) returns (sound: bool)
    requires IsLocaleOrder(leq)
    ensures sound <==> ValidIndex(index)
  {
    CanonicalIsFixed(index, leq);
    CanonicalIsValid(index, leq);
    var canonical := Canonicalize(index, leq);
    var parsed := ParseIndex(canonical);
    return parsed && Canonicalize(canonical, leq) == canonical;
  }

  /** Index, check of the index, marker and rename. */
  method Publish(disk: BackupDisk, staging: string, final: string, index: Index, leq: (string, string) -> bool) returns (r: Result<Index, BackupError>)
    requires IsLocaleOrder(leq) && staging != final && staging in disk.dirs && final !in disk.dirs && NeverSeen(disk.seen, final)
    requires ValidIndex(index) ==> Verifies(Completed(disk.dirs[staging], Canonicalize(index, leq)), Canonicalize(index, leq), leq)
    modifies disk
    ensures r.Ok? ==> r.value == index && final in disk.dirs && staging !in disk.dirs
    ensures r.Ok? ==> Verifies(disk.dirs[final], Canonicalize(index, leq), leq)
    ensures r != Err(Crashed) ==> (r.Ok? <==> ValidIndex(index))
    ensures r == Err(BackupFailed) ==> final !in disk.dirs && staging !in disk.dirs
    ensures NeverIncomplete(disk.seen, final, Canonicalize(index, leq), leq)
  {
    var canonical := Canonicalize(index, leq);
    disk.Write(staging, IndexFile, IndexText(canonical));
    var sound := ReadsBack(index, leq);
    if !sound {
      disk.Remove(staging);
      return Err(BackupFailed);
    }
    if * {
      return Err(Crashed);
    }
    var renamed := Finish(disk, staging, final, canonical, leq);
    return if renamed then Ok(index) else Err(Crashed);
  }

  /** The marker is written last, then the whole directory moves into place. */
  method Finish(disk: BackupDisk, staging: string, final: string, canonical: Index, leq: (string, string) -> bool) returns (renamed: bool)
    requires staging != final && staging in disk.dirs && final !in disk.dirs && NeverSeen(disk.seen, final)
    requires Verifies(disk.dirs[staging][MarkerFile := Raw([])], canonical, leq)
    modifies disk
    ensures renamed ==> final in disk.dirs && staging !in disk.dirs && Verifies(disk.dirs[final], canonical, leq)
    ensures NeverIncomplete(disk.seen, final, canonical, leq)
  {
    disk.Write(staging, MarkerFile, Raw([]));
    disk.Remove(final);
    if * {
      return false;
    }
    disk.Rename(staging, final);
    return true;
  }

  lemma {:induction false} CopiedSurvives(dir: Directory, after: Directory, manifests: seq<Manifest>)
    requires Copied(dir, manifests, |manifests|)
    requires forall path :: path in dir && path.ObjectFile? ==> path in after && after[path] == dir[path]
    ensures Copied(after, manifests, |manifests|)
  {
  }
}
