/** The two stores behind the control plane: one with an index over the keys, one that scans its file. */
module OperationStore {
  import opened Wrappers
  import opened RuntimeModels
  import opened Text
  import opened StorePayloads

  /** What a store holds. A file that was never written holds nothing. */
  datatype StoreView =
    | MemoryView(snapshot: RuntimeSnapshot, records: map<string, OperationRecord>, index: map<string, string>)
    | FileView(saved: Option<RuntimeSnapshot>, records: map<string, OperationRecord>)

  function Loaded(v: StoreView): RuntimeSnapshot {
    match v
    case MemoryView(snapshot, _, _) => snapshot
    case FileView(saved, _) => if saved.Some? then saved.value else EMPTY_SNAPSHOT
  }

  function WithSnapshot(v: StoreView, s: RuntimeSnapshot): StoreView {
    match v
    case MemoryView(_, _, _) => v.(snapshot := s)
    case FileView(_, _) => v.(saved := Some(s))
  }

  function WithRecord(v: StoreView, r: OperationRecord): StoreView {
    var records := v.records[r.receipt.operationId := r];
    match v
    case MemoryView(_, _, index) =>
      v.(records := records, index := if r.idempotencyKey != "" then index[r.idempotencyKey := r.receipt.operationId]
          else index)
    case FileView(_, _) => v.(records := records)
  }

  /**
    Among the records with the key, the one whose operation id sorts first: the file lists its records in that order.
   */
  predicate IsFirst(records: map<string, OperationRecord>, key: string, id: string) {
    && id in records && records[id].idempotencyKey == key
    && forall other :: other in records && records[other].idempotencyKey == key ==> LexLe(id, other)
  }

  ghost function Scan(records: map<string, OperationRecord>, key: string): Option<OperationRecord> {
    if exists id :: IsFirst(records, key, id) then
      var id :| IsFirst(records, key, id);
      Some(records[id])
    else None
  }

  function Lookup(
    records: map<string, OperationRecord>, index: map<string, string>, key: string): Option<OperationRecord> {
    if key in index && index[key] in records then Some(records[index[key]]) else None
  }

  ghost function Find(v: StoreView, key: string): Option<OperationRecord> {
    match v
    case MemoryView(_, records, index) => Lookup(records, index, key)
    case FileView(_, records) => Scan(records, key)
  }

  lemma FirstIsUnique(records: map<string, OperationRecord>, key: string, a: string, b: string)
    requires IsFirst(records, key, a) && IsFirst(records, key, b)
    ensures a == b
  {
    LexAntisymmetric(a, b);
  }

  lemma {:induction false} LeastExists(ids: set<string>)
    requires ids != {}
    ensures exists least :: least in ids && forall id :: id in ids ==> LexLe(least, id)
    decreases |ids|
  {
    hide LexLe;
    var id :| id in ids;
    LexTotal(id, id);
    var rest := ids - {id};
    assert forall other :: other in ids ==> other == id || other in rest;
    if rest != {} {
      LeastExists(rest);
      var least :| least in rest && forall other :: other in rest ==> LexLe(least, other);
      LexTotal(least, id);
      if !LexLe(least, id) {
        forall other | other in ids ensures LexLe(id, other) {
          if other != id {
            LexTransitive(id, least, other);
          }
        }
      }
    }
  }

  function Holders(records: map<string, OperationRecord>, key: string): set<string> {
    set id | id in records.Keys && records[id].idempotencyKey == key
  }

  /** The scan finds a record exactly when some record has the key. */
  lemma ScanFinds(records: map<string, OperationRecord>, key: string)
    ensures Scan(records, key).Some? <==> Holders(records, key) != {}
    ensures forall id :: IsFirst(records, key, id) ==> Scan(records, key) == Some(records[id])
  {
    if Holders(records, key) != {} {
      LeastExists(Holders(records, key));
      var least :| least in Holders(records, key) && forall id :: id in Holders(records, key) ==> LexLe(least, id);
      assert forall other :: other in records && records[other].idempotencyKey == key ==>
          other in Holders(records, key);
      assert IsFirst(records, key, least);
    }
    forall id | IsFirst(records, key, id) ensures Scan(records, key) == Some(records[id]) {
      var chosen :| IsFirst(records, key, chosen) && Scan(records, key) == Some(records[chosen]);
      FirstIsUnique(records, key, id, chosen);
    }
    if Scan(records, key).Some? {
      var id :| IsFirst(records, key, id);
      assert id in Holders(records, key);
    }
  }

  lemma OnlyHolderIsFound(records: map<string, OperationRecord>, key: string, id: string)
    requires Holders(records, key) == {id}
    ensures Scan(records, key) == Some(records[id])
  {
    assert id in Holders(records, key);
    LexTotal(id, id);
    forall other | other in records && records[other].idempotencyKey == key ensures LexLe(id, other) {
      assert other in Holders(records, key);
    }
    assert IsFirst(records, key, id);
    ScanFinds(records, key);
  }

  // ---------------------------------------------------------------- the stores

  class InMemoryControlPlaneStore {
    var snapshot: RuntimeSnapshot
    var records: map<string, OperationRecord>
    var idempotency: map<string, string>

    function View(): StoreView
      reads this
    {
      MemoryView(snapshot, records, idempotency)
    }

    constructor (initial: Option<RuntimeSnapshot>)
      ensures View() == MemoryView(if initial.Some? then initial.value else EMPTY_SNAPSHOT, map[], map[])
    {
      snapshot := if initial.Some? then initial.value else EMPTY_SNAPSHOT;
      records, idempotency := map[], map[];
    }

    method LoadSnapshot() returns (s: RuntimeSnapshot)
      ensures s == Loaded(View())
    {
      s := snapshot;
    }

    method SaveSnapshot(s: RuntimeSnapshot)
      modifies this
      ensures View() == WithSnapshot(old(View()), s)
    {
      snapshot := s;
    }

    method LoadRecords() returns (all: map<string, OperationRecord>)
      ensures all == View().records
    {
      all := records;
    }

    method SaveRecord(record: OperationRecord)
      modifies this
      ensures View() == WithRecord(old(View()), record)
    {
      records := records[record.receipt.operationId := record];
      if record.idempotencyKey != "" {
        idempotency := idempotency[record.idempotencyKey := record.receipt.operationId];
      }
    }

    method FindByIdempotency(key: string) returns (found: Option<OperationRecord>)
      ensures found == Find(View(), key)
    {
      if key !in idempotency {
        return None;
      }
      var operationId := idempotency[key];
      found := if operationId in records then Some(records[operationId]) else None;
    }
  }

  class LocalControlPlaneStore {
    var snapshotFile: Option<Json>
    var operationsFile: Option<Json>

    /** The files are ones that this store wrote. */
    predicate Valid()
      reads this
    {
      && (snapshotFile.Some? ==> SnapshotFrom(snapshotFile.value).Returned?)
      && (operationsFile.Some? ==> RecordsFrom(operationsFile.value).Returned?)
    }

    function View(): StoreView
      requires Valid()
      reads this
    {
      FileView(if snapshotFile.Some? then Some(SnapshotFrom(snapshotFile.value).value) else None,
               if operationsFile.Some? then RecordsFrom(operationsFile.value).value else map[])
    }

    /** A store on an empty directory. */
    constructor ()
      ensures Valid() && View() == FileView(None, map[])
    {
      snapshotFile, operationsFile := None, None;
    }

    method LoadSnapshot() returns (s: RuntimeSnapshot)
      requires Valid()
      ensures s == Loaded(View())
    {
      if snapshotFile.None? {
        return EMPTY_SNAPSHOT;
      }
      s := SnapshotFrom(snapshotFile.value).value;
    }

    method SaveSnapshot(s: RuntimeSnapshot)
      requires Valid()
      modifies this`snapshotFile
      ensures Valid() && View() == WithSnapshot(old(View()), s)
    {
      hide SnapshotFrom, SnapshotPayload, RecordsFrom;
      SnapshotRoundTrip(s);
      snapshotFile := Some(SnapshotPayload(s));
    }

    method LoadRecords() returns (all: map<string, OperationRecord>)
      requires Valid()
      ensures all == View().records
    {
      if operationsFile.None? {
        return map[];
      }
      all := RecordsFrom(operationsFile.value).value;
    }

    /** Reads the whole file, adds the record, and writes the whole file. */
    method SaveRecord(record: OperationRecord)
      requires Valid()
      modifies this`operationsFile
      ensures Valid() && View() == WithRecord(old(View()), record)
    {
      hide SnapshotFrom, RecordsFrom, RecordsPayload;
      var all := LoadRecords();
      all := all[record.receipt.operationId := record];
      RecordsRoundTrip(all);
      operationsFile := Some(RecordsPayload(all));
    }

    /** Goes through the records in the order in which the file lists them and stops at the first with the key. */
    method FindByIdempotency(key: string) returns (found: Option<OperationRecord>)
      requires Valid()
      ensures found == Find(View(), key)
    {
      hide SnapshotFrom, RecordsFrom, LexLe;
      var all := LoadRecords();
      var todo := all.Keys;
      ScanFinds(all, key);
      while todo != {}
        invariant todo <= all.Keys
        invariant forall id :: id in all.Keys - todo ==> all[id].idempotencyKey != key
        invariant forall id, other :: id in todo && other in all.Keys - todo ==> LexLe(other, id)
      {
        LeastExists(todo);
        var id :| id in todo && forall other :: other in todo ==> LexLe(id, other);
        if all[id].idempotencyKey == key {
          assert IsFirst(all, key, id);
          return Some(all[id]);
        }
        todo := todo - {id};
      }
      assert Holders(all, key) == {};
      return None;
    }
  }

  /** Either store, behind one interface. */
  datatype Store = InMemory(memory: InMemoryControlPlaneStore) | Local(files: LocalControlPlaneStore)

  function Footprint(store: Store): set<object> {
    match store
    case InMemory(memory) => {memory}
    case Local(files) => {files}
  }

  predicate Ready(store: Store)
    reads Footprint(store)
  {
    store.Local? ==> store.files.Valid()
  }

  function ViewOf(store: Store): StoreView
    requires Ready(store)
    reads Footprint(store)
  {
    match store
    case InMemory(memory) => memory.View()
    case Local(files) => files.View()
  }

  method StoreSnapshot(store: Store, s: RuntimeSnapshot)
    requires Ready(store)
    modifies Footprint(store)
    ensures Ready(store) && ViewOf(store) == WithSnapshot(old(ViewOf(store)), s)
  {
    match store
    case InMemory(memory) => memory.SaveSnapshot(s);
    case Local(files) => files.SaveSnapshot(s);
  }

  method StoreRecord(store: Store, record: OperationRecord)
    requires Ready(store)
    modifies Footprint(store)
    ensures Ready(store) && ViewOf(store) == WithRecord(old(ViewOf(store)), record)
  {
    match store
    case InMemory(memory) => memory.SaveRecord(record);
    case Local(files) => files.SaveRecord(record);
  }

  method FindStored(store: Store, key: string) returns (found: Option<OperationRecord>)
    requires Ready(store)
    ensures found == Find(ViewOf(store), key)
  {
    match store
    case InMemory(memory) => found := memory.FindByIdempotency(key);
    case Local(files) => found := files.FindByIdempotency(key);
  }

  method Load(store: Store) returns (snapshot: RuntimeSnapshot, records: map<string, OperationRecord>)
    requires Ready(store)
    ensures snapshot == Loaded(ViewOf(store)) && records == ViewOf(store).records
  {
    match store
    case InMemory(memory) =>
      snapshot := memory.LoadSnapshot();
      records := memory.LoadRecords();
    case Local(files) =>
      snapshot := files.LoadSnapshot();
      records := files.LoadRecords();
  }

  // ------------------------------------------------------- index refines scan

  function SaveAll(v: StoreView, log: seq<OperationRecord>): StoreView {
    if log == [] then v else WithRecord(SaveAll(v, log[..|log| - 1]), log[|log| - 1])
  }

  const EMPTY_MEMORY := MemoryView(EMPTY_SNAPSHOT, map[], map[])
  const EMPTY_FILE := FileView(None, map[])

  /** The operation that used the key last. */
  function LastUser(log: seq<OperationRecord>, key: string): Option<string> {
    if log == [] then None
    else if log[|log| - 1].idempotencyKey == key then Some(log[|log| - 1].receipt.operationId)
    else LastUser(log[..|log| - 1], key)
  }

  predicate NamedRecords(records: map<string, OperationRecord>) {
    forall id :: id in records ==> records[id].receipt.operationId == id
  }

  lemma {:induction false} SavedRecords(log: seq<OperationRecord>)
    ensures SaveAll(EMPTY_MEMORY, log).MemoryView? && SaveAll(EMPTY_FILE, log).FileView?
    ensures SaveAll(EMPTY_MEMORY, log).records == SaveAll(EMPTY_FILE, log).records
    ensures NamedRecords(SaveAll(EMPTY_FILE, log).records)
    ensures forall key :: key != "" ==>
              var index := SaveAll(EMPTY_MEMORY, log).index;
              if LastUser(log, key).Some? then key in index && index[key] == LastUser(log, key).value
                  && index[key] in SaveAll(EMPTY_FILE, log).records
              else key !in index
    ensures forall id :: id in SaveAll(EMPTY_FILE, log).records ==> SaveAll(EMPTY_FILE, log).records[id] in log
    ensures forall key :: LastUser(log, key).None? ==> forall r :: r in log ==> r.idempotencyKey != key
  {
    if log != [] {
      SavedRecords(log[..|log| - 1]);
      assert log == log[..|log| - 1] + [log[|log| - 1]];
    }
  }

  /**
    After any sequence of saves the index and the scan answer alike exactly for the keys that were never used or
    whose last user still holds the key and sorts before every other holder.
   */
  lemma IndexAgreesWithScanIff(log: seq<OperationRecord>, key: string)
    requires key != ""
    ensures var records := SaveAll(EMPTY_FILE, log).records;
            Find(SaveAll(EMPTY_MEMORY, log), key) == Find(SaveAll(EMPTY_FILE, log), key)
            <==> (LastUser(log, key).None? || IsFirst(records, key, LastUser(log, key).value))
  {
    SavedRecords(log);
    var records := SaveAll(EMPTY_FILE, log).records;
    ScanFinds(records, key);
    if LastUser(log, key).None? {
      assert Holders(records, key) == {};
    } else if Find(SaveAll(EMPTY_MEMORY, log), key) == Find(SaveAll(EMPTY_FILE, log), key) {
      var first :| IsFirst(records, key, first);
      assert records[first] == records[LastUser(log, key).value];
    }
  }

  /** Each non-empty key belongs to one operation, and each operation keeps its key. */
  predicate OneToOne(log: seq<OperationRecord>) {
    forall i, j :: 0 <= i < |log| && 0 <= j < |log| && log[i].idempotencyKey != "" ==>
      (log[i].idempotencyKey == log[j].idempotencyKey <==> log[i].receipt.operationId == log[j].receipt.operationId)
  }

  lemma {:induction false} LastUserUsed(log: seq<OperationRecord>, key: string)
    requires LastUser(log, key).Some?
    ensures exists i ::
      0 <= i < |log| && log[i].idempotencyKey == key && log[i].receipt.operationId == LastUser(log, key).value
  {
    if log[|log| - 1].idempotencyKey != key {
      LastUserUsed(log[..|log| - 1], key);
    }
  }

  /** So the two stores are interchangeable as long as keys and operations correspond one to one. */
  lemma IndexRefinesScan(log: seq<OperationRecord>, key: string)
    requires OneToOne(log) && key != ""
    ensures Find(SaveAll(EMPTY_MEMORY, log), key) == Find(SaveAll(EMPTY_FILE, log), key)
  {
    IndexAgreesWithScanIff(log, key);
    SavedRecords(log);
    if LastUser(log, key).Some? {
      LastUserUsed(log, key);
      var records, id := SaveAll(EMPTY_FILE, log).records, LastUser(log, key).value;
      var i :| 0 <= i < |log| && log[i].idempotencyKey == key && log[i].receipt.operationId == id;
      assert records[id] in log;
      LexTotal(id, id);
      forall other | other in records && records[other].idempotencyKey == key ensures LexLe(id, other) {
        assert records[other] in log;
      }
      assert IsFirst(records, key, id);
    }
  }
}
