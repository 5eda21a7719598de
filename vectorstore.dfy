/** The upsert of chunk rows into the vector collection. Each row is stored
    under a key made of its source document, document id and chunk id; the
    name-based UUID (version 5, section 4.3 of RFC 4122) computed from that
    triple is modelled as the triple itself, since it is injective. The
    collection is a map from keys to stored objects. */
module VectorStore {
  import opened Wrappers
  import opened Values

  /** A chunk row as read from JSON lines. */
  datatype Row = Row(
    sourceDoc: Field<string>,
    docId: Field<Scalar>,
    chunkId: Field<Scalar>,
    etype: Field<Scalar>,
    text: Field<string>,
    pageStart: Field<int>,
    pageEnd: Field<int>,
    embedding: Field<seq<real>>,
    vector: Field<seq<real>>)

  /** The properties stored with an object. */
  datatype Props = Props(
    sourceDoc: Option<string>,
    docId: string,
    chunkId: string,
    elementType: string,
    text: Option<string>,
    pageStart: Option<int>,
    pageEnd: Option<int>)

  /** `_props_from_obj(obj)` */
  function PropsFromObj(row: Row): Props {
    Props(row.sourceDoc.GetOrNull("unknown"), StrOf(row.docId), StrOf(row.chunkId), StrOf(row.etype),
          row.text.GetOrNull(""), row.pageStart.Get(), row.pageEnd.Get())
  }

  /** The defaults of the projection: an absent source document is
      "unknown", the three identifiers are strings ("" when absent, "None"
      when null), an absent text is "", and the pages pass through. */
  lemma PropsDefaults(row: Row)
    ensures row.sourceDoc.Absent? ==> PropsFromObj(row).sourceDoc == Some("unknown")
    ensures row.sourceDoc.Has? ==> PropsFromObj(row).sourceDoc == Some(row.sourceDoc.value)
    ensures row.docId.Absent? ==> PropsFromObj(row).docId == ""
    ensures row.docId.Null? ==> PropsFromObj(row).docId == "None"
    ensures row.chunkId.Absent? ==> PropsFromObj(row).chunkId == ""
    ensures row.etype.Absent? ==> PropsFromObj(row).elementType == ""
    ensures row.docId.Has? && row.docId.value.Text? ==> PropsFromObj(row).docId == row.docId.value.s
    ensures row.text.Absent? ==> PropsFromObj(row).text == Some("")
    ensures PropsFromObj(row).pageStart == row.pageStart.Get() && PropsFromObj(row).pageEnd == row.pageEnd.Get()
  {
  }

  /** The key triple the object's UUID is computed from. */
  datatype Key = Key(sourceDoc: Option<string>, docId: string, chunkId: string)

  function KeyOf(row: Row): Key {
    var p := PropsFromObj(row);
    Key(p.sourceDoc, p.docId, p.chunkId)
  }

  /** `obj.get("embedding") or obj.get("vector")`: a non-empty embedding,
      otherwise the vector (None when absent). */
  function VectorOf(row: Row): (v: Option<seq<real>>)
    ensures row.embedding.Has? && row.embedding.value != [] ==> v == Some(row.embedding.value)
    ensures !(row.embedding.Has? && row.embedding.value != []) ==> v == row.vector.Get()
  {
    if row.embedding.Has? && |row.embedding.value| > 0 then Some(row.embedding.value) else row.vector.Get()
  }

  /** What the collection holds under a key. */
  datatype Stored = Stored(props: Props, vector: Option<seq<real>>)

  function StoredOf(row: Row): Stored {
    Stored(PropsFromObj(row), VectorOf(row))
  }

  /** The collection: its objects, and the server's verdict on a write
      request. `rejects(k, s)` holds when the server refuses to store `s`
      under `k` for a reason of the request itself (a vector of the wrong
      dimension, properties that do not fit the schema); these are the
      errors `insert` and `replace` raise besides a taken or missing key. */
  class Collection {
    var objects: map<Key, Stored>
    const rejects: (Key, Stored) -> bool

    constructor(objects0: map<Key, Stored>, rejects0: (Key, Stored) -> bool)
      ensures objects == objects0 && rejects == rejects0
    {
      objects := objects0;
      rejects := rejects0;
    }

    /** `col.data.insert`: fails when the key is taken or the request is
        refused. */
    method Insert(k: Key, s: Stored) returns (ok: bool)
      modifies this
      ensures ok <==> k !in old(objects) && !rejects(k, s)
      ensures objects == if ok then old(objects)[k := s] else old(objects)
    {
      ok := k !in objects && !rejects(k, s);
      if ok {
        objects := objects[k := s];
      }
    }

    /** `col.data.replace`: fails when the key is missing or the request is
        refused. */
    method Replace(k: Key, s: Stored) returns (ok: bool)
      modifies this
      ensures ok <==> k in old(objects) && !rejects(k, s)
      ensures objects == if ok then old(objects)[k := s] else old(objects)
    {
      ok := k in objects && !rejects(k, s);
      if ok {
        objects := objects[k := s];
      }
    }
  }

  /** The server refuses the write of `row`. */
  predicate Rejected(row: Row, rejects: (Key, Stored) -> bool) {
    rejects(KeyOf(row), StoredOf(row))
  }

  /** The objects after upserting `rows` in order into `m`: every row whose
      write is not refused overwrites or creates the object at its key. */
  function Upserted(m: map<Key, Stored>, rows: seq<Row>, rejects: (Key, Stored) -> bool): map<Key, Stored>
  {
    if |rows| == 0 then m
    else
      var before := Upserted(m, rows[..|rows| - 1], rejects);
      var row := rows[|rows| - 1];
      if Rejected(row, rejects) then before else before[KeyOf(row) := StoredOf(row)]
  }

  /** The number of rows whose upsert fails. */
  function Failures(rows: seq<Row>, rejects: (Key, Stored) -> bool): (n: nat)
    ensures n <= |rows|
  {
    if |rows| == 0 then 0
    else Failures(rows[..|rows| - 1], rejects) + if Rejected(rows[|rows| - 1], rejects) then 1 else 0
  }

  lemma UpsertedStep(m: map<Key, Stored>, rows: seq<Row>, i: nat, rejects: (Key, Stored) -> bool)
    requires i < |rows|
    ensures Upserted(m, rows[..i + 1], rejects)
            == if Rejected(rows[i], rejects) then Upserted(m, rows[..i], rejects)
               else Upserted(m, rows[..i], rejects)[KeyOf(rows[i]) := StoredOf(rows[i])]
    ensures Failures(rows[..i + 1], rejects)
            == Failures(rows[..i], rejects) + if Rejected(rows[i], rejects) then 1 else 0
  {
    assert rows[..i + 1][..i] == rows[..i];
  }

  /** The upsert loop of `upload_objects`: insert under the row's key, and
      replace when the insert fails. Every row is counted once, as uploaded
      or as failed. */
  method UpsertObjects(col: Collection, rows: seq<Row>) returns (total: nat, failed: nat)
    modifies col
    ensures total + failed == |rows|
    ensures failed == Failures(rows, col.rejects)
    ensures col.objects == Upserted(old(col.objects), rows, col.rejects)
  {
    total, failed := 0, 0;
    for i := 0 to |rows|
      invariant col.objects == Upserted(old(col.objects), rows[..i], col.rejects)
      invariant failed == Failures(rows[..i], col.rejects)
      invariant total + failed == i
    {
      UpsertedStep(old(col.objects), rows, i, col.rejects);
      var stored := StoredOf(rows[i]);
      var key := KeyOf(rows[i]);
      var ok := col.Insert(key, stored);
      if !ok {
        ok := col.Replace(key, stored);
      }
      if ok {
        total := total + 1;
      } else {
        failed := failed + 1;
      }
    }
    assert rows[..|rows|] == rows;
  }

  /** Row `i` writes key `k`: it has that key and its write is not refused. */
  predicate WritesAt(rows: seq<Row>, rejects: (Key, Stored) -> bool, i: int, k: Key) {
    0 <= i < |rows| && KeyOf(rows[i]) == k && !Rejected(rows[i], rejects)
  }

  /** No row writes key `k`. */
  predicate Untouched(rows: seq<Row>, rejects: (Key, Stored) -> bool, k: Key) {
    forall i :: 0 <= i < |rows| ==> !WritesAt(rows, rejects, i, k)
  }

  /** Row `i` is the last row that writes key `k`; later rows with that key
      are all refused. */
  predicate LastAt(rows: seq<Row>, rejects: (Key, Stored) -> bool, i: int, k: Key) {
    WritesAt(rows, rejects, i, k) && forall j :: i < j < |rows| ==> !WritesAt(rows, rejects, j, k)
  }

  /** Keys no row writes keep what they held. */
  lemma {:induction false} UpsertedUntouched(m: map<Key, Stored>, rows: seq<Row>, rejects: (Key, Stored) -> bool, k: Key)
    requires Untouched(rows, rejects, k)
    ensures k in Upserted(m, rows, rejects) <==> k in m
    ensures k in m ==> Upserted(m, rows, rejects)[k] == m[k]
    decreases |rows|
  {
    if |rows| > 0 {
      var u := rows[..|rows| - 1];
      assert forall i :: 0 <= i < |u| ==> u[i] == rows[i];
      assert forall j :: 0 <= j < |u| ==> (WritesAt(u, rejects, j, k) <==> WritesAt(rows, rejects, j, k));
      assert !WritesAt(rows, rejects, |rows| - 1, k);
      UpsertedUntouched(m, u, rejects, k);
    }
  }

  /** Each key written ends up holding the last row under it whose write was
      not refused: a refused later row leaves the earlier one in place. */
  lemma {:induction false} UpsertedLast(m: map<Key, Stored>, rows: seq<Row>, rejects: (Key, Stored) -> bool, i: int, k: Key)
    requires LastAt(rows, rejects, i, k)
    ensures k in Upserted(m, rows, rejects) && Upserted(m, rows, rejects)[k] == StoredOf(rows[i])
    decreases |rows|
  {
    if i < |rows| - 1 {
      var u := rows[..|rows| - 1];
      assert forall j :: 0 <= j < |u| ==> u[j] == rows[j];
      assert forall j :: 0 <= j < |u| ==> (WritesAt(u, rejects, j, k) <==> WritesAt(rows, rejects, j, k));
      assert !WritesAt(rows, rejects, |rows| - 1, k);
      UpsertedLast(m, u, rejects, i, k);
    }
  }

  /** The keys present after the upsert: the old ones plus those of the rows
      whose write is not refused. */
  lemma {:induction false} UpsertedKeys(m: map<Key, Stored>, rows: seq<Row>, rejects: (Key, Stored) -> bool)
    ensures Upserted(m, rows, rejects).Keys
            == m.Keys + (set i | 0 <= i < |rows| && !Rejected(rows[i], rejects) :: KeyOf(rows[i]))
    decreases |rows|
  {
    if |rows| > 0 {
      var u := rows[..|rows| - 1];
      UpsertedKeys(m, u, rejects);
      assert forall i :: 0 <= i < |u| ==> u[i] == rows[i];
    }
  }

  /** Uploading the same rows again changes nothing, so in particular the
      number of objects stays the same. */
  lemma UpsertIdempotent(m: map<Key, Stored>, rows: seq<Row>, rejects: (Key, Stored) -> bool)
    ensures Upserted(Upserted(m, rows, rejects), rows, rejects) == Upserted(m, rows, rejects)
    ensures |Upserted(Upserted(m, rows, rejects), rows, rejects).Keys| == |Upserted(m, rows, rejects).Keys|
  {
    var once := Upserted(m, rows, rejects);
    var twice := Upserted(once, rows, rejects);
    UpsertedKeys(m, rows, rejects);
    UpsertedKeys(once, rows, rejects);
    forall k | k in once
      ensures twice[k] == once[k]
    {
      if Untouched(rows, rejects, k) {
        UpsertedUntouched(once, rows, rejects, k);
      } else {
        var i := LastWith(rows, rejects, k);
        UpsertedLast(m, rows, rejects, i, k);
        UpsertedLast(once, rows, rejects, i, k);
      }
    }
  }

  /** The position of the last row that writes key `k`. */
  function LastWith(rows: seq<Row>, rejects: (Key, Stored) -> bool, k: Key): (i: nat)
    requires exists i :: WritesAt(rows, rejects, i, k)
    ensures LastAt(rows, rejects, i, k)
  {
    if WritesAt(rows, rejects, |rows| - 1, k) then |rows| - 1
    else
      var u := rows[..|rows| - 1];
      assert forall j :: 0 <= j < |u| ==> u[j] == rows[j];
      assert forall j :: 0 <= j < |u| ==> (WritesAt(u, rejects, j, k) <==> WritesAt(rows, rejects, j, k));
      var w :| WritesAt(rows, rejects, w, k);
      assert WritesAt(u, rejects, w, k);
      LastWith(u, rejects, k)
  }

  /** Rows that agree on the key triple target the same object: after
      uploading two of them, that object holds the second when its write is
      accepted. */
  lemma SameTripleSameObject(m: map<Key, Stored>, first: Row, second: Row, rejects: (Key, Stored) -> bool)
    requires PropsFromObj(first).sourceDoc == PropsFromObj(second).sourceDoc
    requires PropsFromObj(first).docId == PropsFromObj(second).docId
    requires PropsFromObj(first).chunkId == PropsFromObj(second).chunkId
    requires !Rejected(second, rejects)
    ensures Upserted(m, [first, second], rejects)[KeyOf(first)] == StoredOf(second)
    ensures Upserted(m, [first, second], rejects).Keys == m.Keys + {KeyOf(first)}
  {
    UpsertedLast(m, [first, second], rejects, 1, KeyOf(second));
    UpsertedKeys(m, [first, second], rejects);
  }

  /** When the second of two rows with the same key triple is refused on its
      own (its vector, say) and the first is accepted, the object keeps the
      first row and one failure is counted. */
  lemma SameTripleSecondRefused(m: map<Key, Stored>, first: Row, second: Row, rejects: (Key, Stored) -> bool)
    requires KeyOf(first) == KeyOf(second)
    requires !Rejected(first, rejects) && Rejected(second, rejects)
    ensures KeyOf(first) in Upserted(m, [first, second], rejects)
            && Upserted(m, [first, second], rejects)[KeyOf(first)] == StoredOf(first)
    ensures Failures([first, second], rejects) == 1
  {
    UpsertedLast(m, [first, second], rejects, 0, KeyOf(first));
    UpsertedStep(m, [first, second], 0, rejects);
    UpsertedStep(m, [first, second], 1, rejects);
    assert [first, second][..1] == [first];
    assert [first, second][..2] == [first, second];
    assert [first, second][..0] == [];
  }

  /** The `vectordb.upload` section: each key present overrides the
      argument of the same name, even with a null value. */
  datatype UploadSection = UploadSection(batchSize: Field<int>, concurrentRequests: Field<int>, upsert: Field<bool>)

  datatype UploadSettings = UploadSettings(batchSize: Option<int>, concurrentRequests: Option<int>, upsert: Option<bool>)

  function Settings(ucfg: UploadSection, batchSize: int, concurrentRequests: int, upsert: bool): (s: UploadSettings)
    ensures ucfg.batchSize.Absent? ==> s.batchSize == Some(batchSize)
    ensures ucfg.batchSize.Has? ==> s.batchSize == Some(ucfg.batchSize.value)
    ensures ucfg.concurrentRequests.Absent? ==> s.concurrentRequests == Some(concurrentRequests)
    ensures ucfg.concurrentRequests.Has? ==> s.concurrentRequests == Some(ucfg.concurrentRequests.value)
    ensures ucfg.upsert.Absent? ==> s.upsert == Some(upsert)
    ensures ucfg.upsert.Has? ==> s.upsert == Some(ucfg.upsert.value)
  {
    UploadSettings(ucfg.batchSize.GetOrNull(batchSize), ucfg.concurrentRequests.GetOrNull(concurrentRequests),
                   ucfg.upsert.GetOrNull(upsert))
  }

  /** The upsert path is taken exactly when the effective `upsert` is true;
      a null value counts as false. */
  predicate UpsertPath(ucfg: UploadSection, upsert: bool) {
    Settings(ucfg, 100, 4, upsert).upsert == Some(true)
  }
}
