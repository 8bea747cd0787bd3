/** The keyed document store behind the three collections (actions, rules,
    users). A table is its documents in insertion order plus the next
    document id to hand out. Every document has a store-assigned document id
    and, separately, the record's own `id` field, which is what the bot
    searches and upserts on. Document ids start at 1, and the next one is the
    store's counter within one run, so none is handed out twice. */
module DocStore {
  import opened Wrappers

  datatype Doc<T> = Doc(docId: nat, id: int, body: T)

  /** A scalar a stored field can hold. */
  datatype Scalar = SBool(b: bool) | SInt(i: int) | SText(s: string) | SNull

  /** The interpreter's truth value of a scalar. */
  function Truthy(x: Scalar): bool {
    match x
    case SBool(b) => b
    case SInt(i) => i != 0
    case SText(s) => s != ""
    case SNull => false
  }

  datatype Table<T> = Table(docs: seq<Doc<T>>, nextDocId: nat)

  function Empty<T>(): (t: Table<T>)
    ensures WellFormed(t)
  {
    Table([], 1)
  }

  /** Document ids are positive, strictly increasing in store order and
      below the next id to hand out. */
  ghost predicate WellFormed<T>(t: Table<T>) {
    && t.nextDocId >= 1
    && (forall i :: 0 <= i < |t.docs| ==> 1 <= t.docs[i].docId < t.nextDocId)
    && (forall i, j :: 0 <= i < j < |t.docs| ==> t.docs[i].docId < t.docs[j].docId)
  }

  /** Records created by `InsertOwnId` carry their document id as record id. */
  ghost predicate OwnIds<T>(t: Table<T>) {
    forall i :: 0 <= i < |t.docs| ==> t.docs[i].id == t.docs[i].docId
  }

  /** In a table of own-id records the next document id is not yet a record id. */
  lemma NextIdIsFresh<T>(t: Table<T>)
    requires WellFormed(t) && OwnIds(t)
    ensures !HasId(t, t.nextDocId)
  {
  }

  /** At most one document carries a given record id. */
  ghost predicate UniqueIds<T>(t: Table<T>) {
    forall i, j :: 0 <= i < j < |t.docs| ==> t.docs[i].id != t.docs[j].id
  }

  predicate HasId<T>(t: Table<T>, id: int) {
    exists i | 0 <= i < |t.docs| :: t.docs[i].id == id
  }

  predicate HasDoc<T>(t: Table<T>, docId: nat) {
    exists i | 0 <= i < |t.docs| :: t.docs[i].docId == docId
  }

  /** Position of the first document with record id `id`. */
  function FirstIndex<T>(docs: seq<Doc<T>>, id: int): (k: nat)
    ensures k <= |docs|
    ensures k < |docs| ==> docs[k].id == id
    ensures forall i :: 0 <= i < k ==> docs[i].id != id
  {
    if |docs| == 0 then 0
    else if docs[0].id == id then 0
    else 1 + FirstIndex(docs[1..], id)
  }

  /** `search(where('id') == id)[0]`, or nothing when the search is empty. */
  function Find<T>(t: Table<T>, id: int): (r: Option<T>)
    ensures r.None? <==> !HasId(t, id)
    ensures r.Some? ==> exists i | 0 <= i < |t.docs| :: t.docs[i].id == id && t.docs[i].body == r.value
  {
    var k := FirstIndex(t.docs, id);
    if k < |t.docs| then Some(t.docs[k].body) else None
  }

  /** Every document with record id `id` gets the new body. */
  function Replace<T>(docs: seq<Doc<T>>, id: int, body: T): (r: seq<Doc<T>>)
    ensures |r| == |docs|
    ensures forall i :: 0 <= i < |r| ==> r[i].docId == docs[i].docId && r[i].id == docs[i].id
    ensures forall i :: 0 <= i < |r| ==> r[i].body == (if docs[i].id == id then body else docs[i].body)
  {
    if |docs| == 0 then []
    else [if docs[0].id == id then docs[0].(body := body) else docs[0]] + Replace(docs[1..], id, body)
  }

  /** A new document at the end of the table under the next document id. */
  function Insert<T>(t: Table<T>, id: int, body: T): (r: Table<T>)
    ensures r.docs == t.docs + [Doc(t.nextDocId, id, body)]
    ensures r.nextDocId == t.nextDocId + 1
  {
    Table(t.docs + [Doc(t.nextDocId, id, body)], t.nextDocId + 1)
  }

  /** `upsert(record, where('id') == id)`: update every document with that
      record id, or insert one when there is none. */
  function Upsert<T>(t: Table<T>, id: int, body: T): (r: Table<T>)
    ensures HasId(t, id) ==> r == Table(Replace(t.docs, id, body), t.nextDocId)
    ensures !HasId(t, id) ==> r == Insert(t, id, body)
    ensures HasId(r, id)
  {
    if HasId(t, id) then
      var k := FirstIndex(t.docs, id);
      var r := Table(Replace(t.docs, id, body), t.nextDocId);
      assert r.docs[k].id == id;
      r
    else
      var r := Insert(t, id, body);
      assert r.docs[|t.docs|].id == id;
      r
  }

  /** `insert` followed by writing the new document id into the record's
      own id field: the record id equals the document id. */
  function InsertOwnId<T>(t: Table<T>, body: T): (r: Table<T>)
    ensures r.docs == t.docs + [Doc(t.nextDocId, t.nextDocId, body)]
    ensures r.nextDocId == t.nextDocId + 1
    ensures WellFormed(t) && OwnIds(t) ==> WellFormed(r) && OwnIds(r) && Find(r, t.nextDocId) == Some(body)
    ensures forall other :: other != t.nextDocId ==> Find(r, other) == Find(t, other)
  {
    var r := Insert(t, t.nextDocId, body);
    InsertFind(t, t.nextDocId, body);
    r
  }

  /** Appending a document makes its record id findable when it was not
      stored before, and leaves every other record id's lookup alone. */
  lemma InsertFind<T>(t: Table<T>, id: int, body: T)
    ensures !HasId(t, id) ==> Find(Insert(t, id, body), id) == Some(body)
    ensures forall other :: other != id ==> Find(Insert(t, id, body), other) == Find(t, other)
  {
    var r := Insert(t, id, body);
    var n := |t.docs|;
    if !HasId(t, id) {
      FirstIndexSameIds(t.docs, r.docs[..n], id);
      FirstIndexPrefix(r.docs, n, id);
    }
    forall other | other != id
      ensures Find(r, other) == Find(t, other)
    {
      FirstIndexSameIds(t.docs, r.docs[..n], other);
      if HasId(t, other) {
        var k := FirstIndex(t.docs, other);
        FirstIndexPrefix(r.docs, k, other);
      }
    }
  }

  /** `remove(where('id') == id)`. */
  function RemoveId<T>(t: Table<T>, id: int): (r: Table<T>)
    ensures !HasId(r, id)
    ensures forall i :: 0 <= i < |r.docs| ==> r.docs[i] in t.docs
    ensures forall i :: 0 <= i < |t.docs| && t.docs[i].id != id ==> t.docs[i] in r.docs
    ensures r.nextDocId == t.nextDocId
  {
    Table(Filter(t.docs, (d: Doc<T>) => d.id != id), t.nextDocId)
  }

  /** `remove(doc_ids=[docId])`: removing a document id that is not in the
      table raises (the store's `KeyError`, here `NotFound`), which leaves
      the table as it was. */
  function RemoveDoc<T>(t: Table<T>, docId: nat): (r: Result<Table<T>>)
    ensures r.Ok? <==> HasDoc(t, docId)
    ensures r.Ok? ==> forall i :: 0 <= i < |r.value.docs| ==> r.value.docs[i] in t.docs && r.value.docs[i].docId != docId
    ensures r.Ok? ==> forall i :: 0 <= i < |t.docs| && t.docs[i].docId != docId ==> t.docs[i] in r.value.docs
    ensures r.Ok? ==> r.value.nextDocId == t.nextDocId
  {
    if HasDoc(t, docId) then Ok(Table(Filter(t.docs, (d: Doc<T>) => d.docId != docId), t.nextDocId))
    else Err(NotFound)
  }

  function Filter<T>(docs: seq<Doc<T>>, keep: Doc<T> -> bool): (r: seq<Doc<T>>)
    ensures forall i :: 0 <= i < |r| ==> r[i] in docs && keep(r[i])
    ensures forall i :: 0 <= i < |docs| && keep(docs[i]) ==> docs[i] in r
    ensures |r| <= |docs|
  {
    if |docs| == 0 then []
    else (if keep(docs[0]) then [docs[0]] else []) + Filter(docs[1..], keep)
  }

  // ---------------------------------------------------------------------------
  // Properties of the store operations
  // ---------------------------------------------------------------------------

  /** After an upsert on `id`, looking up `id` gives the written body. */
  lemma UpsertThenFind<T>(t: Table<T>, id: int, body: T)
    ensures Find(Upsert(t, id, body), id) == Some(body)
  {
    var r := Upsert(t, id, body);
    if HasId(t, id) {
      var k := FirstIndex(t.docs, id);
      assert FirstIndex(r.docs, id) == k by { FirstIndexSameIds(t.docs, r.docs, id); }
    } else {
      var n := |t.docs|;
      assert r.docs[n].id == id;
      assert FirstIndex(r.docs, id) == n by { FirstIndexSameIds(t.docs, r.docs[..n], id); FirstIndexPrefix(r.docs, n, id); }
    }
  }

  lemma {:induction false} FirstIndexSameIds<T>(a: seq<Doc<T>>, b: seq<Doc<T>>, id: int)
    requires |a| == |b|
    requires forall i :: 0 <= i < |a| ==> a[i].id == b[i].id
    ensures FirstIndex(a, id) == FirstIndex(b, id)
  {
    if |a| > 0 && a[0].id != id {
      FirstIndexSameIds(a[1..], b[1..], id);
    }
  }

  lemma FirstIndexPrefix<T>(docs: seq<Doc<T>>, n: nat, id: int)
    requires n < |docs| && docs[n].id == id
    requires forall i :: 0 <= i < n ==> docs[i].id != id
    ensures FirstIndex(docs, id) == n
  {
  }

  /** An upsert on `id` leaves every other record id's lookup unchanged. */
  lemma UpsertKeepsOthers<T>(t: Table<T>, id: int, body: T, other: int)
    requires other != id
    ensures Find(Upsert(t, id, body), other) == Find(t, other)
  {
    var r := Upsert(t, id, body);
    if HasId(t, id) {
      FirstIndexSameIds(t.docs, r.docs, other);
    } else {
      var k := FirstIndex(t.docs, other);
      if k == |t.docs| {
        assert !HasId(r, other);
      } else {
        FirstIndexPrefix(r.docs, k, other);
      }
    }
  }

  /** Upserting onto a table with unique record ids keeps them unique and
      leaves exactly one document with that id. */
  lemma UpsertKeepsUnique<T>(t: Table<T>, id: int, body: T)
    requires UniqueIds(t)
    ensures UniqueIds(Upsert(t, id, body))
    ensures HasId(t, id) ==> |Upsert(t, id, body).docs| == |t.docs|
    ensures !HasId(t, id) ==> |Upsert(t, id, body).docs| == |t.docs| + 1
  {
  }

  /** Upsert and insertion keep the document-id discipline. */
  lemma UpsertKeepsWellFormed<T>(t: Table<T>, id: int, body: T)
    requires WellFormed(t)
    ensures WellFormed(Upsert(t, id, body))
  {
  }

  /** Inserting under the own document id, and upserting on a record id
      already present, keep a table of own-id records well formed. */
  lemma OwnIdsKept<T>(t: Table<T>, id: int, body: T)
    requires WellFormed(t) && OwnIds(t)
    ensures WellFormed(InsertOwnId(t, body)) && OwnIds(InsertOwnId(t, body))
    ensures HasId(t, id) ==> WellFormed(Upsert(t, id, body)) && OwnIds(Upsert(t, id, body))
  {
  }

  /** After a removal by record id nothing with that id is left and every
      other lookup is unchanged. */
  lemma RemoveIdKeepsOthers<T>(t: Table<T>, id: int, other: int)
    requires other != id
    requires UniqueIds(t)
    ensures Find(RemoveId(t, id), other) == Find(t, other)
  {
    var r := RemoveId(t, id);
    if HasId(t, other) {
      var k := FirstIndex(t.docs, other);
      assert t.docs[k] in r.docs;
      var j :| 0 <= j < |r.docs| && r.docs[j] == t.docs[k];
      var m := FirstIndex(r.docs, other);
      assert r.docs[m] in t.docs;
      var m' :| 0 <= m' < |t.docs| && t.docs[m'] == r.docs[m];
      assert m' == k;
    }
  }
}
