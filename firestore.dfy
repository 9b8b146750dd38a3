/** The remote document store, seen from the client: documents addressed by
    collection and id, each a record of named fields. Every call takes the
    transport outcome `ok` as a parameter, so any call may succeed or fail. */
module Firestore {
  import opened Common

  /** A field value as the client writes and reads it. */
  datatype Value =
    | Null
    | Bool(b: bool)
    | Num(n: int)
    | Str(s: string)
    | Arr(items: seq<Value>)
    | Obj(fields: map<string, Value>)

  /** A document's data, or a plain JavaScript object: named fields. An object
      spread `{...a, ...b}` is the map union `a + b`, the right side winning. */
  type Doc = map<string, Value>

  datatype DocKey = DocKey(collection: string, id: string)

  /** The collection holding every user's media records. */
  const Media := "media"

  /** One document of a query result. */
  datatype Snapshot = Snapshot(id: string, data: Doc)

  /** JavaScript truthiness of a stored value. */
  predicate Truthy(v: Value) {
    match v
    case Null => false
    case Bool(b) => b
    case Num(n) => n != 0
    case Str(s) => s != ""
    case Arr(_) => true
    case Obj(_) => true
  }

  /** Reading a field: absent fields read as `undefined` (None). */
  function Get(d: Doc, field: string): (r: Option<Value>)
    ensures r.Some? <==> field in d
    ensures r.Some? ==> r.value == d[field]
  {
    if field in d then Some(d[field]) else None
  }

  /** The JavaScript expression `d.field || fallback`. */
  function FieldOr(d: Doc, field: string, fallback: Value): (r: Value)
    ensures field in d && Truthy(d[field]) ==> r == d[field]
    ensures !(field in d && Truthy(d[field])) ==> r == fallback
  {
    if field in d && Truthy(d[field]) then d[field] else fallback
  }

  /** The elements of an array field; a missing or non-array field reads as `[]`. */
  function ArrayField(d: Doc, field: string): seq<Value> {
    if field in d && d[field].Arr? then d[field].items else []
  }

  /** The equality test of a `where(field, '==', value)` query. */
  predicate FieldEquals(d: Doc, field: string, value: Value) {
    field in d && d[field] == value
  }

  /** `snaps` is a complete answer, in some order and without repetition, to
      the query for documents of `coll` whose `field` equals `value`. */
  ghost predicate IsQueryResult(docs: map<DocKey, Doc>, coll: string, field: string, value: Value, snaps: seq<Snapshot>) {
    && (forall i, j :: 0 <= i < j < |snaps| ==> snaps[i].id != snaps[j].id)
    && (forall i :: 0 <= i < |snaps| ==>
          && DocKey(coll, snaps[i].id) in docs
          && docs[DocKey(coll, snaps[i].id)] == snaps[i].data
          && FieldEquals(snaps[i].data, field, value))
    && (forall k :: k in docs && k.collection == coll && FieldEquals(docs[k], field, value) ==>
          exists i :: 0 <= i < |snaps| && snaps[i].id == k.id)
  }

  /** `found` answers the query over the keys in `seen` only. */
  ghost predicate Scanned(docs: map<DocKey, Doc>, coll: string, field: string, value: Value, seen: set<DocKey>, found: seq<Snapshot>) {
    && (forall i, j :: 0 <= i < j < |found| ==> found[i].id != found[j].id)
    && (forall i :: 0 <= i < |found| ==>
          && DocKey(coll, found[i].id) in seen
          && DocKey(coll, found[i].id) in docs
          && docs[DocKey(coll, found[i].id)] == found[i].data
          && FieldEquals(found[i].data, field, value))
    && (forall k :: k in seen && k in docs && k.collection == coll && FieldEquals(docs[k], field, value) ==>
          exists i :: 0 <= i < |found| && found[i].id == k.id)
  }

  /** Scanning one more key keeps the partial answer correct. */
  lemma ScanStep(docs: map<DocKey, Doc>, coll: string, field: string, value: Value, seen: set<DocKey>, found: seq<Snapshot>, k: DocKey)
    requires Scanned(docs, coll, field, value, seen, found)
    requires k in docs && k !in seen
    ensures var next := if k.collection == coll && FieldEquals(docs[k], field, value) then found + [Snapshot(k.id, docs[k])] else found;
      Scanned(docs, coll, field, value, seen + {k}, next)
  {
    if k.collection == coll && FieldEquals(docs[k], field, value) {
      var next := found + [Snapshot(k.id, docs[k])];
      assert forall i :: 0 <= i < |found| ==> next[i] == found[i];
      assert next[|found|].id == k.id;
    }
  }

  /** The fields a merging `setDoc` leaves behind: the existing fields, overridden by the written ones. */
  function MergeFields(docs: map<DocKey, Doc>, key: DocKey, data: Doc): Doc {
    (if key in docs then docs[key] else map[]) + data
  }

  /** The store after `setDoc(key, data, { merge: true })`. */
  function MergeUpsert(docs: map<DocKey, Doc>, key: DocKey, data: Doc): map<DocKey, Doc> {
    docs[key := MergeFields(docs, key, data)]
  }

  /** A merging write stores every written field, keeps every other existing
      field of that document, and leaves every other document alone. */
  lemma MergeUpsertEffect(docs: map<DocKey, Doc>, key: DocKey, data: Doc)
    ensures var after := MergeUpsert(docs, key, data);
      && key in after
      && after.Keys == docs.Keys + {key}
      && (forall f :: f in data ==> f in after[key] && after[key][f] == data[f])
      && (forall f :: key in docs && f in docs[key] && f !in data ==> f in after[key] && after[key][f] == docs[key][f])
      && (forall f :: f in after[key] ==> f in data || (key in docs && f in docs[key]))
      && (forall k :: k in docs && k != key ==> after[k] == docs[k])
  {
  }

  /** Repeating a merging write with the same data changes nothing further. */
  lemma MergeUpsertIdempotent(docs: map<DocKey, Doc>, key: DocKey, data: Doc)
    ensures MergeUpsert(MergeUpsert(docs, key, data), key, data) == MergeUpsert(docs, key, data)
  {
    var once := MergeUpsert(docs, key, data);
    assert MergeFields(once, key, data) == once[key];
  }

  /** The client's handle on the store. */
  class Database {
    var docs: map<DocKey, Doc>

    constructor (initial: map<DocKey, Doc>)
      ensures docs == initial
    {
      docs := initial;
    }

    /** `getDoc`: the document, or None when it does not exist. */
    method GetDoc(key: DocKey, ok: bool) returns (r: Result<Option<Doc>>)
      ensures r == if !ok then Err else Ok(if key in docs then Some(docs[key]) else None)
    {
      if !ok {
        return Err;
      }
      r := Ok(if key in docs then Some(docs[key]) else None);
    }

    /** `getDocs(query(collection(coll), where(field, '==', value)))`. */
    method Query(coll: string, field: string, value: Value, ok: bool) returns (r: Result<seq<Snapshot>>)
      ensures r.Ok? <==> ok
      ensures r.Ok? ==> IsQueryResult(docs, coll, field, value, r.value)
    {
      if !ok {
        return Err;
      }
      var pending := docs.Keys;
      var found: seq<Snapshot> := [];
      while pending != {}
        invariant pending <= docs.Keys
        invariant Scanned(docs, coll, field, value, docs.Keys - pending, found)
        decreases pending
      {
        var k :| k in pending;
        ScanStep(docs, coll, field, value, docs.Keys - pending, found, k);
        if k.collection == coll && FieldEquals(docs[k], field, value) {
          found := found + [Snapshot(k.id, docs[k])];
        }
        assert docs.Keys - (pending - {k}) == (docs.Keys - pending) + {k};
        pending := pending - {k};
      }
      assert docs.Keys - pending == docs.Keys;
      r := Ok(found);
    }

    /** `addDoc`: stores `data` under an id the store generates, unused in `coll`. */
    method AddDoc(coll: string, data: Doc, ok: bool) returns (r: Result<string>)
      modifies this
      ensures r.Ok? <==> ok
      ensures r.Ok? ==> DocKey(coll, r.value) !in old(docs) && docs == old(docs)[DocKey(coll, r.value) := data]
      ensures r.Err? ==> docs == old(docs)
    {
      if !ok {
        return Err;
      }
      // An id longer than every id in use cannot be in use.
      var id := "a";
      var pending := docs.Keys;
      while pending != {}
        invariant pending <= docs.Keys
        invariant 1 <= |id|
        invariant forall k :: k in docs.Keys - pending ==> |k.id| < |id|
        decreases pending
      {
        var k :| k in pending;
        id := id + k.id;
        pending := pending - {k};
      }
      docs := docs[DocKey(coll, id) := data];
      r := Ok(id);
    }

    /** `setDoc`: overwrites the document, or with `merge` keeps the fields it does not write. */
    method SetDoc(key: DocKey, data: Doc, merge: bool, ok: bool) returns (r: Outcome)
      modifies this
      ensures r == if ok then Done else Failed
      ensures docs == if !ok then old(docs)
                      else if merge then MergeUpsert(old(docs), key, data)
                      else old(docs)[key := data]
    {
      if !ok {
        return Failed;
      }
      docs := if merge then MergeUpsert(docs, key, data) else docs[key := data];
      r := Done;
    }

    /** `updateDoc` with plain field values: fails when the document does not exist. */
    method UpdateDoc(key: DocKey, fields: Doc, ok: bool) returns (r: Outcome)
      modifies this
      ensures r == if ok && key in old(docs) then Done else Failed
      ensures docs == if r == Done then old(docs)[key := old(docs)[key] + fields] else old(docs)
    {
      if !ok || key !in docs {
        return Failed;
      }
      docs := docs[key := docs[key] + fields];
      r := Done;
    }

    /** `updateDoc(key, { [field]: arrayUnion(v) })`: appends `v` to the array field. */
    method ArrayUnion(key: DocKey, field: string, v: Value, ok: bool) returns (r: Outcome)
      modifies this
      ensures r == if ok && key in old(docs) then Done else Failed
      ensures docs == if r == Done
                      then old(docs)[key := old(docs)[key][field := Arr(ArrayField(old(docs)[key], field) + [v])]]
                      else old(docs)
    {
      if !ok || key !in docs {
        return Failed;
      }
      docs := docs[key := docs[key][field := Arr(ArrayField(docs[key], field) + [v])]];
      r := Done;
    }

    /** `deleteDoc`: removes the document; deleting a missing document succeeds. */
    method DeleteDoc(key: DocKey, ok: bool) returns (r: Outcome)
      modifies this
      ensures r == if ok then Done else Failed
      ensures docs == if ok then old(docs) - {key} else old(docs)
    {
      if !ok {
        return Failed;
      }
      docs := docs - {key};
      r := Done;
    }
  }
}
