/**
 * The in-memory document store used for local development: one client owns a dictionary from
 * collection path to that collection's documents; collection and document references are
 * plain values (a path, and a path plus an id) through which every write reaches the client's
 * dictionary. The store operations are functions on the dictionary; the client's methods
 * apply them to its field.
 */
module MockFirestore {
  import opened Wrappers
  import opened OrderedMaps
  import opened FirestoreValues

  /** A document body: an insertion-ordered dictionary of field values. */
  type Fields = seq<(string, Value)>

  /** Collection path to document id to body. */
  type Store = map<string, map<string, Fields>>

  datatype CollectionRef = CollectionRef(path: string)

  datatype DocumentRef = DocumentRef(collection: CollectionRef, id: string)

  /** What `get()` returns: the body (empty for a missing document) and whether the document exists. */
  datatype Snapshot = Snapshot(data: Fields, present: bool)

  /**
   * The handle a listener registration returns: the real client's watch, which has an
   * `unsubscribe` method, or the plain function this store returns, which has none.
   */
  datatype ListenerHandle = Watch(watchId: nat) | PlainFunction

  /** The documents of the collection at `path`; a path never registered holds none. */
  function Documents(st: Store, path: string): map<string, Fields>
  {
    if path in st then st[path] else map[]
  }

  /** `_collections.setdefault(path, {})`: registers the path, leaving registered collections as they are. */
  function Register(st: Store, path: string): (r: Store)
    ensures r.Keys == st.Keys + {path}
    ensures forall p :: p in st ==> r[p] == st[p]
    ensures path !in st ==> r[path] == map[]
  {
    if path in st then st else st[path := map[]]
  }

  /** `document(doc_id)`: the given id, or a fresh one when None is passed. */
  function DocumentIn(c: CollectionRef, docId: Option<string>, freshId: string): (r: DocumentRef)
    ensures r.collection == c
    ensures docId.Some? ==> r.id == docId.value
    ensures docId.None? ==> r.id == freshId
  {
    DocumentRef(c, docId.GetOr(freshId))
  }

  /** `DocumentReference.collection(name)`: the path `parent/docId/name`. */
  function SubcollectionPath(ref: DocumentRef, name: string): string
  {
    ref.collection.path + "/" + ref.id + "/" + name
  }

  /** Subcollections of one document with different names have different paths. */
  lemma SubcollectionPathInjective(ref: DocumentRef, a: string, b: string)
    requires SubcollectionPath(ref, a) == SubcollectionPath(ref, b)
    ensures a == b
  {
    var prefix := ref.collection.path + "/" + ref.id + "/";
    assert SubcollectionPath(ref, a)[|prefix|..] == a;
    assert SubcollectionPath(ref, b)[|prefix|..] == b;
  }

  /** `set(d)`: the document's body becomes `d`. */
  function SetDoc(st: Store, ref: DocumentRef, d: Fields): Store
  {
    var p := ref.collection.path;
    st[p := Documents(st, p)[ref.id := d]]
  }

  /** `get()`. */
  function GetDoc(st: Store, ref: DocumentRef): (s: Snapshot)
    ensures s.present <==> ref.id in Documents(st, ref.collection.path)
  {
    var docs := Documents(st, ref.collection.path);
    if ref.id in docs then Snapshot(docs[ref.id], true) else Snapshot([], false)
  }

  /** `update(d)`: merged into an existing body, or stored as the body of a new document. */
  function UpdateDoc(st: Store, ref: DocumentRef, d: Fields): Store
  {
    var p := ref.collection.path;
    var docs := Documents(st, p);
    if ref.id in docs then st[p := docs[ref.id := PutAll(docs[ref.id], d)]] else SetDoc(st, ref, d)
  }

  /** `delete()`. */
  function DeleteDoc(st: Store, ref: DocumentRef): Store
  {
    var p := ref.collection.path;
    var docs := Documents(st, p);
    if ref.id in docs then st[p := docs - {ref.id}] else st
  }

  /** Two references name the same document. */
  predicate SameDocument(a: DocumentRef, b: DocumentRef) {
    a.collection.path == b.collection.path && a.id == b.id
  }

  /** After `set(d)`, `get()` on any reference to that document sees exactly `d`; other documents are untouched. */
  lemma SetThenGet(st: Store, ref: DocumentRef, d: Fields, other: DocumentRef)
    ensures SameDocument(other, ref) ==> GetDoc(SetDoc(st, ref, d), other) == Snapshot(d, true)
    ensures !SameDocument(other, ref) ==> GetDoc(SetDoc(st, ref, d), other) == GetDoc(st, other)
  {
  }

  /** A document never written reads as missing with an empty body. */
  lemma GetMissing(st: Store, ref: DocumentRef)
    requires ref.id !in Documents(st, ref.collection.path)
    ensures GetDoc(st, ref) == Snapshot([], false)
  {
  }

  /**
   * `update(d)` on an existing document writes the keys of `d` and keeps its other keys; on a
   * missing document it creates it with `d`. Other documents are untouched.
   */
  lemma UpdateThenGet(st: Store, ref: DocumentRef, d: Fields, k: string, other: DocumentRef)
    requires DistinctKeys(d)
    ensures var before := GetDoc(st, ref);
            var after := GetDoc(UpdateDoc(st, ref, d), ref);
            && after.present
            && (before.present ==>
                  Get(after.data, k) == if k in KeySet(d) then Get(d, k) else Get(before.data, k))
            && (!before.present ==> after.data == d)
    ensures !SameDocument(other, ref) ==> GetDoc(UpdateDoc(st, ref, d), other) == GetDoc(st, other)
  {
    var docs := Documents(st, ref.collection.path);
    if ref.id in docs {
      GetPutAll(docs[ref.id], d, k);
    }
  }

  /** After `delete()` the document is missing, deleting a missing document changes nothing, and other documents are untouched. */
  lemma DeleteThenGet(st: Store, ref: DocumentRef, other: DocumentRef)
    ensures !GetDoc(DeleteDoc(st, ref), ref).present
    ensures !GetDoc(st, ref).present ==> DeleteDoc(st, ref) == st
    ensures !SameDocument(other, ref) ==> GetDoc(DeleteDoc(st, ref), other) == GetDoc(st, other)
  {
  }

  class Client {
    const project: string
    var collections: Store

    constructor(project: string)
      ensures this.project == project && collections == map[]
    {
      this.project := project;
      collections := map[];
    }

    /** `client.collection(name)`. */
    method Collection(name: string) returns (c: CollectionRef)
      modifies this
      ensures c.path == name
      ensures collections == Register(old(collections), name)
    {
      collections := Register(collections, name);
      c := CollectionRef(name);
    }

    /** `ref.collection(name)` on a document reference. */
    method SubCollection(ref: DocumentRef, name: string) returns (c: CollectionRef)
      modifies this
      ensures c.path == SubcollectionPath(ref, name)
      ensures collections == Register(old(collections), c.path)
    {
      var path := SubcollectionPath(ref, name);
      collections := Register(collections, path);
      c := CollectionRef(path);
    }

    /** `ref.set(d)`. */
    method Set(ref: DocumentRef, d: Fields)
      modifies this
      ensures collections == SetDoc(old(collections), ref, d)
      ensures GetDoc(collections, ref) == Snapshot(d, true)
    {
      collections := SetDoc(collections, ref, d);
    }

    /** `ref.get()`. */
    method Get(ref: DocumentRef) returns (s: Snapshot)
      ensures s == GetDoc(collections, ref)
      ensures s.present <==> ref.id in Documents(collections, ref.collection.path)
      ensures s.present ==> s.data == collections[ref.collection.path][ref.id]
    {
      s := GetDoc(collections, ref);
    }

    /** `ref.update(d)`. */
    method Update(ref: DocumentRef, d: Fields)
      modifies this
      ensures collections == UpdateDoc(old(collections), ref, d)
      ensures GetDoc(collections, ref).present
    {
      collections := UpdateDoc(collections, ref, d);
    }

    /** `ref.delete()`. */
    method Delete(ref: DocumentRef)
      modifies this
      ensures collections == DeleteDoc(old(collections), ref)
      ensures !GetDoc(collections, ref).present
    {
      collections := DeleteDoc(collections, ref);
    }

    /** `collection.add(d)`, the fresh id given as `freshId`; the timestamp half of the result is left out. */
    method Add(c: CollectionRef, d: Fields, freshId: string) returns (ref: DocumentRef)
      modifies this
      ensures ref == DocumentRef(c, freshId)
      ensures collections == SetDoc(old(collections), ref, d)
      ensures GetDoc(collections, ref) == Snapshot(d, true)
    {
      ref := DocumentRef(c, freshId);
      collections := SetDoc(collections, ref, d);
    }

    /** `collection.on_snapshot(callback)`: the callback is never called, and a plain function comes back, not a watch. */
    method OnSnapshot(c: CollectionRef) returns (u: ListenerHandle)
      ensures u == PlainFunction
    {
      u := PlainFunction;
    }
  }
}
