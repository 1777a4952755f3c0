/**
 * The document store as the persistence layer sees it: references, field
 * values, stored documents with their serial, the filters the container and
 * the data manager issue, and the store itself.
 *
 * The store driver is not part of this model. A collection is the set of
 * documents whose reference names it; a query returns the matching documents
 * of one collection in natural order, which here is ascending document id
 * (ids are handed out by an increasing counter, so this is insertion order).
 */
module Documents {

  datatype Option<+T> = None | Some(value: T)

  /** A DBRef: database name, collection name and document id. */
  datatype DocRef = DocRef(database: string, collection: string, id: nat)

  /**
   * A field value as stored in a document or held by an object attribute.
   * Null is Python's None; Oid is a document id (an ObjectId); Ref is a
   * stored reference to another document; Obj is a live in-memory object.
   */
  datatype Value =
    | Null
    | Int(i: int)
    | Text(s: string)
    | Oid(id: nat)
    | Ref(ref: DocRef)
    | Obj(o: object)

  type Fields = map<string, Value>

  /** A stored document: its fields and the reserved `_py_serial` counter. */
  datatype Doc = Doc(fields: Fields, serial: nat)

  /** The failures of the core, one constructor per exception the source raises. */
  datatype Error =
    | ConflictError(oid: Option<DocRef>, startSerial: nat, currentSerial: nat)
    | AlreadyStored     // ValueError: the object has already an OID
    | NotStored         // ValueError: the object does not have an OID
    | NotFound(ref: DocRef)
    | KeyError(key: Value)
    | TypeError         // the key is not a text value
    | EmptyKey          // ValueError: empty keys are not allowed
    | AttributeError(name: string)
    | InvalidQuery      // a query whose field name is None
    | NotAttached       // ValueError: the container is not stored anywhere

  datatype Result<+T> = Ok(value: T) | Err(error: Error)

  datatype Outcome = Pass | Fail(error: Error)

  /** One condition of a query: `{'$exists': b}`, a plain value, or `{'$ne': v}`. */
  datatype Cond = Exists(present: bool) | Eq(v: Value) | Ne(v: Value)

  type Filter = map<string, Cond>

  function Lookup(docs: map<DocRef, Doc>, r: DocRef): Option<Doc>
  {
    if r in docs then Some(docs[r]) else None
  }

  /** Two stores that agree on every reference are the same store. */
  lemma LookupExtensional(a: map<DocRef, Doc>, b: map<DocRef, Doc>)
    requires forall r :: Lookup(a, r) == Lookup(b, r)
    ensures a == b
  {
    forall r | r in a ensures r in b && a[r] == b[r] {
      assert Lookup(a, r) == Lookup(b, r);
    }
    forall r | r in b ensures r in a {
      assert Lookup(a, r) == Lookup(b, r);
    }
  }

  /** The value a query sees under field `f`: `_id` is the document id. */
  function FieldValue(ref: DocRef, doc: Doc, f: string): Option<Value>
  {
    if f == "_id" then Some(Oid(ref.id))
    else if f in doc.fields then Some(doc.fields[f])
    else None
  }

  /**
   * Whether a field holding `v` (None when the field is missing) satisfies
   * `c`. As in the store's query language, equality with None also matches
   * a missing field, and `$ne` is the negation of equality.
   */
  predicate Holds(c: Cond, v: Option<Value>)
  {
    match c
    case Exists(present) => v.Some? == present
    case Eq(x) => if x == Null then v == None || v == Some(Null) else v == Some(x)
    case Ne(x) => !(if x == Null then v == None || v == Some(Null) else v == Some(x))
  }

  predicate Matches(ref: DocRef, doc: Doc, f: Filter)
  {
    forall k :: k in f ==> Holds(f[k], FieldValue(ref, doc, k))
  }

  /** The store's answer to `find(f)` on one collection: ids below `n`, in order. */
  function Query(docs: map<DocRef, Doc>, database: string, collection: string, f: Filter, n: nat)
    : (r: seq<(DocRef, Doc)>)
    ensures |r| <= n
    ensures forall i :: 0 <= i < |r| ==>
              r[i].0 in docs && docs[r[i].0] == r[i].1 && r[i].0.id < n
              && r[i].0.database == database && r[i].0.collection == collection
              && Matches(r[i].0, r[i].1, f)
  {
    if n == 0 then []
    else
      var ref := DocRef(database, collection, n - 1);
      var prefix := Query(docs, database, collection, f, n - 1);
      if ref in docs && Matches(ref, docs[ref], f) then prefix + [(ref, docs[ref])] else prefix
  }

  /** Every matching document of the collection with an id below `n` is found. */
  lemma {:induction false} QueryComplete(docs: map<DocRef, Doc>, database: string, collection: string,
                                         f: Filter, n: nat, ref: DocRef)
    requires ref in docs && ref.id < n && ref.database == database && ref.collection == collection
    requires Matches(ref, docs[ref], f)
    ensures (ref, docs[ref]) in Query(docs, database, collection, f, n)
  {
    if ref.id < n - 1 {
      QueryComplete(docs, database, collection, f, n - 1, ref);
    } else {
      assert ref == DocRef(database, collection, n - 1);
    }
  }

  /** `find_one(f)`: the first document of the collection, in natural order, matching `f`. */
  function FirstMatch(docs: map<DocRef, Doc>, database: string, collection: string, f: Filter, n: nat)
    : Option<(DocRef, Doc)>
  {
    var all := Query(docs, database, collection, f, n);
    if all == [] then None else Some(all[0])
  }

  /**
   * The shared store. `nextId` plays the ObjectId generator: every stored
   * document has a smaller id, so a new id never names an existing document.
   */
  class Database {
    var docs: map<DocRef, Doc>
    var nextId: nat

    ghost predicate Valid()
      reads this
    {
      forall r :: r in docs ==> r.id < nextId
    }

    constructor ()
      ensures Valid() && docs == map[] && nextId == 0
    {
      docs := map[];
      nextId := 0;
    }
  }

  /** A query sees exactly the matching documents of the collection. */
  lemma QueryExactly(db: Database, database: string, collection: string, f: Filter, ref: DocRef, doc: Doc)
    requires db.Valid()
    ensures (ref, doc) in Query(db.docs, database, collection, f, db.nextId)
        <==> ref in db.docs && db.docs[ref] == doc && ref.database == database
             && ref.collection == collection && Matches(ref, doc, f)
  {
    if ref in db.docs && db.docs[ref] == doc && ref.database == database
       && ref.collection == collection && Matches(ref, doc, f) {
      QueryComplete(db.docs, database, collection, f, db.nextId, ref);
    }
  }

  /** `find_one` finds nothing exactly when no document of the collection matches. */
  lemma FirstMatchNone(db: Database, database: string, collection: string, f: Filter)
    requires db.Valid()
    ensures FirstMatch(db.docs, database, collection, f, db.nextId).None?
        <==> forall r :: r in db.docs && r.database == database && r.collection == collection
               ==> !Matches(r, db.docs[r], f)
  {
    var all := Query(db.docs, database, collection, f, db.nextId);
    if all != [] {
      assert all[0] in all;
    } else {
      forall r | r in db.docs && r.database == database && r.collection == collection
        ensures !Matches(r, db.docs[r], f)
      {
        if Matches(r, db.docs[r], f) {
          QueryExactly(db, database, collection, f, r, db.docs[r]);
        }
      }
    }
  }

  /** When exactly one document of the collection matches, `find_one` finds that one. */
  lemma FirstMatchUnique(db: Database, database: string, collection: string, f: Filter, ref: DocRef)
    requires db.Valid()
    requires ref in db.docs && ref.database == database && ref.collection == collection
    requires Matches(ref, db.docs[ref], f)
    requires forall r :: r in db.docs && r != ref && r.database == database && r.collection == collection ==>
                           !Matches(r, db.docs[r], f)
    ensures FirstMatch(db.docs, database, collection, f, db.nextId) == Some((ref, db.docs[ref]))
  {
    var all := Query(db.docs, database, collection, f, db.nextId);
    QueryExactly(db, database, collection, f, ref, db.docs[ref]);
    assert all[0] in all;
  }

  /** Raising the id bound past every stored document does not change a query's answer. */
  lemma {:induction false} QueryBeyond(docs: map<DocRef, Doc>, database: string, collection: string,
                                       f: Filter, n: nat, m: nat)
    requires n <= m
    requires forall r :: r in docs ==> r.id < n
    ensures Query(docs, database, collection, f, m) == Query(docs, database, collection, f, n)
    decreases m - n
  {
    if n < m {
      QueryBeyond(docs, database, collection, f, n, m - 1);
      assert DocRef(database, collection, m - 1) !in docs;
    }
  }

  /** `find_one` gives the same answer under any id bound above every stored document. */
  lemma FirstMatchAnyBound(docs: map<DocRef, Doc>, database: string, collection: string,
                           f: Filter, n: nat, m: nat)
    requires forall r :: r in docs ==> r.id < n && r.id < m
    ensures FirstMatch(docs, database, collection, f, n) == FirstMatch(docs, database, collection, f, m)
  {
    if n <= m {
      QueryBeyond(docs, database, collection, f, n, m);
    } else {
      QueryBeyond(docs, database, collection, f, m, n);
    }
  }
}
