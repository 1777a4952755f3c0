/**
 * The Mongo container: a dict-like view over the documents of one collection
 * that carry a mapping key and, when a parent key is configured, point back
 * to the container's owner. Reads go through the data manager's collection
 * wrapper, so every query flushes pending writes first.
 */
module Container {
  import opened Documents
  import opened Persistence
  import opened DataManager

  /**
   * Where the container itself is stored, which decides the value of the
   * parent key: the container object when it lives in the Mongo data
   * manager, a `zodb-` string built from its foreign oid otherwise, and
   * nothing when it is not stored at all.
   */
  datatype Jar = Detached | MongoJar | ZodbJar(oidHex: string)

  /** The data manager's store and identity map at one moment. */
  datatype Seen = Seen(docs: map<DocRef, Doc>, nextId: nat, cache: map<DocRef, Persistent>)

  /**
   * The caller's filter with the container's entries added where the caller
   * has none; the caller's own entries always win.
   */
  function Merge(spec: Filter, items: Filter): (r: Filter)
    ensures r.Keys == spec.Keys + items.Keys
  {
    map k | k in spec.Keys + items.Keys :: if k in spec then spec[k] else items[k]
  }

  /** Merging never changes an entry the caller supplied, and fills in every other one. */
  lemma MergeKeepsCaller(spec: Filter, items: Filter)
    ensures forall k :: k in spec ==> Merge(spec, items)[k] == spec[k]
    ensures forall k :: k in items && k !in spec ==> Merge(spec, items)[k] == items[k]
  {
  }

  /**
   * A document matches the merged filter exactly when it matches the
   * caller's filter and every container entry the caller did not override.
   */
  lemma MergeMatches(ref: DocRef, doc: Doc, spec: Filter, items: Filter)
    ensures Matches(ref, doc, Merge(spec, items))
        <==> Matches(ref, doc, spec)
             && forall k :: k in items && k !in spec ==> Holds(items[k], FieldValue(ref, doc, k))
  {
    var m := Merge(spec, items);
    if Matches(ref, doc, m) {
      forall k | k in spec ensures Holds(spec[k], FieldValue(ref, doc, k)) {
        assert k in m && m[k] == spec[k];
      }
      forall k | k in items && k !in spec ensures Holds(items[k], FieldValue(ref, doc, k)) {
        assert k in m && m[k] == items[k];
      }
    }
  }

  /**
   * Overriding one entry of the container's filter, or giving only that
   * entry and letting the container add the rest, is the same query.
   */
  lemma MergeOverride(items: Filter, k: string, c: Cond)
    ensures Merge(items[k := c], items) == items[k := c]
    ensures Merge(map[k := c], items) == items[k := c]
  {
    assert Merge(items[k := c], items).Keys == items[k := c].Keys;
    assert Merge(map[k := c], items).Keys == items[k := c].Keys;
  }

  /** What `doc[key]` yields for a found document; a missing field reads as None. */
  function KeyOf(found: (DocRef, Doc), mk: string): Value
  {
    match FieldValue(found.0, found.1, mk)
    case Some(v) => v
    case None => Null
  }

  /** The mapping-key values of query results, in result order. */
  function KeysOf(found: seq<(DocRef, Doc)>, mk: string): (ks: seq<Value>)
    ensures |ks| == |found|
  {
    seq(|found|, i requires 0 <= i < |found| => KeyOf(found[i], mk))
  }

  /** The decimal rendering of a document id, standing in for `unicode(oid)`. */
  function IdText(n: nat): (s: string)
    ensures |s| > 0
    ensures forall i :: 0 <= i < |s| ==> '0' <= s[i] <= '9'
    decreases n
  {
    var d := ['0' + (n % 10) as char];
    if n < 10 then d else IdText(n / 10) + d
  }

  /** The key check of `__setitem__`: a non-empty text value. */
  function CheckKey(key: Value): (r: Outcome)
    ensures r == Pass <==> key.Text? && key.s != []
    ensures r == Fail(TypeError) <==> !key.Text?
    ensures r == Fail(EmptyKey) <==> key == Text([])
  {
    if !key.Text? then Fail(TypeError)
    else if key.s == [] then Fail(EmptyKey)
    else Pass
  }

  /** A key derived from a document id always passes the key check. */
  lemma IdKeyAccepted(n: nat)
    ensures CheckKey(Text(IdText(n))) == Pass
  {
  }

  class MongoContainer {
    const dm: MongoDataManager
    const database: string
    const collection: string
    /** The field holding an item's key; None when the container has none. */
    const mappingKey: Option<string>
    /** The field scoping items to this container; None for an all-items container. */
    const parentKey: Option<string>
    const removeDocuments: bool
    const jar: Jar

    /** A container with the default mapping key `key` and parent key `parent`. */
    constructor (dm: MongoDataManager, database: string, collection: string,
                 mappingKey: Option<string>, parentKey: Option<string>, jar: Jar)
      ensures this.dm == dm && this.database == database && this.collection == collection
      ensures this.mappingKey == Some(if mappingKey.Some? then mappingKey.value else "key")
      ensures this.parentKey == Some(if parentKey.Some? then parentKey.value else "parent")
      ensures removeDocuments && this.jar == jar
    {
      this.dm := dm;
      this.database := database;
      this.collection := collection;
      this.mappingKey := Some(if mappingKey.Some? then mappingKey.value else "key");
      this.parentKey := Some(if parentKey.Some? then parentKey.value else "parent");
      this.removeDocuments := true;
      this.jar := jar;
    }

    /** An all-items container: no parent key unless one is given. */
    constructor AllItems(dm: MongoDataManager, database: string, collection: string,
                         mappingKey: Option<string>, parentKey: Option<string>, jar: Jar)
      ensures this.dm == dm && this.database == database && this.collection == collection
      ensures this.mappingKey == Some(if mappingKey.Some? then mappingKey.value else "key")
      ensures this.parentKey == parentKey
      ensures removeDocuments && this.jar == jar
    {
      this.dm := dm;
      this.database := database;
      this.collection := collection;
      this.mappingKey := Some(if mappingKey.Some? then mappingKey.value else "key");
      this.parentKey := parentKey;
      this.removeDocuments := true;
      this.jar := jar;
    }

    /**
     * A container whose class overrides the settings: no mapping key at all,
     * or documents that are kept when their item is deleted.
     */
    constructor Configured(dm: MongoDataManager, database: string, collection: string,
                           mappingKey: Option<string>, parentKey: Option<string>,
                           removeDocuments: bool, jar: Jar)
      ensures this.dm == dm && this.database == database && this.collection == collection
      ensures this.mappingKey == mappingKey && this.parentKey == parentKey
      ensures this.removeDocuments == removeDocuments && this.jar == jar
    {
      this.dm := dm;
      this.database := database;
      this.collection := collection;
      this.mappingKey := mappingKey;
      this.parentKey := parentKey;
      this.removeDocuments := removeDocuments;
      this.jar := jar;
    }

    /** `_m_get_parent_key_value`: an unstored container has no owner identity. */
    function ParentKeyValue(): (r: Result<Value>)
      ensures r.Err? <==> jar.Detached?
      ensures r.Err? ==> r.error == NotAttached
      ensures jar.MongoJar? ==> r == Ok(Obj(this))
      ensures jar.ZodbJar? ==> r == Ok(Text("zodb-" + jar.oidHex))
    {
      match jar
      case Detached => Err(NotAttached)
      case MongoJar => Ok(Obj(this))
      case ZodbJar(hex) => Ok(Text("zodb-" + hex))
    }

    /**
     * `_m_get_items_filter`: the mapping key must exist and the parent key
     * must name the owner, each exactly when it is configured.
     */
    function ItemsFilter(): (r: Result<Filter>)
      ensures r.Err? <==> parentKey.Some? && jar.Detached?
      ensures r.Ok? ==>
                r.value.Keys == (if mappingKey.Some? then {mappingKey.value} else {})
                              + (if parentKey.Some? then {parentKey.value} else {})
      ensures r.Ok? && mappingKey.Some? && parentKey != mappingKey ==>
                r.value[mappingKey.value] == Exists(true)
      ensures r.Ok? && parentKey.Some? ==> r.value[parentKey.value] == Eq(ParentKeyValue().value)
    {
      var byKey: Filter := if mappingKey.Some? then map[mappingKey.value := Exists(true)] else map[];
      if parentKey.None? then Ok(byKey)
      else
        match ParentKeyValue()
        case Err(e) => Err(e)
        case Ok(v) => Ok(byKey[parentKey.value := Eq(v)])
    }

    /** No document of this container's collection matches `f` in `docs`. */
    ghost predicate NoneMatch(docs: map<DocRef, Doc>, f: Filter)
    {
      forall ref :: ref in docs && ref.database == database && ref.collection == collection ==>
        !Matches(ref, docs[ref], f)
    }

    /** The data manager's store and identity map as they are now. */
    ghost function Now(): Seen
      reads dm, dm.db
    {
      Seen(dm.db.docs, dm.db.nextId, dm.cache)
    }

    /** The first document of this container's collection that matches `f` in the store. */
    ghost function Found(f: Filter): Option<(DocRef, Doc)>
      reads dm.db
    {
      FirstMatch(dm.db.docs, database, collection, f, dm.db.nextId)
    }

    /**
     * In `s`, `o` is the loaded object of the first document of this
     * container's collection that matches `f`.
     */
    ghost predicate HeldIn(s: Seen, f: Filter, o: Persistent)
    {
      exists ref :: ref in s.docs && ref in s.cache && s.cache[ref] == o
                    && FirstMatch(s.docs, database, collection, f, s.nextId) == Some((ref, s.docs[ref]))
    }

    /** `HeldIn` on the current store and identity map. */
    ghost predicate HeldUnder(f: Filter, o: Persistent)
      reads dm, dm.db
    {
      HeldIn(Now(), f, o)
    }

    /** The data manager, its store and the objects registered with it are as they were. */
    twostate predicate Untouched()
      reads dm, dm.db, dm.registered
    {
      && unchanged(dm, dm.db)
      && (forall o :: o in dm.registered ==> unchanged(o))
    }

    /** `_m_add_items_filter`: add the container's entries the caller left out. */
    method AddItemsFilter(spec: Filter) returns (r: Result<Filter>)
      ensures r.Err? <==> ItemsFilter().Err?
      ensures r.Err? ==> r.error == ItemsFilter().error
      ensures r.Ok? ==> r.value == Merge(spec, ItemsFilter().value)
    {
      var items := ItemsFilter();
      if items.Err? {
        return Err(items.error);
      }
      var merged := spec;
      var pending := items.value.Keys;
      while pending != {}
        invariant pending <= items.value.Keys
        invariant merged.Keys == spec.Keys + (items.value.Keys - pending)
        invariant forall k :: k in spec ==> merged[k] == spec[k]
        invariant forall k :: k in merged && k !in spec ==> merged[k] == items.value[k]
        decreases pending
      {
        var k :| k in pending;
        if k !in merged {
          merged := merged[k := items.value[k]];
        }
        pending := pending - {k};
      }
      assert merged == Merge(spec, items.value);
      r := Ok(merged);
    }

    /**
     * A query the store refuses: the container has no mapping key, so the
     * filter would carry None as a field name. The wrapper flushes first.
     */
    method RejectQuery() returns (r: Outcome)
      requires dm.Valid()
      modifies dm`originalStates, dm`cache, dm`registered, dm.db
      modifies dm.registered`oid, dm.registered`serial, dm.registered`changed
      ensures dm.Valid()
      ensures r.Fail?
      ensures r.error.ConflictError? <==> old(dm.HasConflict())
      ensures r.error.ConflictError? ==> Untouched()
      ensures !r.error.ConflictError? ==>
                r.error == InvalidQuery && dm.registered == [] && dm.WroteBack(old(dm.registered))
    {
      var flushed := dm.Flush();
      if flushed.Fail? {
        return flushed;
      }
      r := Fail(InvalidQuery);
    }

    /** `raw_find`: the container's documents matching `spec`, after a flush. */
    method RawFind(spec: Filter) returns (r: Result<seq<(DocRef, Doc)>>)
      requires dm.Valid()
      modifies dm`originalStates, dm`cache, dm`registered, dm.db
      modifies dm.registered`oid, dm.registered`serial, dm.registered`changed
      ensures dm.Valid()
      ensures ItemsFilter().Err? ==> r == Err(ItemsFilter().error) && Untouched()
      ensures ItemsFilter().Ok? ==> (r.Err? <==> old(dm.HasConflict()))
      ensures ItemsFilter().Ok? && r.Err? ==> r.error.ConflictError? && Untouched()
      ensures ItemsFilter().Ok? && r.Ok? ==>
                && dm.WroteBack(old(dm.registered)) && dm.registered == []
                && r.value == Query(dm.db.docs, database, collection, Merge(spec, ItemsFilter().value),
                                    dm.db.nextId)
    {
      var merged := AddItemsFilter(spec);
      if merged.Err? {
        return Err(merged.error);
      }
      r := dm.CollectionFind(database, collection, merged.value);
    }

    /** `raw_find_one`: the first of the container's documents matching `spec`, after a flush. */
    method RawFindOne(spec: Filter) returns (r: Result<Option<(DocRef, Doc)>>)
      requires dm.Valid()
      modifies dm`originalStates, dm`cache, dm`registered, dm.db
      modifies dm.registered`oid, dm.registered`serial, dm.registered`changed
      ensures dm.Valid()
      ensures ItemsFilter().Err? ==> r == Err(ItemsFilter().error) && Untouched()
      ensures ItemsFilter().Ok? ==> (r.Err? <==> old(dm.HasConflict()))
      ensures ItemsFilter().Ok? && r.Err? ==> r.error.ConflictError? && Untouched()
      ensures ItemsFilter().Ok? && r.Ok? ==>
                && dm.WroteBack(old(dm.registered)) && dm.registered == []
                && r.value == Found(Merge(spec, ItemsFilter().value))
    {
      var merged := AddItemsFilter(spec);
      if merged.Err? {
        return Err(merged.error);
      }
      r := dm.CollectionFindOne(database, collection, merged.value);
    }

    /** `raw_find_one` given a document id instead of a filter. */
    method RawFindOneById(id: nat) returns (r: Result<Option<(DocRef, Doc)>>)
      requires dm.Valid()
      modifies dm`originalStates, dm`cache, dm`registered, dm.db
      modifies dm.registered`oid, dm.registered`serial, dm.registered`changed
      ensures dm.Valid()
      ensures ItemsFilter().Err? ==> r == Err(ItemsFilter().error) && Untouched()
      ensures ItemsFilter().Ok? ==> (r.Err? <==> old(dm.HasConflict()))
      ensures ItemsFilter().Ok? && r.Err? ==> r.error.ConflictError? && Untouched()
      ensures ItemsFilter().Ok? && r.Ok? ==>
                && dm.WroteBack(old(dm.registered)) && dm.registered == []
                && r.value == Found(Merge(map["_id" := Eq(Oid(id))], ItemsFilter().value))
    {
      r := RawFindOne(map["_id" := Eq(Oid(id))]);
    }

    /**
     * `_locate`: give a loaded object the name and parent it has as an item
     * of this container, where it does not resolve to any yet.
     */
    method Locate(obj: Persistent, ref: DocRef, doc: Doc) returns (r: Outcome)
      modifies obj`vName, obj`vParent
      ensures r.Fail? <==>
                Resolve(obj.nameResolver, old(obj.vName), obj.attrs) == Null
                && (mappingKey.None? || FieldValue(ref, doc, mappingKey.value).None?)
      ensures r.Fail? ==> r.error.KeyError?
      ensures Resolve(obj.nameResolver, old(obj.vName), obj.attrs) != Null ==>
                obj.vName == Resolve(obj.nameResolver, old(obj.vName), obj.attrs)
      ensures Resolve(obj.nameResolver, old(obj.vName), obj.attrs) == Null ==>
                if mappingKey.None? then r == Fail(KeyError(Null))
                else if FieldValue(ref, doc, mappingKey.value).None? then r == Fail(KeyError(Text(mappingKey.value)))
                else obj.vName == FieldValue(ref, doc, mappingKey.value).value
      ensures r.Pass? ==>
                obj.vParent == (var p := Resolve(obj.parentResolver, old(obj.vParent), obj.attrs);
                                if p == Null then Obj(this) else p)
    {
      var name := obj.GetName();
      if name == Null {
        if mappingKey.None? {
          return Fail(KeyError(Null));
        }
        match FieldValue(ref, doc, mappingKey.value) {
          case None => return Fail(KeyError(Text(mappingKey.value)));
          case Some(v) => obj.vName := v;
        }
      }
      var parent := obj.GetParent();
      if parent == Null {
        obj.vParent := Obj(this);
      }
      r := Pass;
    }

    /** `_load_one`: the object of a found document, located in this container. */
    method LoadOne(ref: DocRef, doc: Doc) returns (r: Result<Persistent>)
      requires dm.Valid() && ref in dm.db.docs
      modifies dm`cache, dm`needsToJoin, dm.cache.Values`vName, dm.cache.Values`vParent
      ensures dm.Valid()
      ensures ref in dm.cache && (r.Ok? ==> r.value == dm.cache[ref])
      ensures ref in old(dm.cache) ==> dm.cache == old(dm.cache)
      ensures ref !in old(dm.cache) ==>
                && fresh(dm.cache[ref]) && dm.cache == old(dm.cache)[ref := dm.cache[ref]]
                && dm.cache[ref].oid == Some(ref) && dm.cache[ref].attrs == doc.fields
                && dm.cache[ref].serial == doc.serial
                && dm.cache[ref].nameResolver == dm.classes(ref.database, ref.collection).nameResolver
                && dm.cache[ref].parentResolver == dm.classes(ref.database, ref.collection).parentResolver
      ensures mappingKey.Some? && FieldValue(ref, doc, mappingKey.value).Some? ==> r.Ok?
      ensures ref in old(dm.cache)
              && Resolve(old(dm.cache[ref]).nameResolver, old(dm.cache[ref].vName), old(dm.cache[ref].attrs)) != Null
              ==> r.Ok?
      ensures ref !in old(dm.cache)
              && Resolve(dm.classes(ref.database, ref.collection).nameResolver, Null, doc.fields) != Null
              ==> r.Ok?
      ensures r.Err? ==> r.error == KeyError(if mappingKey.None? then Null else Text(mappingKey.value))
      ensures r.Ok? ==> r.value.vParent != Null
      ensures r.Ok? ==>
                r.value.vName != Null || (mappingKey.Some? && FieldValue(ref, doc, mappingKey.value) == Some(Null))
    {
      var obj := dm.LoadDoc(ref, doc);
      var located := Locate(obj, ref, doc);
      if located.Fail? {
        return Err(located.error);
      }
      r := Ok(obj);
    }

    /**
     * The loading half of `find_one`: the object of the document the query
     * found, if any, located in this container. Every entry the identity map
     * gains is a new object holding its document.
     */
    method LoadFound(m: Option<(DocRef, Doc)>, ghost f: Filter) returns (r: Result<Option<Persistent>>)
      requires dm.Valid() && m == Found(f)
      modifies dm`cache, dm`needsToJoin, dm.cache.Values`vName, dm.cache.Values`vParent
      ensures dm.Valid() && Extends(old(dm.cache), dm.cache)
      ensures forall k :: k in dm.cache && k !in old(dm.cache) ==>
                fresh(dm.cache[k]) && dm.cache[k].oid == Some(k)
                && k in dm.db.docs && dm.cache[k].attrs == dm.db.docs[k].fields
      ensures m.None? ==> r == Ok(None)
      ensures m.Some? && mappingKey.Some? && FieldValue(m.value.0, m.value.1, mappingKey.value).Some? ==>
                r.Ok? && r.value.Some?
      ensures r.Err? ==> m.Some? && r.error.KeyError?
      ensures r.Ok? && r.value.Some? ==>
                && m.Some? && HeldUnder(f, r.value.value) && r.value.value.vParent != Null
                && (r.value.value.vName != Null
                    || (mappingKey.Some? && FieldValue(m.value.0, m.value.1, mappingKey.value) == Some(Null)))
    {
      if m.None? {
        return Ok(None);
      }
      var (ref, doc) := m.value;
      ghost var all := Query(dm.db.docs, database, collection, f, dm.db.nextId);
      assert all[0] == (ref, doc);
      var obj := LoadOne(ref, doc);
      if obj.Err? {
        return Err(obj.error);
      }
      r := Ok(Some(obj.value));
    }

    /**
     * `find_one`: the object of the first document matching `spec`, or None.
     * Every entry the identity map gains is either an object that was
     * registered and is now stored, or a new object holding its document.
     */
    method FindOne(spec: Filter) returns (r: Result<Option<Persistent>>)
      requires dm.Valid()
      modifies dm`originalStates, dm`cache, dm`registered, dm`needsToJoin, dm.db
      modifies dm.registered`oid, dm.registered`serial, dm.registered`changed
      modifies dm.registered`vName, dm.registered`vParent, dm.cache.Values`vName, dm.cache.Values`vParent
      ensures dm.Valid()
      ensures ItemsFilter().Err? ==> r == Err(ItemsFilter().error) && Untouched()
      ensures ItemsFilter().Ok? ==> (r.Err? && r.error.ConflictError? <==> old(dm.HasConflict()))
      ensures ItemsFilter().Ok? && old(dm.HasConflict()) ==> Untouched()
      ensures ItemsFilter().Ok? && !old(dm.HasConflict()) ==>
                dm.Flushed(old(dm.registered)) && dm.registered == [] && Extends(old(dm.cache), dm.cache)
      ensures ItemsFilter().Ok? && !old(dm.HasConflict()) ==>
                var m := Found(Merge(spec, ItemsFilter().value));
                && (m.None? ==> r == Ok(None))
                && (m.Some? && mappingKey.Some? && FieldValue(m.value.0, m.value.1, mappingKey.value).Some? ==>
                      r.Ok? && r.value.Some?)
                && (r.Err? ==> m.Some? && r.error.KeyError?)
      ensures r.Ok? && r.value.Some? ==>
                && ItemsFilter().Ok? && Found(Merge(spec, ItemsFilter().value)).Some?
                && HeldUnder(Merge(spec, ItemsFilter().value), r.value.value)
                && r.value.value.vParent != Null
                && (var (ref, doc) := Found(Merge(spec, ItemsFilter().value)).value;
                    r.value.value.vName != Null || (mappingKey.Some? && FieldValue(ref, doc, mappingKey.value) == Some(Null)))
      ensures forall k :: k in dm.cache && k !in old(dm.cache) ==>
                dm.cache[k] in old(dm.registered)
                || (fresh(dm.cache[k]) && dm.cache[k].oid == Some(k)
                    && k in dm.db.docs && dm.cache[k].attrs == dm.db.docs[k].fields)
    {
      var found := RawFindOne(spec);
      if found.Err? {
        return Err(found.error);
      }
      r := LoadFound(found.value, Merge(spec, ItemsFilter().value));
    }

    /** The filter `__getitem__` queries: the container's, with the mapping key set to `key`. */
    function KeyFilter(items: Filter, key: Value): Filter
      requires mappingKey.Some?
    {
      items[mappingKey.value := Eq(key)]
    }

    /**
     * `__getitem__`: the item stored under `key`. The query flushes first;
     * no match is a KeyError. The identity map gains only stored objects
     * that were registered and new objects holding their documents.
     */
    method GetItem(key: Value) returns (r: Result<Persistent>)
      requires dm.Valid()
      modifies dm`originalStates, dm`cache, dm`registered, dm`needsToJoin, dm.db
      modifies dm.registered`oid, dm.registered`serial, dm.registered`changed
      modifies dm.registered`vName, dm.registered`vParent, dm.cache.Values`vName, dm.cache.Values`vParent
      ensures dm.Valid()
      ensures ItemsFilter().Err? ==> r == Err(ItemsFilter().error) && Untouched()
      ensures ItemsFilter().Ok? ==> (r.Err? && r.error.ConflictError? <==> old(dm.HasConflict()))
      ensures ItemsFilter().Ok? && old(dm.HasConflict()) ==> Untouched()
      ensures ItemsFilter().Ok? && !old(dm.HasConflict()) ==>
                dm.Flushed(old(dm.registered)) && dm.registered == [] && Extends(old(dm.cache), dm.cache)
      ensures ItemsFilter().Ok? && mappingKey.None? ==> r.Err? && (r.error.ConflictError? || r.error == InvalidQuery)
      ensures ItemsFilter().Ok? && mappingKey.Some? && !old(dm.HasConflict()) ==>
                && (Found(KeyFilter(ItemsFilter().value, key)).None? ==> r == Err(KeyError(key)))
                && (key != Null ==> (r.Ok? <==> Found(KeyFilter(ItemsFilter().value, key)).Some?))
                && (r.Err? ==> r.error.KeyError?)
      ensures r.Ok? ==>
                && mappingKey.Some? && ItemsFilter().Ok? && HeldUnder(KeyFilter(ItemsFilter().value, key), r.value)
                && r.value.vParent != Null && (key != Null ==> r.value.vName != Null)
      ensures forall k :: k in dm.cache && k !in old(dm.cache) ==>
                dm.cache[k] in old(dm.registered)
                || (fresh(dm.cache[k]) && dm.cache[k].oid == Some(k)
                    && k in dm.db.docs && dm.cache[k].attrs == dm.db.docs[k].fields)
    {
      var items := ItemsFilter();
      if items.Err? {
        return Err(items.error);
      }
      if mappingKey.None? {
        var rejected := RejectQuery();
        return Err(rejected.error);
      }
      var found := FindKey(key);
      if found.Err? {
        return Err(found.error);
      }
      if found.value.None? {
        return Err(KeyError(key));
      }
      r := Ok(found.value.value);
    }

    /**
     * `find_one` on the container's filter with the mapping key set to
     * `key`: for a key that is not None, a found document holds that key.
     */
    method FindKey(key: Value) returns (r: Result<Option<Persistent>>)
      requires dm.Valid() && ItemsFilter().Ok? && mappingKey.Some?
      modifies dm`originalStates, dm`cache, dm`registered, dm`needsToJoin, dm.db
      modifies dm.registered`oid, dm.registered`serial, dm.registered`changed
      modifies dm.registered`vName, dm.registered`vParent, dm.cache.Values`vName, dm.cache.Values`vParent
      ensures dm.Valid()
      ensures r.Err? && r.error.ConflictError? <==> old(dm.HasConflict())
      ensures old(dm.HasConflict()) ==> Untouched()
      ensures !old(dm.HasConflict()) ==>
                dm.Flushed(old(dm.registered)) && dm.registered == [] && Extends(old(dm.cache), dm.cache)
      ensures !old(dm.HasConflict()) ==>
                && (Found(KeyFilter(ItemsFilter().value, key)).None? ==> r == Ok(None))
                && (Found(KeyFilter(ItemsFilter().value, key)).Some? && key != Null ==> r.Ok? && r.value.Some?)
                && (r.Err? ==> r.error.KeyError?)
      ensures r.Ok? && r.value.Some? ==>
                && HeldUnder(KeyFilter(ItemsFilter().value, key), r.value.value)
                && r.value.value.vParent != Null && (key != Null ==> r.value.value.vName != Null)
      ensures forall k :: k in dm.cache && k !in old(dm.cache) ==>
                dm.cache[k] in old(dm.registered)
                || (fresh(dm.cache[k]) && dm.cache[k].oid == Some(k)
                    && k in dm.db.docs && dm.cache[k].attrs == dm.db.docs[k].fields)
    {
      MergeOverride(ItemsFilter().value, mappingKey.value, Eq(key));
      r := FindOne(map[mappingKey.value := Eq(key)]);
      if key != Null {
        FoundHoldsKey(key);
      }
    }

    /** A document found under the key filter holds `key` under the mapping key, unless `key` is None. */
    lemma FoundHoldsKey(key: Value)
      requires mappingKey.Some? && ItemsFilter().Ok? && key != Null
      ensures Found(KeyFilter(ItemsFilter().value, key)).Some? ==>
                var (ref, doc) := Found(KeyFilter(ItemsFilter().value, key)).value;
                FieldValue(ref, doc, mappingKey.value) == Some(key)
    {
      var f := KeyFilter(ItemsFilter().value, key);
      var all := Query(dm.db.docs, database, collection, f, dm.db.nextId);
      if all != [] {
        assert Matches(all[0].0, all[0].1, f);
        assert Holds(f[mappingKey.value], FieldValue(all[0].0, all[0].1, mappingKey.value));
      }
    }

    /** `get(key)`: the item stored under `key`, or None where `__getitem__` raises KeyError. */
    method Get(key: Value) returns (r: Result<Option<Persistent>>)
      requires dm.Valid()
      modifies dm`originalStates, dm`cache, dm`registered, dm`needsToJoin, dm.db
      modifies dm.registered`oid, dm.registered`serial, dm.registered`changed
      modifies dm.registered`vName, dm.registered`vParent, dm.cache.Values`vName, dm.cache.Values`vParent
      ensures dm.Valid()
      ensures ItemsFilter().Err? ==> r == Err(ItemsFilter().error) && Untouched()
      ensures ItemsFilter().Ok? ==> (r.Err? && r.error.ConflictError? <==> old(dm.HasConflict()))
      ensures ItemsFilter().Ok? && old(dm.HasConflict()) ==> Untouched()
      ensures ItemsFilter().Ok? && !old(dm.HasConflict()) ==>
                dm.Flushed(old(dm.registered)) && dm.registered == [] && Extends(old(dm.cache), dm.cache)
      ensures ItemsFilter().Ok? && mappingKey.None? ==> r.Err? && (r.error.ConflictError? || r.error == InvalidQuery)
      ensures ItemsFilter().Ok? && mappingKey.Some? && !old(dm.HasConflict()) ==>
                && r.Ok?
                && (Found(KeyFilter(ItemsFilter().value, key)).None? ==> r.value.None?)
                && (key != Null ==> (r.value.Some? <==> Found(KeyFilter(ItemsFilter().value, key)).Some?))
      ensures r.Err? ==> !r.error.KeyError?
      ensures r.Ok? && r.value.Some? ==>
                && mappingKey.Some? && ItemsFilter().Ok? && HeldUnder(KeyFilter(ItemsFilter().value, key), r.value.value)
                && r.value.value.vParent != Null && (key != Null ==> r.value.value.vName != Null)
      ensures forall k :: k in dm.cache && k !in old(dm.cache) ==>
                dm.cache[k] in old(dm.registered)
                || (fresh(dm.cache[k]) && dm.cache[k].oid == Some(k)
                    && k in dm.db.docs && dm.cache[k].attrs == dm.db.docs[k].fields)
    {
      var found := GetItem(key);
      match found {
        case Ok(obj) => r := Ok(Some(obj));
        case Err(e) => r := if e.KeyError? then Ok(None) else Err(e);
      }
    }

    /**
     * What a successful placement leaves on `value`: it is stored, carries
     * the key and the owner in its mapping-key and parent-key attributes, and
     * is named `key` inside this container.
     */
    ghost predicate Placed(key: Value, value: Persistent)
      reads value
    {
      && value.oid.Some?
      && (mappingKey.Some? && mappingKey != parentKey ==>
            mappingKey.value in value.attrs && value.attrs[mappingKey.value] == key)
      && (parentKey.Some? && ParentKeyValue().Ok? ==>
            parentKey.value in value.attrs && value.attrs[parentKey.value] == ParentKeyValue().value)
      && value.vName == key && value.vParent == Obj(this)
    }

    /**
     * The attribute writes of `_real_setitem`: the key under the mapping key
     * and the owner under the parent key, each registering the stored value.
     */
    method WriteKeyAttributes(key: Value, value: Persistent) returns (r: Outcome)
      requires value.oid.Some?
      modifies dm`registered, dm`needsToJoin, value`changed, value`attrs
      ensures r.Fail? <==> parentKey.Some? && jar.Detached?
      ensures r.Fail? ==> r.error == NotAttached
      ensures mappingKey.Some? && mappingKey != parentKey ==>
                mappingKey.value in value.attrs && value.attrs[mappingKey.value] == key
      ensures r.Pass? && parentKey.Some? ==>
                parentKey.value in value.attrs && value.attrs[parentKey.value] == ParentKeyValue().value
      ensures value.attrs - KeyAttributes() == old(value.attrs) - KeyAttributes()
      ensures forall k :: k in value.attrs && Some(k) != mappingKey && Some(k) != parentKey ==>
                k in old(value.attrs) && value.attrs[k] == old(value.attrs[k])
      ensures dm.registered == if mappingKey.Some? || (parentKey.Some? && r.Pass?)
                               then Enqueue(old(dm.registered), value) else old(dm.registered)
      ensures mappingKey.Some? || (parentKey.Some? && r.Pass?) ==> value.changed
    {
      if mappingKey.Some? {
        dm.SetAttribute(value, mappingKey.value, key);
      }
      if parentKey.Some? {
        match ParentKeyValue() {
          case Err(e) => return Fail(e);
          case Ok(v) => dm.SetAttribute(value, parentKey.value, v);
        }
      }
      r := Pass;
    }

    /**
     * `_real_setitem`: store `value` if it is new, then write the mapping
     * key and the owner onto it, which registers it for the next flush.
     */
    method RealSetItem(key: Value, value: Persistent) returns (r: Outcome)
      requires dm.Valid()
      modifies dm`originalStates, dm`cache, dm`inserted, dm`needsToJoin, dm`registered, dm.db
      modifies value`oid, value`serial, value`changed, value`attrs
      ensures dm.Valid()
      ensures r.Fail? <==> parentKey.Some? && jar.Detached?
      ensures r.Fail? ==> r.error == NotAttached
      ensures value.oid.Some?
      ensures old(value.oid).Some? ==>
                value.oid == old(value.oid) && dm.db.docs == old(dm.db.docs) && dm.cache == old(dm.cache)
      ensures old(value.oid).None? ==>
                && value.oid.value !in old(dm.db.docs) && value.oid.value !in old(dm.cache)
                && value.oid.value.database == value.database && value.oid.value.collection == value.collection
                && dm.db.docs == old(dm.db.docs)[value.oid.value := Doc(old(value.attrs), value.serial)]
                && dm.cache == old(dm.cache)[value.oid.value := value]
                && dm.inserted == old(dm.inserted) + [value]
      ensures mappingKey.Some? && mappingKey != parentKey ==>
                mappingKey.value in value.attrs && value.attrs[mappingKey.value] == key
      ensures r.Pass? && parentKey.Some? ==>
                parentKey.value in value.attrs && value.attrs[parentKey.value] == ParentKeyValue().value
      ensures value.attrs - KeyAttributes() == old(value.attrs) - KeyAttributes()
      ensures forall k :: k in value.attrs && Some(k) != mappingKey && Some(k) != parentKey ==>
                k in old(value.attrs) && value.attrs[k] == old(value.attrs[k])
      ensures dm.registered == if mappingKey.Some? || (parentKey.Some? && r.Pass?)
                               then Enqueue(old(dm.registered), value) else old(dm.registered)
      ensures mappingKey.Some? || (parentKey.Some? && r.Pass?) ==> value.changed
    {
      if value.oid.None? {
        var inserted := dm.Insert(value);
      }
      r := WriteKeyAttributes(key, value);
    }

    /**
     * `value` is placed under `key`, and compared with the store and identity
     * map `seen` only its own document may differ and only it may have joined
     * the identity map.
     */
    ghost predicate PlacedSince(seen: Seen, key: Value, value: Persistent)
      reads dm, dm.db, value
    {
      && Placed(key, value)
      && (forall ref :: Some(ref) != value.oid ==> Lookup(dm.db.docs, ref) == Lookup(seen.docs, ref))
      && Extends(seen.cache, dm.cache)
      && (forall k :: k in dm.cache && k !in seen.cache ==> dm.cache[k] == value)
    }

    /**
     * `value` has a reference of its own collection that was free in `seen`,
     * and is stored and cached under it, with its serial.
     */
    ghost predicate NewlyStored(seen: Seen, value: Persistent)
      reads dm, dm.db, value
    {
      && value.oid.Some? && value.oid.value !in seen.docs
      && value.oid.value.database == value.database && value.oid.value.collection == value.collection
      && value.oid.value in dm.db.docs && dm.db.docs[value.oid.value].serial == value.serial
      && value.oid.value in dm.cache && dm.cache[value.oid.value] == value
    }

    /**
     * The tail of `_after_setitem_hook`: make `value` named `key` inside this
     * container unless it already is, then store it.
     */
    method Place(key: Value, value: Persistent) returns (r: Outcome)
      requires dm.Valid()
      modifies dm`originalStates, dm`cache, dm`inserted, dm`needsToJoin, dm`registered, dm.db, value
      ensures dm.Valid()
      ensures r.Fail? <==> parentKey.Some? && jar.Detached?
      ensures r.Fail? ==> r.error == NotAttached
      ensures r.Pass? ==> Placed(key, value)
      ensures old(value.oid).Some? ==>
                value.oid == old(value.oid) && dm.db.docs == old(dm.db.docs) && dm.cache == old(dm.cache)
      ensures old(value.oid).None? ==>
                && value.oid.Some? && value.oid.value !in old(dm.db.docs) && value.oid.value !in old(dm.cache)
                && value.oid.value.database == value.database && value.oid.value.collection == value.collection
                && value.oid.value in dm.db.docs && dm.db.docs[value.oid.value].serial == value.serial
                && dm.db.docs == old(dm.db.docs)[value.oid.value := dm.db.docs[value.oid.value]]
                && dm.cache == old(dm.cache)[value.oid.value := value]
      ensures dm.registered == if mappingKey.Some? || (parentKey.Some? && r.Pass?)
                               then Enqueue(old(dm.registered), value) else old(dm.registered)
      ensures forall ref :: Some(ref) != value.oid ==> Lookup(dm.db.docs, ref) == Lookup(old(dm.db.docs), ref)
      ensures Extends(old(dm.cache), dm.cache)
      ensures forall k :: k in dm.cache && k !in old(dm.cache) ==> dm.cache[k] == value
    {
      Adopt(key, value);
      r := RealSetItem(key, value);
    }

    /**
     * The start of `_after_setitem_hook`'s tail: unless `value` already has
     * this container as its parent and `key` as its name, set both.
     */
    method Adopt(key: Value, value: Persistent)
      modifies value`vName, value`vParent, value`attrs
      ensures value.vName == key && value.vParent == Obj(this)
      ensures key != Null && old(value.vParent) == Obj(this) && old(value.vName) == key ==>
                value.attrs == old(value.attrs)
    {
      var parent := value.GetParent();
      var consistent := false;
      if parent == Obj(this) {
        var name := value.GetName();
        consistent := name == key;
      }
      if !consistent {
        value.SetParent(Obj(this));
        value.SetName(key);
      }
    }

    /**
     * What the lookup of `key` by a container with a mapping key left behind:
     * `seen` is the store and identity map after its flush, `holder` the
     * object held under the key there, if any, and the identity map only grew,
     * by objects registered before (the `queue`) or freshly loaded ones.
     */
    twostate predicate LookedUp(key: Value, queue: seq<Persistent>, new holder: Option<Persistent>, new seen: Seen)
    {
      && ItemsFilter().Ok? && mappingKey.Some?
      && (holder.None? <==> NoneMatch(seen.docs, KeyFilter(ItemsFilter().value, key)))
      && (holder.Some? ==> HeldIn(seen, KeyFilter(ItemsFilter().value, key), holder.value))
      && Extends(old(dm.cache), seen.cache)
      && (forall k :: k in seen.cache && k !in old(dm.cache) ==> seen.cache[k] in queue || fresh(seen.cache[k]))
    }

    /**
     * The lookup of `_after_setitem_hook`: `get(key)`, with `seen` the store
     * and identity map right after it. The value being stored keeps its
     * attributes and its reference.
     */
    method LookUpKey(key: Value, value: Persistent) returns (existing: Result<Option<Persistent>>, ghost seen: Seen)
      requires dm.Valid() && key != Null
      modifies dm`originalStates, dm`cache, dm`registered, dm`needsToJoin, dm.db
      modifies dm.registered`oid, dm.registered`serial, dm.registered`changed
      modifies dm.registered`vName, dm.registered`vParent, dm.cache.Values`vName, dm.cache.Values`vParent
      ensures dm.Valid() && seen == Now()
      ensures ItemsFilter().Err? ==> existing == Err(ItemsFilter().error) && Untouched()
      ensures ItemsFilter().Ok? ==> (existing.Err? && existing.error.ConflictError? <==> old(dm.HasConflict()))
      ensures ItemsFilter().Ok? && old(dm.HasConflict()) ==> Untouched()
      ensures ItemsFilter().Ok? && mappingKey.None? ==> existing.Err?
      ensures value.attrs == old(value.attrs)
      ensures old(value.oid).Some? || value !in old(dm.registered) ==> value.oid == old(value.oid)
      ensures ItemsFilter().Ok? && mappingKey.Some? && !old(dm.HasConflict()) ==>
                && existing.Ok? && dm.registered == []
                && LookedUp(key, old(dm.registered), existing.value, seen)
                && (value !in old(dm.registered) ==>
                      seen.docs == WriteBack(Dedup(old(dm.registered)), old(dm.db.docs)))
      ensures existing.Ok? && existing.value.Some? ==> !old(dm.HasConflict()) && mappingKey.Some?
    {
      existing := Get(key);
      seen := Now();
      if ItemsFilter().Ok? && mappingKey.Some? {
        FirstMatchNone(dm.db, database, collection, KeyFilter(ItemsFilter().value, key));
      }
      if existing.Err? {
        if ItemsFilter().Err? || old(dm.HasConflict()) {
          if value in dm.registered {
            assert unchanged(value);
          }
        } else if value in old(dm.registered) {
          assert dm.Flushed(old(dm.registered));
        }
      }
    }

    /**
     * The end of `_after_setitem_hook` once the lookup saw `seen`: nothing
     * to do when `holder`, the object under the key, is `value` itself, a
     * key error when it is another object, and placing `value` otherwise.
     */
    method Settle(key: Value, value: Persistent, holder: Option<Persistent>, ghost seen: Seen) returns (r: Outcome)
      requires dm.Valid() && seen == Now() && ItemsFilter().Ok?
      modifies dm`originalStates, dm`cache, dm`inserted, dm`needsToJoin, dm`registered, dm.db, value
      ensures dm.Valid()
      ensures old(value.oid).Some? ==> value.oid == old(value.oid)
      ensures holder.Some? ==>
                && Now() == seen && dm.registered == old(dm.registered)
                && r == (if holder.value == value then Pass else Fail(KeyError(key)))
                && value.attrs == old(value.attrs)
      ensures holder.Some? ==> unchanged(value)
      ensures holder.None? && mappingKey.Some? ==>
                r == Pass && PlacedSince(seen, key, value) && dm.registered == Enqueue(old(dm.registered), value)
      ensures holder.None? && old(value.oid).None? ==> NewlyStored(seen, value)
    {
      if holder.Some? {
        return if holder.value == value then Pass else Fail(KeyError(key));
      }
      r := Place(key, value);
    }

    /**
     * `_after_setitem_hook` for a key that passed the check: look the key
     * up, then settle. `holder` is the object the lookup found under the key
     * and `seen` the store and identity map the lookup saw, after its flush.
     */
    method StoreChecked(key: Value, value: Persistent)
      returns (r: Outcome, ghost holder: Option<Persistent>, ghost seen: Seen)
      requires dm.Valid() && CheckKey(key) == Pass
      modifies dm`originalStates, dm`cache, dm`registered, dm`needsToJoin, dm`inserted, dm.db, value
      modifies dm.registered`oid, dm.registered`serial, dm.registered`changed
      modifies dm.registered`vName, dm.registered`vParent, dm.cache.Values`vName, dm.cache.Values`vParent
      ensures dm.Valid()
      ensures ItemsFilter().Err? ==>
                r == Fail(ItemsFilter().error) && holder.None? && Untouched() && value.attrs == old(value.attrs)
      ensures ItemsFilter().Ok? ==> (r.Fail? && r.error.ConflictError? <==> old(dm.HasConflict()))
      ensures ItemsFilter().Ok? && old(dm.HasConflict()) ==>
                holder.None? && Untouched() && value.attrs == old(value.attrs)
      ensures old(value.oid).Some? ==> value.oid == old(value.oid)
      ensures ItemsFilter().Ok? && mappingKey.None? ==> r.Fail? && holder.None?
      ensures ItemsFilter().Ok? && mappingKey.Some? && !old(dm.HasConflict()) ==>
                && LookedUp(key, old(dm.registered), holder, seen)
                && (value !in old(dm.registered) ==>
                      seen.docs == WriteBack(Dedup(old(dm.registered)), old(dm.db.docs)))
      ensures holder.Some? ==>
                && !old(dm.HasConflict()) && Now() == seen && dm.registered == []
                && r == (if holder.value == value then Pass else Fail(KeyError(key)))
                && value.attrs == old(value.attrs)
      ensures holder.None? && ItemsFilter().Ok? && mappingKey.Some? && !old(dm.HasConflict()) ==>
                r == Pass && PlacedSince(seen, key, value) && dm.registered == [value]
      ensures holder.None? && ItemsFilter().Ok? && mappingKey.Some? && !old(dm.HasConflict())
              && old(value.oid).None? && value !in old(dm.registered) ==>
                NewlyStored(seen, value)
    {
      var existing;
      existing, seen := LookUpKey(key, value);
      if existing.Err? {
        return Fail(existing.error), None, seen;
      }
      holder := existing.value;
      r := Settle(key, value, existing.value, seen);
    }

    /**
     * `_after_setitem_hook`: check the key, refuse a key taken by another
     * object, do nothing for the object already stored under it, and place
     * the value otherwise. `holder` is the object the lookup found under the
     * key and `seen` the store and identity map the lookup saw, after its
     * flush.
     */
    method AfterSetItemHook(key: Value, value: Persistent)
      returns (r: Outcome, ghost holder: Option<Persistent>, ghost seen: Seen)
      requires dm.Valid()
      modifies dm`originalStates, dm`cache, dm`registered, dm`needsToJoin, dm`inserted, dm.db, value
      modifies dm.registered`oid, dm.registered`serial, dm.registered`changed
      modifies dm.registered`vName, dm.registered`vParent, dm.cache.Values`vName, dm.cache.Values`vParent
      ensures dm.Valid()
      ensures !key.Text? ==> r == Fail(TypeError) && holder.None? && unchanged(dm, dm.db, value)
      ensures key == Text([]) ==> r == Fail(EmptyKey) && holder.None? && unchanged(dm, dm.db, value)
      ensures CheckKey(key) == Pass && ItemsFilter().Err? ==>
                r == Fail(ItemsFilter().error) && holder.None? && Untouched() && value.attrs == old(value.attrs)
      ensures CheckKey(key) == Pass && ItemsFilter().Ok? ==>
                (r.Fail? && r.error.ConflictError? <==> old(dm.HasConflict()))
      ensures CheckKey(key) == Pass && ItemsFilter().Ok? && old(dm.HasConflict()) ==>
                holder.None? && Untouched() && value.attrs == old(value.attrs)
      ensures old(value.oid).Some? ==> value.oid == old(value.oid)
      ensures CheckKey(key) == Pass && ItemsFilter().Ok? && mappingKey.None? ==> r.Fail? && holder.None?
      ensures CheckKey(key) == Pass && ItemsFilter().Ok? && mappingKey.Some? && !old(dm.HasConflict()) ==>
                && LookedUp(key, old(dm.registered), holder, seen)
                && (value !in old(dm.registered) ==>
                      seen.docs == WriteBack(Dedup(old(dm.registered)), old(dm.db.docs)))
      ensures holder.Some? ==>
                && CheckKey(key) == Pass && !old(dm.HasConflict())
                && Now() == seen && dm.registered == []
                && r == (if holder.value == value then Pass else Fail(KeyError(key)))
                && value.attrs == old(value.attrs)
      ensures holder.None? && CheckKey(key) == Pass && ItemsFilter().Ok? && mappingKey.Some?
              && !old(dm.HasConflict()) ==>
                r == Pass && PlacedSince(seen, key, value) && dm.registered == [value]
      ensures holder.None? && CheckKey(key) == Pass && ItemsFilter().Ok? && mappingKey.Some?
              && !old(dm.HasConflict()) && old(value.oid).None? && value !in old(dm.registered) ==>
                NewlyStored(seen, value)
    {
      holder, seen := None, Now();
      r := CheckKey(key);
      if r.Fail? {
        return;
      }
      r, holder, seen := StoreChecked(key, value);
    }

    /**
     * `__setitem__` hands a key on to the hook: the one given, or the
     * value's mapping-key attribute.
     */
    predicate KeyGiven(key: Value, attrs: Fields)
    {
      key != Null || (mappingKey.Some? && mappingKey.value in attrs)
    }

    /**
     * `__setitem__`: with no key, the key is the new document's id when the
     * container has no mapping key, and the value's mapping-key attribute
     * otherwise. `derived` is the key handed to the hook.
     */
    method SetItem(key: Value, value: Persistent)
      returns (r: Outcome, ghost derived: Value, ghost holder: Option<Persistent>, ghost seen: Seen)
      requires dm.Valid()
      modifies dm`originalStates, dm`cache, dm`registered, dm`needsToJoin, dm`inserted, dm.db, value
      modifies dm.registered`oid, dm.registered`serial, dm.registered`changed
      modifies dm.registered`vName, dm.registered`vParent, dm.cache.Values`vName, dm.cache.Values`vParent
      ensures dm.Valid()
      ensures key != Null ==> derived == key
      ensures key == Null && mappingKey.Some? && mappingKey.value in old(value.attrs) ==>
                derived == old(value.attrs)[mappingKey.value]
      ensures key == Null && mappingKey.Some? && mappingKey.value !in old(value.attrs) ==>
                r == Fail(AttributeError(mappingKey.value)) && holder.None? && unchanged(dm, dm.db, value)
      ensures key == Null && mappingKey.None? ==>
                value.oid.Some? && derived == Text(IdText(value.oid.value.id))
      ensures key == Null && mappingKey.None? && ItemsFilter().Ok? ==> r.Fail?
      ensures KeyGiven(key, old(value.attrs)) && !derived.Text? ==>
                r == Fail(TypeError) && holder.None? && unchanged(dm, dm.db, value)
      ensures KeyGiven(key, old(value.attrs)) && derived == Text([]) ==>
                r == Fail(EmptyKey) && holder.None? && unchanged(dm, dm.db, value)
      ensures KeyGiven(key, old(value.attrs)) && CheckKey(derived) == Pass && ItemsFilter().Err? ==>
                r == Fail(ItemsFilter().error) && holder.None? && Untouched() && value.attrs == old(value.attrs)
      ensures KeyGiven(key, old(value.attrs)) && CheckKey(derived) == Pass && ItemsFilter().Ok? ==>
                (r.Fail? && r.error.ConflictError? <==> old(dm.HasConflict()))
      ensures KeyGiven(key, old(value.attrs)) && CheckKey(derived) == Pass && ItemsFilter().Ok?
              && old(dm.HasConflict()) ==>
                holder.None? && Untouched() && value.attrs == old(value.attrs)
      ensures old(value.oid).Some? ==> value.oid == old(value.oid)
      ensures KeyGiven(key, old(value.attrs)) && CheckKey(derived) == Pass && ItemsFilter().Ok?
              && mappingKey.Some? && !old(dm.HasConflict()) ==>
                && LookedUp(derived, old(dm.registered), holder, seen)
                && (value !in old(dm.registered) ==>
                      seen.docs == WriteBack(Dedup(old(dm.registered)), old(dm.db.docs)))
      ensures holder.Some? ==>
                && KeyGiven(key, old(value.attrs)) && CheckKey(derived) == Pass && !old(dm.HasConflict())
                && Now() == seen && dm.registered == []
                && r == (if holder.value == value then Pass else Fail(KeyError(derived)))
      ensures holder.Some? ==> value.attrs == old(value.attrs)
      ensures holder.None? && KeyGiven(key, old(value.attrs)) && CheckKey(derived) == Pass
              && ItemsFilter().Ok? && mappingKey.Some? && !old(dm.HasConflict()) ==>
                r == Pass && PlacedSince(seen, derived, value) && dm.registered == [value]
      ensures holder.None? && KeyGiven(key, old(value.attrs)) && CheckKey(derived) == Pass
              && ItemsFilter().Ok? && mappingKey.Some? && !old(dm.HasConflict())
              && old(value.oid).None? && value !in old(dm.registered) ==>
                NewlyStored(seen, value)
    {
      var k := key;
      if key == Null {
        if mappingKey.None? {
          if value.oid.None? {
            var inserted := dm.Insert(value);
          }
          k := Text(IdText(value.oid.value.id));
        } else {
          if mappingKey.value !in value.attrs {
            return Fail(AttributeError(mappingKey.value)), Null, None, Now();
          }
          k := value.attrs[mappingKey.value];
        }
      }
      derived := k;
      r, holder, seen := AfterSetItemHook(k, value);
    }

    /** `_after_delitem_hook`: the value is no longer named or parented. */
    method AfterDelItemHook(value: Persistent)
      modifies value`vName, value`vParent, value`attrs
      ensures value.vName == Null && value.vParent == Null
      ensures value.attrs == Assign(value.nameResolver, Assign(value.parentResolver, old(value.attrs), Null), Null)
      ensures value.nameResolver.setter.None? && value.parentResolver.setter.None? ==>
                value.attrs == old(value.attrs)
    {
      value.SetParent(Null);
      value.SetName(Null);
    }

    /** The attributes a stored item carries because it is in this container. */
    function KeyAttributes(): (ks: set<string>)
      ensures forall k :: k in ks <==> Some(k) == mappingKey || Some(k) == parentKey
    {
      (if mappingKey.Some? then {mappingKey.value} else {}) + (if parentKey.Some? then {parentKey.value} else {})
    }

    /** Delete the mapping-key and parent-key attributes, each where present. */
    method StripKeyAttributes(value: Persistent)
      requires dm.Valid()
      modifies dm`registered, dm`needsToJoin, value`attrs, value`changed
      ensures dm.Valid()
      ensures value.attrs == old(value.attrs) - KeyAttributes()
    {
      if mappingKey.Some? {
        var present := dm.DeleteAttribute(value, mappingKey.value);
      }
      if parentKey.Some? {
        var present := dm.DeleteAttribute(value, parentKey.value);
      }
    }

    /**
     * The body of `__delitem__` once the item is found: strip the mapping and
     * parent attributes where present, delete the document when this
     * container removes documents, and clear the name and parent.
     */
    method RemoveItem(value: Persistent) returns (r: Outcome)
      requires dm.Valid()
      modifies dm`originalStates, dm`inserted, dm`removed, dm`registered, dm`needsToJoin, dm.db
      modifies value`attrs, value`changed, value`vName, value`vParent
      ensures dm.Valid()
      ensures r.Fail? <==> removeDocuments && value.oid.None?
      ensures r.Fail? ==> r.error == NotStored && value.attrs == old(value.attrs) - KeyAttributes()
      ensures r.Pass? ==> value.vName == Null && value.vParent == Null
      ensures r.Pass? ==>
                value.attrs == Assign(value.nameResolver, Assign(value.parentResolver,
                                                                 old(value.attrs) - KeyAttributes(), Null), Null)
      ensures value.nameResolver.setter.None? && value.parentResolver.setter.None? ==>
                value.attrs == old(value.attrs) - KeyAttributes()
      ensures dm.db.docs == if removeDocuments && value.oid.Some? then old(dm.db.docs) - {value.oid.value}
                            else old(dm.db.docs)
      ensures forall q: seq<Persistent>, d :: value !in q && old(allocated(q)) && old(allocated(d)) ==>
                WriteBack(q, d) == old(WriteBack(q, d))
    {
      StripKeyAttributes(value);
      if removeDocuments {
        r := dm.Remove(value);
        if r.Fail? {
          return;
        }
      }
      AfterDelItemHook(value);
      r := Pass;
    }

    /**
     * The lookup of `__delitem__`: `__getitem__(key)`, with `seen` the store
     * and identity map right after it. An object found that was loaded
     * before keeps its attributes; one loaded by the lookup has those of its
     * document.
     */
    method LookUpItem(key: Value) returns (found: Result<Persistent>, ghost seen: Seen)
      requires dm.Valid()
      modifies dm`originalStates, dm`cache, dm`registered, dm`needsToJoin, dm.db
      modifies dm.registered`oid, dm.registered`serial, dm.registered`changed
      modifies dm.registered`vName, dm.registered`vParent, dm.cache.Values`vName, dm.cache.Values`vParent
      ensures dm.Valid() && seen == Now()
      ensures ItemsFilter().Err? ==> found == Err(ItemsFilter().error) && Untouched()
      ensures ItemsFilter().Ok? ==> (found.Err? && found.error.ConflictError? <==> old(dm.HasConflict()))
      ensures ItemsFilter().Ok? && old(dm.HasConflict()) ==> Untouched()
      ensures ItemsFilter().Ok? && mappingKey.None? ==> found.Err?
      ensures found.Err? ==> found.error != NotStored
      ensures ItemsFilter().Ok? && mappingKey.Some? && !old(dm.HasConflict()) ==>
                && (NoneMatch(seen.docs, KeyFilter(ItemsFilter().value, key)) ==> found == Err(KeyError(key)))
                && (key != Null ==> (found.Err? <==> NoneMatch(seen.docs, KeyFilter(ItemsFilter().value, key))))
                && (found.Err? || found.value !in old(dm.registered) ==>
                      seen.docs == WriteBack(Dedup(old(dm.registered)), old(dm.db.docs)))
                && Extends(old(dm.cache), seen.cache)
      ensures found.Ok? ==>
                && ItemsFilter().Ok? && mappingKey.Some? && !old(dm.HasConflict())
                && HeldIn(seen, KeyFilter(ItemsFilter().value, key), found.value)
      ensures found.Ok? ==> found.value in old(dm.cache).Values || found.value in old(dm.registered) || fresh(found.value)
      ensures found.Ok? && fresh(found.value) ==>
                found.value.oid.Some? && found.value.oid.value in seen.docs
                && found.value.attrs == seen.docs[found.value.oid.value].fields
    {
      found := GetItem(key);
      seen := Now();
      if ItemsFilter().Ok? && mappingKey.Some? {
        FirstMatchNone(dm.db, database, collection, KeyFilter(ItemsFilter().value, key));
      }
      if found.Ok? {
        HeldProvenance(found.value, KeyFilter(ItemsFilter().value, key));
      }
    }

    /**
     * The lookup of `__delitem__` with `before`, the attributes of the object
     * found: a lookup does not change the attributes of an object loaded
     * before it.
     */
    method FetchItem(key: Value) returns (found: Result<Persistent>, ghost seen: Seen, ghost before: Fields)
      requires dm.Valid()
      modifies dm`originalStates, dm`cache, dm`registered, dm`needsToJoin, dm.db
      modifies dm.registered`oid, dm.registered`serial, dm.registered`changed
      modifies dm.registered`vName, dm.registered`vParent, dm.cache.Values`vName, dm.cache.Values`vParent
      ensures dm.Valid() && seen == Now()
      ensures ItemsFilter().Err? ==> found == Err(ItemsFilter().error) && Untouched()
      ensures ItemsFilter().Ok? ==> (found.Err? && found.error.ConflictError? <==> old(dm.HasConflict()))
      ensures ItemsFilter().Ok? && old(dm.HasConflict()) ==> Untouched()
      ensures ItemsFilter().Ok? && mappingKey.None? ==> found.Err?
      ensures found.Err? ==> found.error != NotStored
      ensures ItemsFilter().Ok? && mappingKey.Some? && !old(dm.HasConflict()) ==>
                && (NoneMatch(seen.docs, KeyFilter(ItemsFilter().value, key)) ==> found == Err(KeyError(key)))
                && (key != Null ==> (found.Err? <==> NoneMatch(seen.docs, KeyFilter(ItemsFilter().value, key))))
                && (found.Err? || found.value !in old(dm.registered) ==>
                      seen.docs == WriteBack(Dedup(old(dm.registered)), old(dm.db.docs)))
                && Extends(old(dm.cache), seen.cache)
      ensures found.Ok? ==>
                && ItemsFilter().Ok? && mappingKey.Some? && !old(dm.HasConflict())
                && HeldIn(seen, KeyFilter(ItemsFilter().value, key), found.value)
                && before == found.value.attrs
      ensures found.Ok? ==> found.value in old(dm.cache).Values || found.value in old(dm.registered) || fresh(found.value)
      ensures found.Ok? && !fresh(found.value) ==> before == old(found.value.attrs)
      ensures found.Ok? && fresh(found.value) ==>
                found.value.oid.Some? && found.value.oid.value in seen.docs
                && before == seen.docs[found.value.oid.value].fields
    {
      found, seen := LookUpItem(key);
      before := if found.Ok? then found.value.attrs else map[];
    }

    /**
     * An object held under a filter after a lookup was cached or registered
     * before it, or the lookup loaded it with the attributes of its document.
     */
    twostate lemma HeldProvenance(new o: Persistent, new f: Filter)
      requires Extends(old(dm.cache), dm.cache)
      requires forall k :: k in dm.cache && k !in old(dm.cache) ==>
                 dm.cache[k] in old(dm.registered)
                 || (fresh(dm.cache[k]) && dm.cache[k].oid == Some(k)
                     && k in dm.db.docs && dm.cache[k].attrs == dm.db.docs[k].fields)
      requires HeldUnder(f, o)
      ensures o in old(dm.cache).Values || o in old(dm.registered) || fresh(o)
      ensures fresh(o) ==> o.oid.Some? && o.oid.value in dm.db.docs && o.attrs == dm.db.docs[o.oid.value].fields
    {
      var ref :| ref in dm.db.docs && ref in dm.cache && dm.cache[ref] == o
                 && FirstMatch(dm.db.docs, database, collection, f, dm.db.nextId) == Some((ref, dm.db.docs[ref]));
      if ref in old(dm.cache) {
        assert old(dm.cache)[ref] == o;
      }
    }

    /**
     * `__delitem__`: look the item up as `__getitem__` does, then remove it.
     * `removed` is the object found, `seen` the store and identity map the
     * lookup saw, after its flush, and `before` the attributes the object
     * had then.
     */
    method DelItem(key: Value)
      returns (r: Outcome, ghost removed: Option<Persistent>, ghost seen: Seen, ghost before: Fields)
      requires dm.Valid()
      modifies dm`originalStates, dm`cache, dm`registered, dm`needsToJoin, dm`inserted, dm`removed, dm.db
      modifies dm.registered`oid, dm.registered`serial, dm.registered`changed, dm.registered`attrs
      modifies dm.registered`vName, dm.registered`vParent
      modifies dm.cache.Values`attrs, dm.cache.Values`changed, dm.cache.Values`vName, dm.cache.Values`vParent
      ensures dm.Valid()
      ensures ItemsFilter().Err? ==> r == Fail(ItemsFilter().error) && removed.None? && Untouched()
      ensures ItemsFilter().Ok? ==> (r.Fail? && r.error.ConflictError? <==> old(dm.HasConflict()))
      ensures ItemsFilter().Ok? && old(dm.HasConflict()) ==> removed.None? && Untouched()
      ensures ItemsFilter().Ok? && mappingKey.None? ==> r.Fail? && removed.None?
      ensures ItemsFilter().Ok? && mappingKey.Some? && !old(dm.HasConflict()) ==>
                && (NoneMatch(seen.docs, KeyFilter(ItemsFilter().value, key)) ==> r == Fail(KeyError(key)))
                && (key != Null ==> (removed.None? <==> NoneMatch(seen.docs, KeyFilter(ItemsFilter().value, key))))
                && (removed.None? || removed.value !in old(dm.registered) ==>
                      seen.docs == WriteBack(Dedup(old(dm.registered)), old(dm.db.docs)))
                && Extends(old(dm.cache), seen.cache)
      ensures removed.None? ==> r.Fail? && r.error != NotStored && Now() == seen
      ensures removed.Some? ==>
                && ItemsFilter().Ok? && mappingKey.Some? && !old(dm.HasConflict())
                && HeldIn(seen, KeyFilter(ItemsFilter().value, key), removed.value)
                && (r.Pass? <==> !removeDocuments || removed.value.oid.Some?)
                && (r.Fail? ==> r.error == NotStored)
                && dm.cache == seen.cache
                && dm.db.docs == if removeDocuments && removed.value.oid.Some?
                                 then seen.docs - {removed.value.oid.value} else seen.docs
      ensures removed.Some? && r.Pass? ==>
                && removed.value.vName == Null && removed.value.vParent == Null
                && removed.value.attrs == Assign(removed.value.nameResolver,
                                                 Assign(removed.value.parentResolver, before - KeyAttributes(), Null),
                                                 Null)
      ensures removed.Some? && r.Fail? ==> removed.value.attrs == before - KeyAttributes()
      ensures removed.Some? && !fresh(removed.value) ==> before == old(removed.value.attrs)
      ensures removed.Some? && fresh(removed.value) ==>
                removed.value.oid.Some? && removed.value.oid.value in seen.docs
                && before == seen.docs[removed.value.oid.value].fields
    {
      var found: Result<Persistent>;
      found, seen, before := FetchItem(key);
      r, removed := RemoveFound(found, seen, before, old(dm.registered), old(dm.db.docs));
    }

    /**
     * The removal step of `__delitem__`, on what its lookup gave with `seen`
     * current: a failed lookup is passed on, a found object removed.
     */
    method RemoveFound(found: Result<Persistent>, ghost seen: Seen, ghost before: Fields,
                       ghost queue: seq<Persistent>, ghost docs: map<DocRef, Doc>)
      returns (r: Outcome, ghost removed: Option<Persistent>)
      requires dm.Valid() && Now() == seen
      requires found.Ok? ==> before == found.value.attrs
      modifies dm`originalStates, dm`inserted, dm`removed, dm`registered, dm`needsToJoin, dm.db
      modifies if found.Ok? then {found.value} else {}`attrs
      modifies if found.Ok? then {found.value} else {}`changed
      modifies if found.Ok? then {found.value} else {}`vName
      modifies if found.Ok? then {found.value} else {}`vParent
      ensures dm.Valid()
      ensures found.Err? ==> r == Fail(found.error) && removed.None? && unchanged(dm, dm.db)
      ensures found.Ok? ==> removed == Some(found.value) && found.value.oid == old(found.value.oid)
      ensures found.Err? || found.value !in queue ==>
                WriteBack(Dedup(queue), docs) == old(WriteBack(Dedup(queue), docs))
      ensures removed.Some? ==>
                && (r.Pass? <==> !removeDocuments || removed.value.oid.Some?) && (r.Fail? ==> r.error == NotStored)
                && dm.cache == seen.cache
                && dm.db.docs == if removeDocuments && removed.value.oid.Some?
                                 then seen.docs - {removed.value.oid.value} else seen.docs
      ensures removed.Some? && r.Pass? ==>
                && removed.value.vName == Null && removed.value.vParent == Null
                && removed.value.attrs == Assign(removed.value.nameResolver,
                                                 Assign(removed.value.parentResolver, before - KeyAttributes(), Null),
                                                 Null)
      ensures removed.Some? && r.Fail? ==> removed.value.attrs == before - KeyAttributes()
    {
      if found.Err? {
        return Fail(found.error), None;
      }
      removed := Some(found.value);
      assert found.value !in queue ==> found.value !in Dedup(queue);
      r := RemoveItem(found.value);
    }

    /** `__contains__`: whether some item's mapping key equals `key`. */
    method Contains(key: Value) returns (r: Result<bool>)
      requires dm.Valid()
      modifies dm`originalStates, dm`cache, dm`registered, dm.db
      modifies dm.registered`oid, dm.registered`serial, dm.registered`changed
      ensures dm.Valid()
      ensures ItemsFilter().Err? ==> r == Err(ItemsFilter().error) && Untouched()
      ensures ItemsFilter().Ok? ==> (r.Err? && r.error.ConflictError? <==> old(dm.HasConflict()))
      ensures ItemsFilter().Ok? && old(dm.HasConflict()) ==> Untouched()
      ensures ItemsFilter().Ok? && !old(dm.HasConflict()) ==> dm.WroteBack(old(dm.registered)) && dm.registered == []
      ensures ItemsFilter().Ok? && mappingKey.None? ==> r.Err? && (r.error.ConflictError? || r.error == InvalidQuery)
      ensures ItemsFilter().Ok? && mappingKey.Some? && !old(dm.HasConflict()) ==>
                r == Ok(Found(KeyFilter(ItemsFilter().value, key)).Some?)
    {
      var items := ItemsFilter();
      if items.Err? {
        return Err(items.error);
      }
      if mappingKey.None? {
        var rejected := RejectQuery();
        return Err(rejected.error);
      }
      MergeOverride(items.value, mappingKey.value, Eq(key));
      var found := RawFindOne(map[mappingKey.value := Eq(key)]);
      if found.Err? {
        return Err(found.error);
      }
      r := Ok(found.value.Some?);
    }

    /** `keys()`: the mapping-key values of the items that have a non-None one, in store order. */
    method Keys() returns (r: Result<seq<Value>>)
      requires dm.Valid()
      modifies dm`originalStates, dm`cache, dm`registered, dm.db
      modifies dm.registered`oid, dm.registered`serial, dm.registered`changed
      ensures dm.Valid()
      ensures ItemsFilter().Err? ==> r == Err(ItemsFilter().error) && Untouched()
      ensures ItemsFilter().Ok? ==> (r.Err? && r.error.ConflictError? <==> old(dm.HasConflict()))
      ensures ItemsFilter().Ok? && old(dm.HasConflict()) ==> Untouched()
      ensures ItemsFilter().Ok? && !old(dm.HasConflict()) ==> dm.WroteBack(old(dm.registered)) && dm.registered == []
      ensures ItemsFilter().Ok? && mappingKey.None? ==> r.Err? && (r.error.ConflictError? || r.error == InvalidQuery)
      ensures ItemsFilter().Ok? && mappingKey.Some? && !old(dm.HasConflict()) ==>
                r == Ok(KeysOf(Query(dm.db.docs, database, collection,
                                     Merge(map[mappingKey.value := Ne(Null)], ItemsFilter().value), dm.db.nextId),
                               mappingKey.value))
      ensures r.Ok? ==> forall i :: 0 <= i < |r.value| ==> r.value[i] != Null
    {
      var items := ItemsFilter();
      if items.Err? {
        return Err(items.error);
      }
      if mappingKey.None? {
        var rejected := RejectQuery();
        return Err(rejected.error);
      }
      var mk := mappingKey.value;
      var spec := map[mk := Ne(Null)];
      var found := RawFind(spec);
      if found.Err? {
        return Err(found.error);
      }
      forall i | 0 <= i < |found.value|
        ensures Holds(Ne(Null), FieldValue(found.value[i].0, found.value[i].1, mk))
      {
        MergeMatches(found.value[i].0, found.value[i].1, spec, items.value);
        assert Holds(spec[mk], FieldValue(found.value[i].0, found.value[i].1, mk));
      }
      var keys := IterKeys(found.value, mk);
      r := Ok(keys);
    }

    /**
     * The loop of `__iter__`: the mapping-key value of each document found,
     * in order; none is None when every document has a non-None one.
     */
    method IterKeys(docs: seq<(DocRef, Doc)>, mk: string) returns (keys: seq<Value>)
      ensures keys == KeysOf(docs, mk)
      ensures (forall i :: 0 <= i < |docs| ==> Holds(Ne(Null), FieldValue(docs[i].0, docs[i].1, mk))) ==>
                forall j :: 0 <= j < |keys| ==> keys[j] != Null
    {
      keys := [];
      var i := 0;
      while i < |docs|
        invariant 0 <= i <= |docs|
        invariant keys == KeysOf(docs[..i], mk)
      {
        keys := keys + [KeyOf(docs[i], mk)];
        i := i + 1;
      }
      assert docs[..i] == docs;
    }

    /**
     * Storing a new object under a free key and looking the key up again
     * gives back that very object: the lookup's flush writes the key onto
     * the object's document, which is then the only one under the key. A
     * store that raises never reaches the lookup: its error is the result.
     */
    method SetThenGet(key: Value, value: Persistent) returns (stored: Outcome, got: Result<Persistent>)
      requires dm.Valid()
      requires key != Null && mappingKey.Some? && mappingKey != parentKey
      requires mappingKey != Some("_id") && parentKey != Some("_id")
      requires value.oid.None? && value !in dm.registered
      requires value.database == database && value.collection == collection
      modifies dm`originalStates, dm`cache, dm`registered, dm`needsToJoin, dm`inserted, dm.db, value
      modifies dm.registered`oid, dm.registered`serial, dm.registered`changed
      modifies dm.registered`vName, dm.registered`vParent, dm.cache.Values`vName, dm.cache.Values`vParent
      ensures stored.Pass? ==> got == Ok(value)
      ensures stored.Fail? ==> got == Err(stored.error)
    {
      ghost var derived, holder, seen;
      stored, derived, holder, seen := SetItem(key, value);
      if stored.Pass? {
        got := GetAfterSet(key, value, holder, seen);
      } else {
        got := Err(stored.error);
      }
    }

    /**
     * The lookup of a key `value` was just stored under: either the lookup
     * before the store found `value` itself (`holder`), or `value` was placed
     * under a key no document of the collection had in `seen`.
     */
    method GetAfterSet(key: Value, value: Persistent, ghost holder: Option<Persistent>, ghost seen: Seen)
      returns (got: Result<Persistent>)
      requires dm.Valid()
      requires key != Null && mappingKey.Some? && mappingKey != parentKey && ItemsFilter().Ok?
      requires mappingKey != Some("_id") && parentKey != Some("_id")
      requires value.database == database && value.collection == collection
      requires holder.Some? ==>
                 && holder.value == value && Now() == seen && dm.registered == []
                 && HeldIn(seen, KeyFilter(ItemsFilter().value, key), value)
      requires holder.None? ==>
                 && dm.registered == [value] && PlacedSince(seen, key, value) && NewlyStored(seen, value)
                 && NoneMatch(seen.docs, KeyFilter(ItemsFilter().value, key))
      modifies dm`originalStates, dm`cache, dm`registered, dm`needsToJoin, dm.db
      modifies dm.registered`oid, dm.registered`serial, dm.registered`changed
      modifies dm.registered`vName, dm.registered`vParent, dm.cache.Values`vName, dm.cache.Values`vParent
      ensures got == Ok(value)
    {
      ghost var mid := dm.db.docs;
      if holder.None? {
        assert !dm.Conflicting(dm.registered[0]);
      }
      got := GetItem(key);
      if holder.Some? {
        assert Dedup([]) == [];
        GotHeld(key, value, seen, got);
      } else {
        GotPlaced(key, value, seen, mid, got);
      }
    }

    /** The lookup finds the object held under the key before it, the store being unchanged since `seen`. */
    lemma GotHeld(key: Value, value: Persistent, seen: Seen, got: Result<Persistent>)
      requires dm.Valid() && key != Null && mappingKey.Some? && ItemsFilter().Ok?
      requires HeldIn(seen, KeyFilter(ItemsFilter().value, key), value)
      requires forall r :: r in seen.docs ==> r.id < seen.nextId
      requires dm.db.docs == seen.docs && Extends(seen.cache, dm.cache)
      requires Found(KeyFilter(ItemsFilter().value, key)).Some? ==> got.Ok?
      requires got.Ok? ==> HeldUnder(KeyFilter(ItemsFilter().value, key), got.value)
      ensures got == Ok(value)
    {
      HeldStays(seen, Now(), KeyFilter(ItemsFilter().value, key), value);
    }

    /**
     * The lookup finds `value` placed under a key no document had in
     * `seen`, once its flush has written `value` out over `mid`.
     */
    lemma GotPlaced(key: Value, value: Persistent, seen: Seen, mid: map<DocRef, Doc>, got: Result<Persistent>)
      requires dm.Valid() && key != Null && mappingKey.Some? && ItemsFilter().Ok?
      requires mappingKey != parentKey && mappingKey != Some("_id") && parentKey != Some("_id")
      requires mappingKey.value in value.attrs && value.attrs[mappingKey.value] == key
      requires parentKey.Some? ==>
                 parentKey.value in value.attrs && value.attrs[parentKey.value] == ParentKeyValue().value
      requires NoneMatch(seen.docs, KeyFilter(ItemsFilter().value, key))
      requires value.oid.Some? && value.oid.value.database == database && value.oid.value.collection == collection
      requires forall ref :: Some(ref) != value.oid ==> Lookup(mid, ref) == Lookup(seen.docs, ref)
      requires dm.db.docs == WriteBack(Dedup([value]), mid)
      requires value.oid.value in dm.cache && dm.cache[value.oid.value] == value
      requires Found(KeyFilter(ItemsFilter().value, key)).Some? ==> got.Ok?
      requires got.Ok? ==> HeldUnder(KeyFilter(ItemsFilter().value, key), got.value)
      ensures got == Ok(value)
    {
      assert Dedup([value]) == [value];
      assert WriteBack([value], mid) == mid[value.oid.value := Doc(value.attrs, value.serial)];
      ItemFoundAfterFlush(key, value, seen, mid);
      HeldAt(Now(), KeyFilter(ItemsFilter().value, key), value.oid.value);
    }

    /**
     * An object held under `f` in `s` is still the one held there in `t`,
     * the same store with a grown identity map and more ids handed out.
     */
    lemma HeldStays(s: Seen, t: Seen, f: Filter, o: Persistent)
      requires HeldIn(s, f, o) && forall r :: r in s.docs ==> r.id < s.nextId && r.id < t.nextId
      requires t.docs == s.docs && Extends(s.cache, t.cache)
      ensures FirstMatch(t.docs, database, collection, f, t.nextId).Some?
      ensures forall p :: HeldIn(t, f, p) ==> p == o
    {
      var ref :| ref in s.docs && ref in s.cache && s.cache[ref] == o
                 && FirstMatch(s.docs, database, collection, f, s.nextId) == Some((ref, s.docs[ref]));
      FirstMatchAnyBound(s.docs, database, collection, f, s.nextId, t.nextId);
    }

    /** The object held under `f` in `s` is the one cached under the first match. */
    lemma HeldAt(s: Seen, f: Filter, ref: DocRef)
      requires ref in s.docs && FirstMatch(s.docs, database, collection, f, s.nextId) == Some((ref, s.docs[ref]))
      ensures forall p :: HeldIn(s, f, p) ==> ref in s.cache && s.cache[ref] == p
    {
    }

    /**
     * Once the lookup's flush has written `value` under its new reference,
     * its document is the only one of the collection under `key`.
     */
    lemma ItemFoundAfterFlush(key: Value, value: Persistent, seen: Seen, mid: map<DocRef, Doc>)
      requires dm.db.Valid() && mappingKey.Some? && ItemsFilter().Ok? && key != Null
      requires mappingKey != parentKey && mappingKey != Some("_id") && parentKey != Some("_id")
      requires mappingKey.value in value.attrs && value.attrs[mappingKey.value] == key
      requires parentKey.Some? ==>
                 parentKey.value in value.attrs && value.attrs[parentKey.value] == ParentKeyValue().value
      requires NoneMatch(seen.docs, KeyFilter(ItemsFilter().value, key))
      requires value.oid.Some? && value.oid.value.database == database && value.oid.value.collection == collection
      requires forall ref :: Some(ref) != value.oid ==> Lookup(mid, ref) == Lookup(seen.docs, ref)
      requires dm.db.docs == mid[value.oid.value := Doc(value.attrs, value.serial)]
      ensures Found(KeyFilter(ItemsFilter().value, key)) == Some((value.oid.value, dm.db.docs[value.oid.value]))
    {
      var f := KeyFilter(ItemsFilter().value, key);
      var vref := value.oid.value;
      var doc := dm.db.docs[vref];
      forall k | k in f ensures Holds(f[k], FieldValue(vref, doc, k)) {
        if k != mappingKey.value {
          assert Some(k) == parentKey;
        }
      }
      forall r | r in dm.db.docs && r != vref && r.database == database && r.collection == collection
        ensures !Matches(r, dm.db.docs[r], f)
      {
        assert Lookup(mid, r) == Lookup(seen.docs, r);
      }
      FirstMatchUnique(dm.db, database, collection, f, vref);
    }
  }

  /**
   * For a key that is not None, `key in container` holds exactly when `key`
   * is among `container.keys()`, on the same store.
   */
  lemma ContainsIffInKeys(db: Database, database: string, collection: string, items: Filter,
                          mk: string, key: Value)
    requires db.Valid() && key != Null
    ensures FirstMatch(db.docs, database, collection, Merge(map[mk := Eq(key)], items), db.nextId).Some?
        <==> key in KeysOf(Query(db.docs, database, collection, Merge(map[mk := Ne(Null)], items), db.nextId), mk)
  {
    var eqSpec := map[mk := Eq(key)];
    var neSpec := map[mk := Ne(Null)];
    var found := Query(db.docs, database, collection, Merge(neSpec, items), db.nextId);
    var keys := KeysOf(found, mk);
    if FirstMatch(db.docs, database, collection, Merge(eqSpec, items), db.nextId).Some? {
      var all := Query(db.docs, database, collection, Merge(eqSpec, items), db.nextId);
      var (ref, doc) := all[0];
      MergeMatches(ref, doc, eqSpec, items);
      assert Holds(eqSpec[mk], FieldValue(ref, doc, mk));
      MergeMatches(ref, doc, neSpec, items);
      QueryExactly(db, database, collection, Merge(neSpec, items), ref, doc);
      var i :| 0 <= i < |found| && found[i] == (ref, doc);
      assert keys[i] == key;
    } else if key in keys {
      var i :| 0 <= i < |keys| && keys[i] == key;
      var (ref, doc) := found[i];
      MergeMatches(ref, doc, neSpec, items);
      assert Holds(neSpec[mk], FieldValue(ref, doc, mk));
      MergeMatches(ref, doc, eqSpec, items);
      FirstMatchNone(db, database, collection, Merge(eqSpec, items));
      assert false;
    }
  }

  /** An all-items container scopes by the mapping key alone. */
  lemma AllItemsUnscoped(c: MongoContainer)
    requires c.parentKey.None? && c.mappingKey.Some?
    ensures c.ItemsFilter() == Ok(map[c.mappingKey.value := Exists(true)])
  {
  }
}
