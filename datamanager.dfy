/**
 * The transactional data manager: an identity map, the queues of registered,
 * inserted and removed objects, the pre-transaction snapshots that make abort
 * possible on a store without transactions, optimistic conflict detection by
 * serial comparison, the two-phase-commit entry points, and the collection
 * reads that flush pending writes first.
 */
module DataManager {
  import opened Documents
  import opened Persistence

  /** No object occurs twice. */
  predicate Distinct(q: seq<Persistent>)
  {
    forall i, j :: 0 <= i < j < |q| ==> q[i] != q[j]
  }

  /** Queue `o` unless it is already queued; queues compare objects by identity. */
  function Enqueue(q: seq<Persistent>, o: Persistent): (r: seq<Persistent>)
    ensures o in r && q <= r
    ensures forall i :: 0 <= i < |r| ==> r[i] in q || r[i] == o
    ensures o in q ==> r == q
    ensures Distinct(q) ==> Distinct(r)
  {
    if o in q then q else q + [o]
  }

  /** Queueing an object twice leaves the queue as queueing it once. */
  lemma EnqueueIdempotent(q: seq<Persistent>, o: Persistent)
    ensures Enqueue(Enqueue(q, o), o) == Enqueue(q, o)
    ensures |Enqueue(Enqueue([], o), o)| == 1
  {
  }

  /** The position of the first occurrence of `x`. */
  function IndexOf(s: seq<Persistent>, x: Persistent): (i: nat)
    requires x in s
    ensures i < |s| && s[i] == x && x !in s[..i]
  {
    if s[0] == x then 0
    else
      var i := IndexOf(s[1..], x);
      assert s[..i + 1] == [s[0]] + s[1..][..i];
      i + 1
  }

  /** Python's `list.remove(x)`: drop the first occurrence of `x`. */
  function RemoveFirst(s: seq<Persistent>, x: Persistent): (r: seq<Persistent>)
    requires x in s
    ensures |r| == |s| - 1
    ensures multiset(r) == multiset(s) - multiset{x}
  {
    var i := IndexOf(s, x);
    assert s == s[..i] + [x] + s[i + 1..];
    s[..i] + s[i + 1..]
  }

  /** In a queue without duplicates, removing an element removes it entirely and nothing else. */
  lemma RemoveFirstRemoves(s: seq<Persistent>, x: Persistent)
    requires x in s && Distinct(s)
    ensures x !in RemoveFirst(s, x)
    ensures forall k :: 0 <= k < |s| && s[k] != x ==> s[k] in RemoveFirst(s, x)
  {
    var i := IndexOf(s, x);
    var r := RemoveFirst(s, x);
    assert r == s[..i] + s[i + 1..];
    forall k | 0 <= k < |s| && s[k] != x ensures s[k] in r {
      if k < i { assert r[k] == s[k]; } else { assert r[k - 1] == s[k]; }
    }
    assert forall k :: i < k < |s| ==> s[k] != x;
    assert x !in s[i + 1..];
  }

  /** The first occurrences of the objects of `s`, in order. */
  function Dedup(s: seq<Persistent>): (r: seq<Persistent>)
    ensures forall i :: 0 <= i < |r| ==> r[i] in s
    ensures forall i :: 0 <= i < |s| ==> s[i] in r
    ensures Distinct(r)
  {
    if s == [] then []
    else
      var p := Dedup(s[..|s| - 1]);
      if s[|s| - 1] in p then p else p + [s[|s| - 1]]
  }

  /** Appending an object does not move the first occurrence of an object already present. */
  lemma IndexOfPrefix(p: seq<Persistent>, x: Persistent, y: Persistent)
    requires y in p
    ensures IndexOf(p + [x], y) == IndexOf(p, y)
  {
    var s := p + [x];
    var i, j := IndexOf(s, y), IndexOf(p, y);
    forall k | 0 <= k < j ensures s[k] != y {
      assert s[k] == p[..j][k];
    }
    forall k | 0 <= k < i ensures s[k] != y {
      assert s[k] == s[..i][k];
    }
    assert s[j] == y;
  }

  /**
   * The write-out order: `Dedup` lists the objects in the order of their
   * first registration.
   */
  lemma {:induction false} DedupKeepsOrder(s: seq<Persistent>)
    ensures forall i, j :: 0 <= i < j < |Dedup(s)| ==> IndexOf(s, Dedup(s)[i]) < IndexOf(s, Dedup(s)[j])
  {
    if s != [] {
      var p, x := s[..|s| - 1], s[|s| - 1];
      assert s == p + [x];
      DedupKeepsOrder(p);
      var d := Dedup(p);
      forall y | y in d ensures IndexOf(s, y) == IndexOf(p, y) {
        IndexOfPrefix(p, x, y);
      }
      if x !in d {
        assert Dedup(s) == d + [x];
        forall i | 0 <= i < |d| ensures IndexOf(s, Dedup(s)[i]) < IndexOf(s, x) {
          assert Dedup(s)[i] == d[i];
        }
      }
    }
  }

  /** Every entry of the identity map `before` is still in `after`, holding the same object. */
  ghost predicate Extends(before: map<DocRef, Persistent>, after: map<DocRef, Persistent>)
  {
    forall r :: r in before ==> r in after && after[r] == before[r]
  }

  /**
   * The store after writing `objs` in order over `docs`: each object that
   * has a reference is stored under it with its attributes and serial.
   */
  ghost function WriteBack(objs: seq<Persistent>, docs: map<DocRef, Doc>): map<DocRef, Doc>
    reads objs`oid, objs`attrs, objs`serial
  {
    if objs == [] then docs
    else
      var last := objs[|objs| - 1];
      var before := WriteBack(objs[..|objs| - 1], docs);
      if last.oid.Some? then before[last.oid.value := Doc(last.attrs, last.serial)] else before
  }

  /** The write of an object no later object shares a reference with is the one that stays. */
  lemma {:induction false} WriteBackAt(objs: seq<Persistent>, docs: map<DocRef, Doc>, i: nat)
    requires i < |objs| && objs[i].oid.Some?
    requires forall j :: i < j < |objs| ==> objs[j].oid != objs[i].oid
    ensures objs[i].oid.value in WriteBack(objs, docs)
    ensures WriteBack(objs, docs)[objs[i].oid.value] == Doc(objs[i].attrs, objs[i].serial)
  {
    var n := |objs| - 1;
    if i < n {
      assert objs[..n][i] == objs[i];
      WriteBackAt(objs[..n], docs, i);
    }
  }

  /** References no object writes keep their document. */
  lemma {:induction false} WriteBackElsewhere(objs: seq<Persistent>, docs: map<DocRef, Doc>, r: DocRef)
    requires forall j :: 0 <= j < |objs| ==> objs[j].oid != Some(r)
    ensures Lookup(WriteBack(objs, docs), r) == Lookup(docs, r)
  {
    if objs != [] {
      WriteBackElsewhere(objs[..|objs| - 1], docs, r);
    }
  }

  class MongoDataManager {
    const db: Database
    /**
     * The persistent class stored in each collection (database, collection),
     * which the reader instantiates for a loaded document.
     */
    const classes: (string, string) -> Kind
    var detectConflicts: bool

    /** The identity map: at most one live object per reference. */
    var cache: map<DocRef, Persistent>
    var registered: seq<Persistent>
    var inserted: seq<Persistent>
    var removed: seq<Persistent>
    /**
     * The snapshot of every document this transaction touched, taken before
     * the first write to it: None when the document did not exist.
     */
    var originalStates: map<DocRef, Option<Doc>>
    var needsToJoin: bool

    ghost predicate Valid()
      reads this`originalStates, this`cache, db
    {
      && db.Valid()
      && (forall r :: r in originalStates && originalStates[r].Some? ==> r.id < db.nextId)
      && (forall r :: r in cache ==> r.id < db.nextId)
    }

    /**
     * The document `r` had before this transaction touched it: its snapshot
     * if it has one, else its current document.
     */
    ghost function PreImage(r: DocRef): Option<Doc>
      reads this`originalStates, db`docs
    {
      if r in originalStates then originalStates[r] else Lookup(db.docs, r)
    }

    /** The store as it was before this transaction. */
    ghost function PreTransaction(): (m: map<DocRef, Doc>)
      reads this`originalStates, db`docs
      ensures forall r :: Lookup(m, r) == PreImage(r)
    {
      map r | r in originalStates.Keys + db.docs.Keys && PreImage(r).Some? :: PreImage(r).value
    }

    /** The store holds a newer version of `o` than the one `o` was read at. */
    ghost predicate Conflicting(o: Persistent)
      reads o`oid, o`serial, db`docs
    {
      o.oid.Some? && o.oid.value in db.docs && db.docs[o.oid.value].serial != o.serial
    }

    ghost predicate HasConflict()
      reads this`detectConflicts, this`registered, db`docs, registered
    {
      detectConflicts && exists i :: 0 <= i < |registered| && Conflicting(registered[i])
    }

    /**
     * The store is the old one with every object of `queue` written once,
     * and each of those objects is stored, under its old reference if it had
     * one, with its serial moved on by one.
     */
    twostate predicate Flushed(queue: seq<Persistent>)
      reads db`docs, queue`oid, queue`attrs, queue`serial
    {
      && db.docs == WriteBack(Dedup(queue), old(db.docs))
      && (forall o :: o in queue ==>
            && o.oid.Some? && (old(o.oid).Some? ==> o.oid == old(o.oid))
            && o.serial == old(o.serial) + 1)
    }

    /** What a successful write-out of `queue` did to the store, the objects and the identity map. */
    twostate predicate WroteBack(queue: seq<Persistent>)
      reads this`originalStates, this`cache, db`docs, queue`oid, queue`attrs, queue`serial
    {
      && Flushed(queue)
      && Extends(old(cache), cache)
      && (forall r :: r in cache && r !in old(cache) ==> cache[r] in queue)
      && (forall r :: PreImage(r) == old(PreImage(r)))
    }

    constructor (db: Database, classes: (string, string) -> Kind, detectConflicts: bool)
      requires db.Valid()
      ensures Valid() && this.db == db && this.classes == classes && this.detectConflicts == detectConflicts
      ensures cache == map[] && registered == [] && inserted == [] && removed == []
      ensures originalStates == map[] && needsToJoin
    {
      this.db := db;
      this.classes := classes;
      this.detectConflicts := detectConflicts;
      cache := map[];
      registered := [];
      inserted := [];
      removed := [];
      originalStates := map[];
      needsToJoin := true;
    }

    /** Snapshot `ref` unless this transaction already did. */
    method Capture(ref: DocRef)
      requires Valid()
      modifies this`originalStates
      ensures Valid()
      ensures ref in originalStates
      ensures originalStates == if ref in old(originalStates) then old(originalStates)
                                else old(originalStates)[ref := Lookup(db.docs, ref)]
      ensures forall r :: PreImage(r) == old(PreImage(r))
    {
      if ref !in originalStates {
        originalStates := originalStates[ref := Lookup(db.docs, ref)];
      }
    }

    /** `_join_txn`: joining the ambient transaction itself is not modelled. */
    method Join()
      modifies this`needsToJoin
      ensures !needsToJoin
    {
      needsToJoin := false;
    }

    /** Queue `obj` for writing; joins the transaction. */
    method Register(obj: Persistent)
      modifies this`registered, this`needsToJoin
      ensures registered == Enqueue(old(registered), obj)
      ensures !needsToJoin
    {
      Join();
      if obj !in registered {
        registered := registered + [obj];
      }
    }

    /**
     * Assignment to an attribute of `obj`. On a stored object the persistence
     * runtime marks it changed, which registers it.
     */
    method SetAttribute(obj: Persistent, name: string, v: Value)
      modifies obj`attrs, obj`changed, this`registered, this`needsToJoin
      ensures obj.attrs == old(obj.attrs)[name := v]
      ensures old(obj.oid).Some? ==> obj.changed && registered == Enqueue(old(registered), obj) && !needsToJoin
      ensures old(obj.oid).None? ==>
                obj.changed == old(obj.changed) && registered == old(registered) && needsToJoin == old(needsToJoin)
    {
      obj.attrs := obj.attrs[name := v];
      if obj.oid.Some? {
        obj.changed := true;
        Register(obj);
      }
    }

    /** `delattr(obj, name)`: reports False where Python raises AttributeError. */
    method DeleteAttribute(obj: Persistent, name: string) returns (present: bool)
      modifies obj`attrs, obj`changed, this`registered, this`needsToJoin
      ensures present == (name in old(obj.attrs))
      ensures obj.attrs == old(obj.attrs) - {name}
      ensures present && old(obj.oid).Some? ==> obj.changed && registered == Enqueue(old(registered), obj) && !needsToJoin
      ensures !(present && old(obj.oid).Some?) ==>
                obj.changed == old(obj.changed) && registered == old(registered) && needsToJoin == old(needsToJoin)
    {
      present := name in obj.attrs;
      if present {
        obj.attrs := obj.attrs - {name};
        if obj.oid.Some? {
          obj.changed := true;
          Register(obj);
        }
      }
    }

    /**
     * The writer's `store`: an object without a reference gets a new one in
     * its collection (and enters the identity map); the document is written
     * with the serial one above the object's, which the object takes over.
     */
    method Write(obj: Persistent) returns (ref: DocRef)
      requires Valid()
      modifies this`originalStates, this`cache, db, obj`oid, obj`serial
      ensures Valid()
      ensures obj.oid == Some(ref) && obj.serial == old(obj.serial) + 1
      ensures old(obj.oid).Some? ==> ref == old(obj.oid.value) && cache == old(cache)
      ensures old(obj.oid).None? ==>
                && ref == DocRef(obj.database, obj.collection, old(db.nextId))
                && ref !in old(db.docs) && ref !in old(cache) && cache == old(cache)[ref := obj]
      ensures db.docs == old(db.docs)[ref := Doc(obj.attrs, obj.serial)]
      ensures db.nextId >= old(db.nextId)
      ensures forall r :: PreImage(r) == old(PreImage(r))
    {
      if obj.oid.None? {
        ref := DocRef(obj.database, obj.collection, db.nextId);
        db.nextId := db.nextId + 1;
        obj.oid := Some(ref);
        cache := cache[ref := obj];
      } else {
        ref := obj.oid.value;
        if ref.id >= db.nextId {
          db.nextId := ref.id + 1;
        }
      }
      Capture(ref);
      obj.serial := obj.serial + 1;
      db.docs := db.docs[ref := Doc(obj.attrs, obj.serial)];
    }

    /**
     * Store a new object immediately. An object that has a reference already
     * is refused.
     */
    method Insert(obj: Persistent) returns (r: Result<DocRef>)
      requires Valid()
      modifies this`originalStates, this`cache, this`inserted, this`needsToJoin, db
      modifies obj`oid, obj`serial, obj`changed
      ensures Valid()
      ensures old(obj.oid).Some? ==> r == Err(AlreadyStored) && unchanged(this, db, obj)
      ensures old(obj.oid).None? ==>
                && r.Ok? && obj.oid == Some(r.value) && r.value !in old(db.docs) && r.value !in old(cache)
                && r.value.database == obj.database && r.value.collection == obj.collection
                && db.docs == old(db.docs)[r.value := Doc(obj.attrs, obj.serial)]
                && obj.serial == old(obj.serial) + 1 && !obj.changed
                && cache == old(cache)[r.value := obj]
                && inserted == old(inserted) + [obj] && !needsToJoin
      ensures registered == old(registered) && removed == old(removed)
      ensures forall x :: PreImage(x) == old(PreImage(x))
    {
      if obj.oid.Some? {
        return Err(AlreadyStored);
      }
      Join();
      var ref := Write(obj);
      obj.changed := false;
      inserted := inserted + [obj];
      r := Ok(ref);
    }

    /**
     * Delete the document of a stored object immediately. An object inserted
     * in this transaction leaves the inserted list and is not reported as
     * removed; any other object is appended to the removed list. A pending
     * write of the object is dropped.
     */
    method Remove(obj: Persistent) returns (r: Outcome)
      requires Valid()
      modifies this`originalStates, this`inserted, this`removed, this`registered, db
      ensures Valid()
      ensures obj.oid.None? ==> r == Fail(NotStored) && unchanged(this, db)
      ensures obj.oid.Some? ==>
                && r == Pass && db.docs == old(db.docs) - {obj.oid.value}
                && (obj in old(inserted) ==> inserted == RemoveFirst(old(inserted), obj) && removed == old(removed))
                && (obj !in old(inserted) ==> inserted == old(inserted) && removed == old(removed) + [obj])
                && registered == if obj in old(registered) then RemoveFirst(old(registered), obj)
                                 else old(registered)
      ensures forall x :: PreImage(x) == old(PreImage(x))
    {
      if obj.oid.None? {
        return Fail(NotStored);
      }
      var ref := obj.oid.value;
      Capture(ref);
      ghost var before := db.docs;
      db.docs := db.docs - {ref};
      assert forall x :: x != ref ==> Lookup(db.docs, x) == Lookup(before, x);
      if obj in inserted {
        inserted := RemoveFirst(inserted, obj);
      } else {
        removed := removed + [obj];
      }
      if obj in registered {
        registered := RemoveFirst(registered, obj);
      }
      r := Pass;
    }

    /** Give `obj` the state of `doc` and join the transaction. */
    method Activate(obj: Persistent, doc: Doc)
      modifies obj`attrs, obj`serial, obj`changed, this`needsToJoin
      ensures obj.attrs == doc.fields && obj.serial == doc.serial && !obj.changed
      ensures !needsToJoin
    {
      Join();
      obj.attrs := doc.fields;
      obj.serial := doc.serial;
      obj.changed := false;
    }

    /** `setstate`: load the stored state of `obj` and join the transaction. */
    method SetState(obj: Persistent) returns (r: Outcome)
      modifies obj`attrs, obj`serial, obj`changed, this`needsToJoin
      ensures obj.oid.None? ==> r == Fail(NotStored) && unchanged(this, obj)
      ensures obj.oid.Some? && obj.oid.value !in db.docs ==>
                r == Fail(NotFound(obj.oid.value)) && unchanged(this, obj)
      ensures obj.oid.Some? && obj.oid.value in db.docs ==>
                && r == Pass && !needsToJoin && !obj.changed
                && obj.attrs == db.docs[obj.oid.value].fields
                && obj.serial == db.docs[obj.oid.value].serial
    {
      if obj.oid.None? {
        return Fail(NotStored);
      }
      var ref := obj.oid.value;
      if ref !in db.docs {
        return Fail(NotFound(ref));
      }
      Activate(obj, db.docs[ref]);
      r := Pass;
    }

    /**
     * The object for `ref` given its document: the instance in the identity
     * map if there is one, else a new object with the document's state.
     */
    method LoadDoc(ref: DocRef, doc: Doc) returns (obj: Persistent)
      requires Valid() && ref in db.docs
      modifies this`cache, this`needsToJoin
      ensures Valid()
      ensures ref in cache && cache[ref] == obj
      ensures ref in old(cache) ==> obj == old(cache[ref]) && unchanged(this)
      ensures ref !in old(cache) ==>
                && fresh(obj) && obj.oid == Some(ref) && obj.attrs == doc.fields
                && obj.serial == doc.serial && !obj.changed && obj.vName == Null && obj.vParent == Null
                && obj.nameResolver == classes(ref.database, ref.collection).nameResolver
                && obj.parentResolver == classes(ref.database, ref.collection).parentResolver
                && cache == old(cache)[ref := obj] && !needsToJoin
    {
      if ref in cache {
        return cache[ref];
      }
      obj := new Persistent.Ghost(ref, classes(ref.database, ref.collection));
      Activate(obj, doc);
      cache := cache[ref := obj];
    }

    /** `load(ref)`: the same instance for the same reference within a transaction. */
    method Load(ref: DocRef) returns (r: Result<Persistent>)
      requires Valid()
      modifies this`cache, this`needsToJoin
      ensures Valid()
      ensures ref in old(cache) ==> r == Ok(old(cache[ref])) && unchanged(this)
      ensures ref !in old(cache) && ref !in db.docs ==> r == Err(NotFound(ref)) && unchanged(this)
      ensures ref !in old(cache) && ref in db.docs ==>
                && r.Ok? && fresh(r.value) && r.value.oid == Some(ref)
                && r.value.attrs == db.docs[ref].fields && r.value.serial == db.docs[ref].serial
                && !r.value.changed && cache == old(cache)[ref := r.value] && !needsToJoin
    {
      if ref in cache {
        return Ok(cache[ref]);
      }
      if ref !in db.docs {
        return Err(NotFound(ref));
      }
      var obj := LoadDoc(ref, db.docs[ref]);
      r := Ok(obj);
    }

    /**
     * Compare the serial of every registered stored object with the one in
     * the store; the first that differs is a conflict. Off when conflict
     * detection is off.
     */
    method CheckConflicts() returns (r: Outcome)
      ensures !detectConflicts ==> r == Pass
      ensures detectConflicts ==>
                (r == Pass <==> forall i :: 0 <= i < |registered| ==> !Conflicting(registered[i]))
      ensures r.Fail? ==>
                exists i :: 0 <= i < |registered| && Conflicting(registered[i])
                  && r.error == ConflictError(registered[i].oid, registered[i].serial,
                                              db.docs[registered[i].oid.value].serial)
    {
      if !detectConflicts {
        return Pass;
      }
      var i := 0;
      while i < |registered|
        invariant 0 <= i <= |registered|
        invariant forall j :: 0 <= j < i ==> !Conflicting(registered[j])
      {
        var obj := registered[i];
        if obj.oid.Some? && obj.oid.value in db.docs {
          var current := db.docs[obj.oid.value].serial;
          if current != obj.serial {
            return Fail(ConflictError(obj.oid, obj.serial, current));
          }
        }
        i := i + 1;
      }
      r := Pass;
    }

    /**
     * Where a write-out of `queue` stands after its first `i` objects, given
     * the store, the references, the serials and the identity map it
     * started from.
     */
    ghost predicate Progress(source: seq<Persistent>, queue: seq<Persistent>, i: nat, docs0: map<DocRef, Doc>,
                             oids0: seq<Option<DocRef>>, serials0: seq<nat>, cache0: map<DocRef, Persistent>)
      reads this`cache, db`docs, queue`oid, queue`attrs, queue`serial, queue`changed
    {
      && i <= |queue| == |oids0| == |serials0|
      && db.docs == WriteBack(queue[..i], docs0)
      && (forall j :: 0 <= j < i ==>
            queue[j].oid.Some? && (oids0[j].Some? ==> queue[j].oid == oids0[j])
            && queue[j].serial == serials0[j] + 1 && !queue[j].changed)
      && (forall j :: i <= j < |queue| ==> queue[j].oid == oids0[j] && queue[j].serial == serials0[j])
      && (forall r :: r in cache0 ==> r in cache && cache[r] == cache0[r])
      && (forall r :: r in cache && r !in cache0 ==> cache[r] in source)
    }

    /** Write the next object of a queue without duplicates and mark it unchanged. */
    method WriteStep(ghost source: seq<Persistent>, obj: Persistent, queue: seq<Persistent>, i: nat, ghost docs0: map<DocRef, Doc>,
                     ghost oids0: seq<Option<DocRef>>, ghost serials0: seq<nat>,
                     ghost cache0: map<DocRef, Persistent>)
      requires Valid() && Distinct(queue) && i < |queue| && queue[i] == obj && obj in source
      requires Progress(source, queue, i, docs0, oids0, serials0, cache0)
      modifies this`originalStates, this`cache, db, obj`oid, obj`serial, obj`changed
      ensures Valid()
      ensures Progress(source, queue, i + 1, docs0, oids0, serials0, cache0)
      ensures forall r :: PreImage(r) == old(PreImage(r))
    {
      ghost var docsBefore := db.docs;
      ghost var cacheBefore := cache;
      var ref := Write(obj);
      obj.changed := false;
      assert WriteBack(queue[..i], docs0) == docsBefore;
      assert queue[..i + 1][..i] == queue[..i];
    }

    /**
     * Write every registered object once, in queue order, and mark every
     * registered object unchanged.
     */
    method WriteRegistered()
      requires Valid()
      modifies this`originalStates, this`cache, db, registered`oid, registered`serial, registered`changed
      ensures Valid()
      ensures registered == old(registered)
      ensures WroteBack(old(registered))
      ensures forall o :: o in registered ==> !o.changed && o.attrs == old(o.attrs)
    {
      var queue := Dedup(registered);
      WriteQueue(registered, queue);
      forall o | o in registered
        ensures o.oid.Some? && (old(o.oid).Some? ==> o.oid == old(o.oid)) && o.serial == old(o.serial) + 1
        ensures !o.changed
      {
        var j :| 0 <= j < |queue| && queue[j] == o;
      }
    }

    /** Write each object of a queue without duplicates, in order, and mark it unchanged. */
    method WriteQueue(ghost source: seq<Persistent>, queue: seq<Persistent>)
      requires Valid() && Distinct(queue) && forall j :: 0 <= j < |queue| ==> queue[j] in source
      modifies this`originalStates, this`cache, db, queue`oid, queue`serial, queue`changed
      ensures Valid()
      ensures db.docs == WriteBack(queue, old(db.docs))
      ensures forall j :: 0 <= j < |queue| ==>
                && queue[j].oid.Some? && (old(queue[j].oid).Some? ==> queue[j].oid == old(queue[j].oid))
                && queue[j].serial == old(queue[j].serial) + 1 && !queue[j].changed
      ensures Extends(old(cache), cache)
      ensures forall r :: r in cache && r !in old(cache) ==> cache[r] in source
      ensures forall r :: PreImage(r) == old(PreImage(r))
    {
      ghost var oids0 := seq(|queue|, j requires 0 <= j < |queue| reads queue => queue[j].oid);
      ghost var serials0 := seq(|queue|, j requires 0 <= j < |queue| reads queue => queue[j].serial);
      var i := 0;
      while i < |queue|
        invariant 0 <= i <= |queue|
        invariant Valid()
        invariant Progress(source, queue, i, old(db.docs), oids0, serials0, old(cache))
        invariant forall r :: PreImage(r) == old(PreImage(r))
      {
        WriteStep(source, queue[i], queue, i, old(db.docs), oids0, serials0, old(cache));
        i := i + 1;
      }
      assert queue[..i] == queue;
    }

    /**
     * Write all registered objects: check every one for a conflict first,
     * then write each distinct one once, clear their changed flags and empty
     * the queue. On a conflict nothing is written.
     */
    method Flush() returns (r: Outcome)
      requires Valid()
      modifies this`originalStates, this`cache, this`registered, db
      modifies registered`oid, registered`serial, registered`changed
      ensures Valid()
      ensures r.Fail? <==> old(HasConflict())
      ensures r.Fail? ==> r.error.ConflictError? && unchanged(this, db)
                          && forall o :: o in registered ==> unchanged(o)
      ensures r.Fail? ==>
                exists i :: 0 <= i < |registered| && Conflicting(registered[i])
                  && r.error == ConflictError(registered[i].oid, registered[i].serial,
                                              db.docs[registered[i].oid.value].serial)
      ensures r.Pass? ==> WroteBack(old(registered)) && registered == []
                          && forall o :: o in old(registered) ==> !o.changed && o.attrs == old(o.attrs)
    {
      r := CheckConflicts();
      if r.Pass? {
        WriteAndClear();
      }
    }

    /** The successful half of a flush: write the queue out, then empty it. */
    method WriteAndClear()
      requires Valid()
      modifies this`originalStates, this`cache, this`registered, db
      modifies registered`oid, registered`serial, registered`changed
      ensures Valid()
      ensures WroteBack(old(registered)) && registered == []
      ensures forall o :: o in old(registered) ==> !o.changed && o.attrs == old(o.attrs)
    {
      WriteRegistered();
      registered := [];
    }

    /** End of transaction: forget the queues, the snapshots and the identity map. */
    method Reset()
      requires Valid()
      modifies this`cache, this`registered, this`inserted, this`removed, this`originalStates, this`needsToJoin
      ensures Valid()
      ensures cache == map[] && registered == [] && inserted == [] && removed == []
      ensures originalStates == map[] && needsToJoin
      ensures PreTransaction() == db.docs
    {
      cache := map[];
      registered := [];
      inserted := [];
      removed := [];
      originalStates := map[];
      needsToJoin := true;
      LookupExtensional(PreTransaction(), db.docs);
    }

    /**
     * Put back every document this transaction touched as it was before,
     * deleting the ones that did not exist, then reset.
     */
    method Abort()
      requires Valid()
      modifies this`cache, this`registered, this`inserted, this`removed, this`originalStates, this`needsToJoin
      modifies db`docs
      ensures Valid()
      ensures db.docs == old(PreTransaction())
      ensures cache == map[] && registered == [] && inserted == [] && removed == []
      ensures originalStates == map[] && needsToJoin
    {
      var pending := originalStates.Keys;
      while pending != {}
        invariant pending <= originalStates.Keys
        invariant Valid()
        invariant originalStates == old(originalStates)
        invariant forall r :: r in originalStates && r !in pending ==> Lookup(db.docs, r) == originalStates[r]
        invariant forall r :: r !in originalStates || r in pending ==> Lookup(db.docs, r) == old(Lookup(db.docs, r))
        decreases pending
      {
        var ref :| ref in pending;
        match originalStates[ref] {
          case Some(doc) => db.docs := db.docs[ref := doc];
          case None => db.docs := db.docs - {ref};
        }
        pending := pending - {ref};
      }
      forall r ensures Lookup(db.docs, r) == old(PreImage(r)) {
      }
      LookupExtensional(db.docs, old(PreTransaction()));
      Reset();
    }

    /** The same as Abort. */
    method TpcAbort()
      requires Valid()
      modifies this`cache, this`registered, this`inserted, this`removed, this`originalStates, this`needsToJoin
      modifies db`docs
      ensures Valid()
      ensures db.docs == old(PreTransaction())
      ensures cache == map[] && registered == [] && inserted == [] && removed == []
      ensures originalStates == map[] && needsToJoin
    {
      Abort();
    }

    /** First phase of two-phase commit: only validates, writes nothing. */
    method Commit() returns (r: Outcome)
      ensures r.Fail? <==> HasConflict()
      ensures r.Fail? ==>
                exists i :: 0 <= i < |registered| && Conflicting(registered[i])
                  && r.error == ConflictError(registered[i].oid, registered[i].serial,
                                              db.docs[registered[i].oid.value].serial)
    {
      r := CheckConflicts();
    }

    /** Second phase: flush, then reset for the next transaction. */
    method TpcFinish() returns (r: Outcome)
      requires Valid()
      modifies this`originalStates, this`cache, this`registered, this`inserted, this`removed, this`needsToJoin, db
      modifies registered`oid, registered`serial, registered`changed
      ensures Valid()
      ensures r.Fail? <==> old(HasConflict())
      ensures r.Fail? ==> unchanged(this, db) && forall o :: o in registered ==> unchanged(o)
      ensures r.Fail? ==>
                exists i :: 0 <= i < |registered| && Conflicting(registered[i])
                  && r.error == ConflictError(registered[i].oid, registered[i].serial,
                                              db.docs[registered[i].oid.value].serial)
      ensures r.Pass? ==> db.docs == WriteBack(Dedup(old(registered)), old(db.docs))
      ensures r.Pass? ==> forall o :: o in old(registered) ==>
                            && o.oid.Some? && (old(o.oid).Some? ==> o.oid == old(o.oid))
                            && o.serial == old(o.serial) + 1 && !o.changed && o.attrs == old(o.attrs)
      ensures r.Pass? ==> cache == map[] && registered == [] && inserted == [] && removed == []
                          && originalStates == map[] && needsToJoin
    {
      r := Flush();
      if r.Pass? {
        Reset();
      }
    }

    /** A query through the collection wrapper: flush pending writes, then read. */
    method CollectionFind(database: string, collection: string, f: Filter)
      returns (r: Result<seq<(DocRef, Doc)>>)
      requires Valid()
      modifies this`originalStates, this`cache, this`registered, db
      modifies registered`oid, registered`serial, registered`changed
      ensures Valid()
      ensures r.Err? <==> old(HasConflict())
      ensures r.Err? ==> r.error.ConflictError? && unchanged(this, db)
                         && forall o :: o in registered ==> unchanged(o)
      ensures r.Err? ==>
                exists i :: 0 <= i < |registered| && Conflicting(registered[i])
                  && r.error == ConflictError(registered[i].oid, registered[i].serial,
                                              db.docs[registered[i].oid.value].serial)
      ensures r.Ok? ==> WroteBack(old(registered)) && registered == []
                        && (forall o :: o in old(registered) ==> !o.changed)
                        && r.value == Query(db.docs, database, collection, f, db.nextId)
    {
      var flushed := Flush();
      if flushed.Fail? {
        return Err(flushed.error);
      }
      r := Ok(Query(db.docs, database, collection, f, db.nextId));
    }

    /** `find_one` through the collection wrapper: flush pending writes, then read. */
    method CollectionFindOne(database: string, collection: string, f: Filter)
      returns (r: Result<Option<(DocRef, Doc)>>)
      requires Valid()
      modifies this`originalStates, this`cache, this`registered, db
      modifies registered`oid, registered`serial, registered`changed
      ensures Valid()
      ensures r.Err? <==> old(HasConflict())
      ensures r.Err? ==> r.error.ConflictError? && unchanged(this, db)
                         && forall o :: o in registered ==> unchanged(o)
      ensures r.Err? ==>
                exists i :: 0 <= i < |registered| && Conflicting(registered[i])
                  && r.error == ConflictError(registered[i].oid, registered[i].serial,
                                              db.docs[registered[i].oid.value].serial)
      ensures r.Ok? ==> WroteBack(old(registered)) && registered == []
                        && (forall o :: o in old(registered) ==> !o.changed)
                        && r.value == FirstMatch(db.docs, database, collection, f, db.nextId)
    {
      var flushed := Flush();
      if flushed.Fail? {
        return Err(flushed.error);
      }
      r := Ok(FirstMatch(db.docs, database, collection, f, db.nextId));
    }

    /**
     * Inserting a new object and removing it in the same transaction leaves
     * neither an inserted nor a removed entry behind, and the store as it was.
     */
    method InsertThenRemove(obj: Persistent) returns (r: Outcome)
      requires Valid() && obj.oid.None? && inserted == [] && removed == [] && registered == []
      modifies this`originalStates, this`cache, this`inserted, this`removed, this`registered, this`needsToJoin, db
      modifies obj`oid, obj`serial, obj`changed
      ensures Valid()
      ensures r == Pass && inserted == [] && removed == [] && registered == []
      ensures db.docs == old(db.docs)
    {
      var stored := Insert(obj);
      assert inserted == [obj];
      r := Remove(obj);
    }

    /**
     * A transaction that changes a stored object, removes another, inserts
     * a new one and flushes, then aborts, leaves the store exactly as it was.
     */
    method AbortAfterMixedChanges(changed: Persistent, gone: Persistent, added: Persistent,
                                  name: string, v: Value) returns (flushed: Outcome)
      requires Valid() && originalStates == map[] && registered == []
      requires added.oid.None?
      modifies this`cache, this`registered, this`inserted, this`removed, this`originalStates, this`needsToJoin
      modifies db, changed`attrs, changed`changed, changed`oid, changed`serial
      modifies added`oid, added`serial, added`changed
      ensures Valid()
      ensures db.docs == old(db.docs)
      ensures registered == [] && needsToJoin
    {
      MixedChanges(changed, gone, added, name, v);
      ghost var start := PreTransaction();
      flushed := Flush();
      LookupExtensional(PreTransaction(), start);
      Abort();
    }

    /** The changes of `AbortAfterMixedChanges`, up to the flush. */
    method MixedChanges(changed: Persistent, gone: Persistent, added: Persistent, name: string, v: Value)
      requires Valid() && originalStates == map[] && registered == []
      requires added.oid.None?
      modifies this`cache, this`registered, this`inserted, this`removed, this`originalStates, this`needsToJoin
      modifies db, changed`attrs, changed`changed, changed`oid, changed`serial
      modifies added`oid, added`serial, added`changed
      ensures Valid()
      ensures PreTransaction() == old(db.docs)
      ensures registered == [] || registered == [changed]
    {
      LookupExtensional(PreTransaction(), db.docs);
      ghost var start := PreTransaction();
      SetAttribute(changed, name, v);
      assert registered == [] || registered == [changed];
      var removedOutcome := Remove(gone);
      assert registered == [] || registered == [changed];
      var inserted := Insert(added);
      LookupExtensional(PreTransaction(), start);
    }

    /** Registering the same object twice queues it once and joins the transaction. */
    method RegisterTwice(obj: Persistent)
      requires registered == []
      modifies this`registered, this`needsToJoin
      ensures registered == [obj] && !needsToJoin
    {
      Register(obj);
      Register(obj);
    }

    /**
     * After a successful flush, loading a reference the transaction already
     * loaded gives back the very same object.
     */
    method LoadAfterFlush(ref: DocRef) returns (flushed: Outcome, r: Result<Persistent>)
      requires Valid() && ref in cache
      modifies this`originalStates, this`cache, this`registered, this`needsToJoin, db
      modifies registered`oid, registered`serial, registered`changed
      ensures Valid()
      ensures flushed.Pass? ==> r == Ok(old(cache[ref]))
    {
      flushed := Flush();
      r := Load(ref);
    }
  }
}
