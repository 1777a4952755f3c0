# mongopersist: transactional data manager and Mongo container

A Dafny model of two cooperating parts of mongopersist, a library that stores
ZODB-style persistent Python objects as MongoDB documents.

- **The transactional data manager** (`MongoDataManager`). It keeps:
  - a queue of registered (modified) objects without duplicates;
  - the lists of objects inserted and removed in the current transaction;
  - the `_needs_to_join` flag;
  - a cache of loaded objects;
  - each object's serial, which a write bumps by one after a conflict check against the stored serial.

  `flush` writes every registered object once. `abort` / `tpc_abort` put the store back to its
  pre-transaction documents. `commit` only validates. The collection wrapper flushes pending
  changes before every read. `datamanager.py` is not part of this model, so the data manager
  follows what the doctests in `src/mongopersist/tests/test_datamanager.py` show.
- **The container** (`MongoContainer`, `AllItemsMongoContainer`, `MongoContained` in
  `src/mongopersist/container.py`). It is a dictionary-like view over one collection: the items
  are the documents that have the mapping key and whose parent key names the container. It adds
  its scoping filter to caller filters, validates keys, applies the collision rules of
  `__setitem__`, derives keys, deletes items, and resolves the lazily memoized `__name__` /
  `__parent__` of contained objects.

The MongoDB store is an in-memory map from document reference (database, collection, id) to a
document (fields and stored serial). A query answers in natural order, which is ascending id.
Query conditions follow MongoDB: `{'$exists': b}`, equality and `$ne`. Equality with None also
matches a missing field, and `$ne` is the negation of equality. `_id` reads as the document id.

Files:

- `documents.dfy` holds values, documents, filters, query semantics and the `Database` class.
- `persistence.dfy` holds the persistent object with the `MongoContained` name/parent resolution.
- `datamanager.dfy` holds the `MongoDataManager` class.
- `container.dfy` holds the `MongoContainer` class.

Modelling choices where the code is the authority:

- With no mapping key configured (`_m_mapping_key = None`), `__getitem__`, `__contains__` and
  `keys` build a filter whose field name is None (container.py lines 162, 258 and 262). The store
  refuses such a query. The model therefore answers these with `InvalidQuery`, raised after the
  flush-before-read. So `__setitem__(None, value)` without a mapping key inserts the value, derives
  its key and then fails in the `get` of `_after_setitem_hook`.
- `__getitem__` replaces the mapping-key entry `{'$exists': True}` by the key itself
  (container.py line 162). A lookup of None therefore matches documents that lack the mapping key.
- `remove` also drops the object from the registered queue. Otherwise the flush-before-read that
  follows a `__delitem__` would write the removed document back.
- An attribute assignment on a stored object marks it changed and registers it, as the ZODB
  `_p_changed` hook does (`SetAttribute`, `DeleteAttribute`).
- A changed flag is cleared right after its object is written, within the same flush.
- Each loaded object takes the name and parent resolvers configured for its collection
  (`MongoDataManager.classes`), standing in for the Python class the loader instantiates.

The operations that look an item up before acting return ghost outputs, which only the proofs use,
so that their effect can be stated:

- `seen` is the store and identity map as the lookup saw them, right after its flush.
- `holder` (`__setitem__`) is the object found under the key.
- `removed` and `before` (`__delitem__`) are the object removed and its attributes at the lookup.

A few predicates name recurring facts:

- `Untouched`: nothing in the data manager, the store or the registered objects changed.
- `LookedUp`: what the lookup of `__setitem__` found, or that no document matched.
- `PlacedSince`: the value is named and parented under the key, and only its own document and
  identity-map entry changed since `seen`.
- `NewlyStored`: the value received a fresh reference of its collection and is stored and cached
  under it.

## Model

| member | source | states |
|---|---|---|
| Documents.Query | src/mongopersist/tests/test_datamanager.py:113-124 | every answer to `find` is a stored document of that collection that matches the filter, with an id below the id counter |
| Documents.QueryComplete | src/mongopersist/tests/test_datamanager.py:113-124 | every matching document of the collection is in the answer to `find` |
| Documents.QueryExactly | src/mongopersist/tests/test_datamanager.py:113-124 | `find` returns exactly the matching documents of the collection (both directions) |
| Documents.FirstMatchNone | src/mongopersist/container.py:289-302 | `find_one` gives None exactly when no document of the collection matches |
| Documents.FirstMatchUnique | src/mongopersist/container.py:289-302 | when exactly one document of the collection matches, `find_one` finds that one |
| Documents.QueryBeyond | src/mongopersist/tests/test_datamanager.py:113-124 | raising the id bound past every stored document leaves the answer to `find` unchanged |
| Documents.FirstMatchAnyBound | src/mongopersist/container.py:289-302 | `find_one` answers the same under any id bound above every stored document |
| Documents.LookupExtensional | src/mongopersist/tests/test_datamanager.py:410-461 | two stores that agree on every reference are equal; abort uses this to restore the whole collection |
| Documents.Database.constructor | src/mongopersist/tests/test_datamanager.py:142-149 | a fresh store is empty and satisfies the id-counter invariant |
| Persistence.ResolveMemoized | src/mongopersist/container.py:41-67 | once name or parent has resolved to a value, it keeps resolving to that value whatever the attributes become |
| Persistence.AttrBeforeGetter | src/mongopersist/container.py:44-47 | when an attribute is configured, it wins over the getter |
| Persistence.Persistent.GetName | src/mongopersist/container.py:41-48 | returns the memoized name, else the attribute, else the getter's value, else None, and memoizes the result |
| Persistence.Persistent.SetName | src/mongopersist/container.py:49-53 | calls the configured setter on the attributes (and otherwise leaves them alone), then memoizes the value |
| Persistence.Persistent.GetParent | src/mongopersist/container.py:55-62 | the same resolution and memoization as the name, for `__parent__` |
| Persistence.Persistent.SetParent | src/mongopersist/container.py:63-67 | calls the configured parent setter, then memoizes the value |
| DataManager.Enqueue | src/mongopersist/tests/test_datamanager.py:380-403 | registration appends an object only when it is not queued yet, and keeps the queue free of duplicates |
| DataManager.EnqueueIdempotent | src/mongopersist/tests/test_datamanager.py:385-402 | registering the same object twice leaves the queue as after one registration, of length 1 |
| DataManager.Dedup | src/mongopersist/tests/test_datamanager.py:560-566 | the objects flushed are exactly the registered ones, each once |
| DataManager.IndexOf | src/mongopersist/tests/test_datamanager.py:326-340 | the position of the first occurrence of an object in a list |
| DataManager.IndexOfPrefix | src/mongopersist/tests/test_datamanager.py:560-566 | registering another object does not move the first registration of an object already queued |
| DataManager.DedupKeepsOrder | src/mongopersist/tests/test_datamanager.py:560-566 | the objects are written in the order of their first registration: earlier in the flush means registered first |
| DataManager.RemoveFirstRemoves | src/mongopersist/tests/test_datamanager.py:306-340 | taking an object out of a duplicate-free list removes it and keeps every other element |
| DataManager.RemoveFirst | src/mongopersist/tests/test_datamanager.py:326-340 | `list.remove` takes out exactly one occurrence of the object, one element shorter, same other elements |
| DataManager.WriteBackAt | src/mongopersist/tests/test_datamanager.py:205-227 | after the write-back, an object's document holds its attributes and new serial when no later object shares its reference |
| DataManager.WriteBackElsewhere | src/mongopersist/tests/test_datamanager.py:205-227 | the write-back leaves every document that no written object names unchanged |
| DataManager.MongoDataManager.constructor | src/mongopersist/tests/test_datamanager.py:142-149 | a new data manager has empty cache, queue, inserted and removed lists, no snapshots, and needs to join |
| DataManager.MongoDataManager.Capture | src/mongopersist/tests/test_datamanager.py:410-461 | the first touch of a reference records its pre-transaction state, and later touches keep that record |
| DataManager.MongoDataManager.Join | src/mongopersist/tests/test_datamanager.py:385-389 | joining the transaction clears `_needs_to_join` |
| DataManager.MongoDataManager.Register | src/mongopersist/tests/test_datamanager.py:380-403 | the queue becomes the old queue with the object enqueued once, and `_needs_to_join` becomes False |
| DataManager.MongoDataManager.SetAttribute | src/mongopersist/tests/test_datamanager.py:113-114 | assigning an attribute of a stored object marks it changed and registers it; an unstored object is only updated |
| DataManager.MongoDataManager.DeleteAttribute | src/mongopersist/container.py:234-245 | deleting an attribute reports whether it was present, removes it, and registers a stored object when it changed |
| DataManager.MongoDataManager.Write | src/mongopersist/tests/test_datamanager.py:154-158 | storing an object writes its attributes with serial + 1, giving a new object a fresh id that is then cached |
| DataManager.MongoDataManager.Insert | src/mongopersist/tests/test_datamanager.py:244-293 | inserting stores the object at once and appends it to the inserted list; an object that already has an id fails with nothing changed |
| DataManager.MongoDataManager.Remove | src/mongopersist/tests/test_datamanager.py:295-342 | removing deletes the document at once and records the object (or cancels its insertion); an object without an id fails |
| DataManager.MongoDataManager.Activate | src/mongopersist/tests/test_datamanager.py:344-365 | activation loads the stored fields and serial into the object, marks it unchanged and joins |
| DataManager.MongoDataManager.SetState | src/mongopersist/tests/test_datamanager.py:344-365 | `setstate` loads the stored state of an object that has an id and fails for one without |
| DataManager.MongoDataManager.LoadDoc | src/mongopersist/tests/test_datamanager.py:205-211 | loading a cached reference returns the cached object; otherwise a new ghost is activated and cached |
| DataManager.MongoDataManager.Load | src/mongopersist/tests/test_datamanager.py:165-169 | `load` returns the cached object, else a freshly activated one, else reports a missing document |
| DataManager.MongoDataManager.CheckConflicts | src/mongopersist/tests/test_datamanager.py:229-241 | with conflict detection, fails exactly when a registered stored object's serial differs from the stored one, carrying both serials |
| DataManager.MongoDataManager.WriteStep | src/mongopersist/tests/test_datamanager.py:205-227 | writing the next queued object extends the write-back by one, bumps its serial and clears its changed flag |
| DataManager.MongoDataManager.WriteRegistered | src/mongopersist/tests/test_datamanager.py:205-227 | the store becomes the write-back of the deduplicated queue; every registered object is stored, keeps an existing id, has serial + 1, is unchanged and keeps its attributes |
| DataManager.MongoDataManager.WriteQueue | src/mongopersist/tests/test_datamanager.py:205-227 | writing a duplicate-free queue in order gives the write-back of that queue; each object is stored, serial + 1, unchanged, attributes kept |
| DataManager.MongoDataManager.Flush | src/mongopersist/tests/test_datamanager.py:173-242 | fails exactly on a conflict, changing nothing, with a ConflictError carrying a conflicting object's reference, its start serial and the stored serial; otherwise writes each registered object once with serial + 1, leaves their attributes alone and empties the queue |
| DataManager.MongoDataManager.WriteAndClear | src/mongopersist/tests/test_datamanager.py:205-227 | the successful half of `flush`: every registered object is written once with serial + 1 and left unchanged, and the queue is emptied |
| DataManager.MongoDataManager.Reset | src/mongopersist/tests/test_datamanager.py:160-163 | `reset` clears the cache, the queue, the inserted and removed lists and the snapshots, and needs to join again |
| DataManager.MongoDataManager.Abort | src/mongopersist/tests/test_datamanager.py:405-462 | `abort` restores the store to its pre-transaction documents, empties the queue and needs to join again |
| DataManager.MongoDataManager.TpcAbort | src/mongopersist/tests/test_datamanager.py:588-602 | `tpc_abort` restores the store as `abort` does |
| DataManager.MongoDataManager.Commit | src/mongopersist/tests/test_datamanager.py:464-530 | `commit` writes nothing and fails exactly when conflict detection finds a differing stored serial |
| DataManager.MongoDataManager.TpcFinish | src/mongopersist/tests/test_datamanager.py:548-586 | `tpc_finish` writes each registered object once, with serial + 1, its id kept when it had one and its attributes unchanged, and resets the data manager; on a conflict it changes nothing and reports a conflicting object's start and stored serials |
| DataManager.MongoDataManager.CollectionFind | src/mongopersist/tests/test_datamanager.py:113-124 | a read through the collection wrapper flushes first, then answers from the flushed store; on a conflict it changes nothing and reports a conflicting object's start and stored serials |
| DataManager.MongoDataManager.CollectionFindOne | src/mongopersist/tests/test_datamanager.py:113-124 | `find_one` through the wrapper flushes first, then returns the first match of the flushed store; on a conflict it changes nothing and reports a conflicting object's start and stored serials |
| DataManager.MongoDataManager.InsertThenRemove | src/mongopersist/tests/test_datamanager.py:326-340 | insert then remove in one transaction leaves the inserted, removed and registered lists empty and the store as it was |
| DataManager.MongoDataManager.AbortAfterMixedChanges | src/mongopersist/tests/test_datamanager.py:410-461 | after a modification, a removal, an insertion and a flush, abort restores exactly the previous documents |
| DataManager.MongoDataManager.MixedChanges | src/mongopersist/tests/test_datamanager.py:410-440 | a modification, a removal and an insertion keep the pre-transaction snapshot equal to the store as it was before them |
| DataManager.MongoDataManager.RegisterTwice | src/mongopersist/tests/test_datamanager.py:385-402 | registering one object twice leaves a queue of length 1 and `_needs_to_join` False |
| DataManager.MongoDataManager.LoadAfterFlush | src/mongopersist/tests/test_datamanager.py:205-227 | after a successful flush, `load` of a cached reference returns the identical instance |
| Container.Merge | src/mongopersist/container.py:130-133 | the merged filter has exactly the caller's keys and the container's keys |
| Container.MergeKeepsCaller | src/mongopersist/container.py:130-133 | the caller's entries are kept, and only keys the caller lacks are added from the items filter |
| Container.MergeMatches | src/mongopersist/container.py:130-133 | a document matches the merged filter iff it matches the caller's filter and every items entry the caller did not override |
| Container.MergeOverride | src/mongopersist/container.py:160-163 | overwriting the mapping-key entry of the items filter equals merging a one-key caller filter into it |
| Container.KeysOf | src/mongopersist/container.py:260-267 | one key per document found |
| Container.IdText | src/mongopersist/container.py:188 | the key derived from a document id is a non-empty string of decimal digits |
| Container.CheckKey | src/mongopersist/container.py:197-207 | a key passes iff it is non-empty text; TypeError iff it is not text; the empty-key error iff it is empty text |
| Container.IdKeyAccepted | src/mongopersist/container.py:180-193 | a key derived from a document id always passes key validation |
| Container.MongoContainer.constructor | src/mongopersist/container.py:74-89 | the mapping and parent keys default to `key` and `parent`; documents are removed on delete |
| Container.MongoContainer.AllItems | src/mongopersist/container.py:305-306 | an `AllItemsMongoContainer` has no parent key unless one is given |
| Container.MongoContainer.Configured | src/mongopersist/container.py:70-89 | a container with all class settings given explicitly |
| Container.MongoContainer.ParentKeyValue | src/mongopersist/container.py:110-116 | fails with ValueError when the container is not stored; a Mongo-stored container is its own value; a ZODB one is `zodb-` + its hex id |
| Container.MongoContainer.ItemsFilter | src/mongopersist/container.py:118-128 | `{'$exists': True}` under the mapping key and the parent value under the parent key, each exactly when configured |
| Container.AllItemsUnscoped | src/mongopersist/container.py:305-306 | an all-items container's filter is only the mapping-key existence test |
| Container.MongoContainer.AddItemsFilter | src/mongopersist/container.py:130-133 | the result is the caller's filter with the items entries added under keys it lacked |
| Container.MongoContainer.RejectQuery | src/mongopersist/container.py:160-163 | without a mapping key, the lookup's query has a None field name: it flushes (or fails on a conflict, changing nothing) and then fails with InvalidQuery |
| Container.MongoContainer.RawFind | src/mongopersist/container.py:275-280 | flushes, then returns the documents matching the caller's filter merged with the items filter |
| Container.MongoContainer.RawFindOne | src/mongopersist/container.py:289-296 | flushes, then returns the first document matching the merged filter |
| Container.MongoContainer.RawFindOneById | src/mongopersist/container.py:292-293 | a bare id is looked up as an `_id` filter |
| Container.MongoContainer.Locate | src/mongopersist/container.py:135-141 | fills the name from the document's mapping key and the parent with the container, each only when it resolves to None |
| Container.MongoContainer.LoadOne | src/mongopersist/container.py:143-152 | loads the document's object through the cache and locates it, so it is cached and has a parent |
| Container.MongoContainer.LoadFound | src/mongopersist/container.py:143-152 | the loading half of `find_one`: None when nothing was found, else the cached object of the found document, located; new cache entries hold their documents |
| Container.MongoContainer.FindOne | src/mongopersist/container.py:298-302 | None exactly when nothing matches the merged filter; otherwise the cached object of the first match |
| Container.MongoContainer.GetItem | src/mongopersist/container.py:160-166 | for a key that is not None, succeeds exactly when some document of the container holds the key, with the cached object of the first such document, which has a name and a parent; KeyError when none does; flushes first and fails unchanged on a conflict |
| Container.MongoContainer.FindKey | src/mongopersist/container.py:160-164 | `find_one` on the items filter with the key under the mapping key; a document found for a non-None key yields an item |
| Container.FoundHoldsKey | src/mongopersist/container.py:160-164 | the first document matching the key filter holds the key under the mapping key |
| Container.MongoContainer.Get | src/mongopersist/container.py:209-215 | `get` gives None exactly where `__getitem__` raises KeyError, and the item otherwise |
| Container.MongoContainer.WriteKeyAttributes | src/mongopersist/container.py:175-178 | sets the mapping-key attribute to the key and the parent-key attribute to the parent value; every other attribute keeps its value |
| Container.MongoContainer.RealSetItem | src/mongopersist/container.py:168-178 | inserts a value without an id under a fresh reference, then writes the key attributes; every other attribute keeps its value |
| Container.MongoContainer.Place | src/mongopersist/container.py:217-223 | after success the value is stored, has the key and parent attributes, and its name is the key and its parent the container |
| Container.MongoContainer.Adopt | src/mongopersist/container.py:217-222 | the value's name becomes the key and its parent the container; a value already named and parented so keeps its attributes |
| Container.MongoContainer.LookUpKey | src/mongopersist/container.py:209-215 | the `get` of the hook: flushes (nothing changes on a conflict), then finds the object held under the key, or None exactly when no document matches |
| Container.MongoContainer.Settle | src/mongopersist/container.py:209-223 | after the lookup: the value itself under the key is a no-op, another object gives KeyError, both leaving the value untouched; no object means the value is placed with only its own document changed |
| Container.MongoContainer.StoreChecked | src/mongopersist/container.py:209-223 | the hook after its key check: the three collision cases as the hook states them, a taken key leaving the value's attributes as they were |
| Container.MongoContainer.AfterSetItemHook | src/mongopersist/container.py:195-223 | TypeError for non-text keys and ValueError for empty ones, nothing changed; when the lookup finds an object under the key: Pass iff it is the value, else KeyError, with nothing written and the value's attributes unchanged; when it finds none: Pass, the value named and parented under the key and only its own document changed |
| Container.MongoContainer.SetItem | src/mongopersist/container.py:180-193 | a None key becomes the decimal id (inserting first) without a mapping key, else the value's mapping-key attribute (AttributeError when missing); then the hook's three collision cases on that key, a taken key leaving the value's attributes unchanged |
| Container.MongoContainer.AfterDelItemHook | src/mongopersist/container.py:252-254 | name and parent become None |
| Container.MongoContainer.KeyAttributes | src/mongopersist/container.py:234-245 | exactly the configured mapping key and parent key |
| Container.MongoContainer.StripKeyAttributes | src/mongopersist/container.py:234-245 | afterwards the value has its old attributes less the mapping and parent keys, whether or not they were present |
| Container.MongoContainer.RemoveItem | src/mongopersist/container.py:231-250 | strips the key attributes (with no setters, exactly those and nothing else), removes the document only when configured to, clears name and parent, and leaves the write-back of other objects unchanged |
| Container.MongoContainer.DelItem | src/mongopersist/container.py:231-250 | for a key that is not None, removes exactly when some document holds the key, the object found being the cached object of the first match; KeyError when none does; only that document leaves the store, and only when documents are removed on delete |
| Container.MongoContainer.LookUpItem | src/mongopersist/container.py:231-233 | the lookup of `__delitem__`: the object held under the key, either known before or new and holding its document |
| Container.MongoContainer.FetchItem | src/mongopersist/container.py:231-233 | the lookup of `__delitem__` together with the attributes the found object then had |
| Container.MongoContainer.HeldProvenance | src/mongopersist/container.py:143-152 | an object a lookup returns was cached or registered before, or is new and holds its document |
| Container.MongoContainer.RemoveFound | src/mongopersist/container.py:233-250 | a failed lookup is passed on with nothing changed; a found object is removed as `RemoveItem` states, relative to the lookup's store |
| Container.MongoContainer.Contains | src/mongopersist/container.py:256-258 | true exactly when some document of the container is stored under the key |
| Container.MongoContainer.Keys | src/mongopersist/container.py:260-267 | the mapping-key values of the container's documents with a non-None key, in natural order |
| Container.MongoContainer.IterKeys | src/mongopersist/container.py:259-264 | the loop of `__iter__` yields the mapping-key value of each document in order, none of them None when no document has None |
| Container.ContainsIffInKeys | src/mongopersist/container.py:256-267 | a non-None key is contained iff it is among `keys()` |
| Container.MongoContainer.SetThenGet | src/mongopersist/container.py:160-223 | storing a new object under a key and then looking the key up gives back that very object; a store that raises is the result and the lookup does not run |
| Container.MongoContainer.GetAfterSet | src/mongopersist/container.py:160-166 | the lookup right after a successful store finds the stored value |
| Container.MongoContainer.GotHeld | src/mongopersist/container.py:160-166 | with the store unchanged since an object was found under the key, the lookup finds it again |
| Container.MongoContainer.GotPlaced | src/mongopersist/container.py:160-178 | once the flush has written the key onto a new object's document, the lookup finds that object |
| Container.MongoContainer.HeldStays | src/mongopersist/container.py:289-302 | an object held under a filter stays the only one held there while the store is unchanged and the identity map only grows |
| Container.MongoContainer.HeldAt | src/mongopersist/container.py:143-152 | the object held under a filter is the cached object of the first match |
| Container.MongoContainer.ItemFoundAfterFlush | src/mongopersist/container.py:160-178 | after the flush writes a new object's key attributes, its document is the first, and only, match of the key filter |

## Left out

- `find`, `iteritems`, `add` and the laziness of `__iter__`: `find`/`iteritems` are `raw_find` followed by `LoadOne` per document, and `add` is `__setitem__`. `keys` is modelled as the list it returns.
- `SubDocumentMongoContainer` and the rule that stores a sub-object through its parent: the writer that decides it is not part of this model.
- `_m_jar` and `get_collection`: the registry lookup is replaced by a data manager passed in. `_m_database` is always given, so `default_database` is not modelled.
- ParentKeyValue: the hexadecimal rendering of a ZODB id is taken as a given string.
- CheckKey: the conversion of a byte string to unicode is not modelled; text keys are already unicode.
- Field projections (`fields=`) of `raw_find`/`raw_find_one`: whole documents are returned.
- `tpc_begin` and `tpc_vote`: they have no observable effect in the doctests.
- `oldstate` (it always raises KeyError) and `sortKey` (a constant pair): not modelled.
- `Root`, `dump` beyond a single write, and `processSpec`: their implementation is not part of this model.
- Serials are unbounded integers rather than 64-bit byte strings.
- CheckConflicts: the ConflictError carries the reference and the two serials, not the class name.
- AddItemsFilter: returns the merged filter instead of mutating the caller's dictionary in place.
- Persistence.Persistent.SetName: changes made by a configured setter do not register the object.
- The writer's `get_state` is the identity on attribute values.
- IdText: an ObjectId is rendered as decimal digits, not as 24 hexadecimal digits.
- GetItem: states that the item found has a name and a parent, not which; `Locate` states which.
- GetItem: states KeyError for the no-match case only; a KeyError also arises when locating a found document lacks the mapping-key field.
- RemoveItem: does not state that the object leaves the registered queue, because that needs the queue to be free of duplicates, which the data manager's invariant does not carry.
- DelItem: the item it removed is returned as a ghost out-parameter, so that its effect can be stated.
- Adopt: states that the attributes are kept only when name and parent were already memoized as the key and the container, not when they first resolve to them through the attributes.
- SetThenGet: stated for an object not stored or registered yet, of the container's collection, under a non-None key, with the mapping and parent keys distinct and not `_id`; other set-then-get sequences are not proved.
- AfterSetItemHook: when the lookup fails with a conflict or a bad filter, the value's attributes and the store are kept, but its memoized name and parent are not stated.
- SetItem: as AfterSetItemHook for a failing lookup.
- Persistence.Persistent.SetParent: changes made by a configured setter do not register the object either.
- Concurrent data managers: a conflict is modelled as a stored serial that differs, whoever wrote it.
