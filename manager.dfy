/**
 * AbstractBundlePersistenceManager: the bundle cache with negative entries, the
 * reads that go through it, and the change-log applicator that writes through it.
 *
 * The storage backend (the abstract hooks loadBundle, storeBundle, destroyBundle,
 * store/destroy of NodeReferences) is a pair of maps in this class; a backend call
 * for a node id in `faulty` fails with a storage error, as an I/O failure would.
 */
module Manager {
  import opened Ids
  import opened Bundles
  import opened ApplySpec

  /** What the cache holds for an id: the MISSING sentinel or a loaded bundle. */
  datatype Cached = Missing | Loaded(bundle: Bundle)

  /** A cache entry and the weight it is charged with. */
  datatype Entry = Entry(value: Cached, charge: nat)

  /** The weight charged for a MISSING entry. */
  const MissingCharge: nat := 16

  /** A staged working map agrees with a specified one up to what is persisted. */
  ghost predicate Matches(m: Staging, spec: Staging) {
    m.Keys == spec.Keys && forall k :: k in m ==> Persisted(m[k]) == Persisted(spec[k])
  }

  function NameValues(names: seq<QName>): (vs: seq<Value>)
    ensures |vs| == |names| && forall i :: 0 <= i < |names| ==> vs[i] == NameValue(names[i])
  {
    seq(|names|, i requires 0 <= i < |names| => NameValue(names[i]))
  }

  /** The property state load(PropertyId) synthesizes for jcr:uuid, jcr:primaryType and
      jcr:mixinTypes from the bundle's header; none for any other name. */
  function IdentityProperty(id: PropertyId, b: Bundle): (r: Option<PropertyState>)
    ensures r.Some? <==> IsIdentityName(id.name)
    ensures r.Some? ==> r.value.id == id && r.value.multiValued == (id.name == JcrMixinTypes)
    // jcr:uuid: a single STRING, the owner's id text
    ensures id.name == JcrUuid ==>
      r.value.propType == PropertyTypeString && r.value.values == [StringValue(id.parentId.text)]
    // jcr:primaryType: a single NAME, the bundle's node type
    ensures id.name == JcrPrimaryType ==>
      r.value.propType == PropertyTypeName && r.value.values == [NameValue(b.nodeTypeName)]
    // jcr:mixinTypes: one NAME per mixin of the bundle, in order
    ensures id.name == JcrMixinTypes ==>
      && r.value.propType == PropertyTypeName && |r.value.values| == |b.mixinTypeNames|
      && forall i :: 0 <= i < |b.mixinTypeNames| ==> r.value.values[i] == NameValue(b.mixinTypeNames[i])
  {
    if id.name == JcrUuid then
      Some(PropertyState(id, PropertyTypeString, false, [StringValue(id.parentId.text)]))
    else if id.name == JcrPrimaryType then
      Some(PropertyState(id, PropertyTypeName, false, [NameValue(b.nodeTypeName)]))
    else if id.name == JcrMixinTypes then
      Some(PropertyState(id, PropertyTypeName, true, NameValues(b.mixinTypeNames)))
    else None
  }

  /** A jcr:mixinTypes state that load(PropertyId) registered in a cached bundle is still
      there after bundle.update, which takes over the header but not the records, and it
      is what the bundle answers afterwards, not the new header's mixins. */
  lemma RegisteredMixinTypesOutliveUpdate(b: Bundle, s: NodeState)
    ensures var p := IdentityProperty(PropertyId(b.id, JcrMixinTypes), b).value;
      CreatePropertyState(Update(AddProperty(b, p), s), JcrMixinTypes) == Some(p)
  {
  }

  lemma BundleIdsNext(states: seq<ItemState>, k: nat)
    requires k < |states|
    ensures BundleIds(states[..k + 1]) == BundleIds(states[..k]) + {BundleId(states[k])}
  {
    assert states[..k + 1][..k] == states[..k];
  }

  /** A cache entry for id agrees with the stored records: MISSING for an id without a
      record, otherwise a bundle that persists as the record. */
  ghost predicate Agrees(c: Cached, id: NodeId, records: Records) {
    match c
    case Missing => id !in records
    case Loaded(b) => id in records && Persisted(b) == records[id]
  }

  /** Stored records are in persisted form and filed under their own id. */
  ghost predicate NormalRecords(records: Records) {
    forall id :: id in records ==> records[id].id == id && records[id] == Persisted(records[id])
  }

  /** The cache invariant. A bundle that storeInternal staged from the cache is the cached
      object itself, so its entry holds the staged bundle (the ids in `shared`); every
      other entry agrees with the stored records. With nothing staged, every entry agrees. */
  ghost predicate CacheInv(cache: map<NodeId, Entry>, records: Records, modified: Staging, shared: set<NodeId>) {
    && NormalRecords(records)
    && (forall k :: k in cache && k !in shared ==> Agrees(cache[k].value, k, records))
    && (forall k :: k in shared ==> k in modified && k in cache && cache[k].value == Loaded(modified[k]))
    && (forall k :: k in modified ==> modified[k].id == k)
  }

  /** Caching an entry that agrees with the records. */
  lemma CacheInvSet(cache: map<NodeId, Entry>, records: Records, modified: Staging, shared: set<NodeId>, id: NodeId, e: Entry)
    requires CacheInv(cache, records, modified, shared) && id !in shared && Agrees(e.value, id, records)
    ensures CacheInv(cache[id := e], records, modified, shared)
  {
  }

  /** Dropping entries. */
  lemma CacheInvRemove(cache: map<NodeId, Entry>, records: Records, ids: set<NodeId>)
    requires CacheInv(cache, records, map[], {})
    ensures CacheInv(cache - ids, records, map[], {})
  {
  }

  /** Evicting every entry that may be stale leaves a cache that agrees with the records. */
  lemma EvictRestores(cache: map<NodeId, Entry>, records: Records, ids: set<NodeId>)
    requires NormalRecords(records)
    requires forall k :: k in cache && k !in ids ==> Agrees(cache[k].value, k, records)
    ensures CacheInv(cache - ids, records, map[], {})
  {
  }

  /** deleteBundle: the record goes and MISSING is cached for it. */
  lemma CacheInvDelete(cache: map<NodeId, Entry>, records: Records, id: NodeId)
    requires CacheInv(cache, records, map[], {})
    ensures CacheInv(cache[id := Entry(Missing, MissingCharge)], records - {id}, map[], {})
  {
  }

  /** Changing a staged bundle that came from the cache changes the cache entry with it. */
  lemma CacheInvRestage(cache: map<NodeId, Entry>, records: Records, modified: Staging, shared: set<NodeId>, nb: Bundle, charge: nat)
    requires CacheInv(cache, records, modified, shared)
    ensures CacheInv(cache[nb.id := Entry(Loaded(nb), charge)], records, modified[nb.id := nb], shared + {nb.id})
  {
  }

  /** Changing a staged bundle that the cache does not hold (a new node's bundle). */
  lemma CacheInvStageFresh(cache: map<NodeId, Entry>, records: Records, modified: Staging, shared: set<NodeId>, nb: Bundle)
    requires CacheInv(cache, records, modified, shared) && nb.id !in shared
    ensures CacheInv(cache, records, modified[nb.id := nb], shared)
  {
  }

  /** putBundle of a staged bundle during write-back: its record is replaced, and its cache
      entry, if any, now agrees with the new record. */
  lemma CacheInvPut(cache: map<NodeId, Entry>, records: Records, modified: Staging, pending: set<NodeId>, id: NodeId, charge: nat)
    requires CacheInv(cache, records, modified, pending) && id in modified
    ensures CacheInv(
      if id in cache then cache[id := Entry(Loaded(MarkOld(modified[id])), charge)] else cache,
      records[id := Persisted(modified[id])], modified, pending - {id})
  {
    PersistedIdempotent(modified[id]);
  }

  /** Staged maps that agree on what is persisted are written back alike. */
  lemma WriteBackMatches(records: Records, m: Staging, spec: Staging)
    requires Matches(m, spec)
    ensures WriteBack(records, m) == WriteBack(records, spec)
  {
  }

  lemma WriteBackNext(records: Records, m: Staging, todo: set<NodeId>, id: NodeId)
    requires id in todo && todo <= m.Keys
    ensures WriteBack(records, m - (todo - {id})) == WriteBack(records, m - todo)[id := Persisted(m[id])]
  {
    var a, b := WriteBack(records, m - (todo - {id})), WriteBack(records, m - todo)[id := Persisted(m[id])];
    assert a.Keys == b.Keys;
    forall k | k in a ensures a[k] == b[k] {
    }
  }

  lemma WriteBackNothing(records: Records, m: Staging)
    ensures WriteBack(records, m - m.Keys) == records
  {
    assert m - m.Keys == map[];
  }

  /** Phase 2 of storeInternal: a new bundle for every added node state. */
  method GatherAddedNodes(states: seq<ItemState>) returns (modified: Staging)
    ensures Stage(AddNodes, states, map[]) == Ok(modified)
    ensures modified.Keys == NodeIds(states)
    ensures forall k :: k in modified ==> modified[k].id == k && modified[k].isNew
  {
    modified := map[];
    for i := 0 to |states|
      invariant Stage(AddNodes, states[..i], map[]) == Ok(modified)
      invariant forall k :: k in modified ==> modified[k].id == k && modified[k].isNew
    {
      StageNext(AddNodes, states, i, map[]);
      if states[i].NodeItem? {
        var n := states[i].node;
        modified := modified[n.id := FromNodeState(n)];
      }
    }
    assert states[..|states|] == states;
    AddNodesOutcome(states, map[]);
  }

  class BundlePersistenceManager {
    /** The cache of loaded bundles and MISSING markers. */
    var bundles: map<NodeId, Entry>
    /** Backend: the stored bundle records. */
    var records: Records
    /** Backend: the stored reference lists, by target id. */
    var refs: RefRecords
    /** Backend: ids whose records cannot be read or written. */
    const faulty: set<NodeId>
    /** The size estimate a loaded bundle is charged with (NodePropBundle.getSize). */
    const sizeOf: Bundle -> nat
    /** How many times loadBundle has been called. */
    ghost var loads: nat

    ghost predicate RecordsNormal()
      reads this`records
    {
      NormalRecords(records)
    }

    /** The cache entry for id, if any, agrees with the backend. */
    ghost predicate CoherentAt(id: NodeId)
      reads this`bundles, this`records
    {
      id in bundles ==> Agrees(bundles[id].value, id, records)
    }

    /** The class invariant: every cache entry agrees with the backend. */
    ghost predicate Valid()
      reads this`bundles, this`records
    {
      CacheInv(bundles, records, map[], {})
    }

    /** The invariant while storeInternal stages the bundles in `modified`. */
    ghost predicate StagingInv(modified: Staging, shared: set<NodeId>)
      reads this`bundles, this`records
    {
      CacheInv(bundles, records, modified, shared)
    }

    /** init: an empty cache over the given backend. */
    constructor (faulty: set<NodeId>, sizeOf: Bundle -> nat, records: Records, refs: RefRecords)
      requires forall id :: id in records ==> records[id].id == id && records[id] == Persisted(records[id])
      ensures Valid()
      ensures this.bundles == map[] && this.records == records && this.refs == refs
      ensures this.faulty == faulty && this.sizeOf == sizeOf && this.loads == 0
    {
      this.bundles := map[];
      this.records := records;
      this.refs := refs;
      this.faulty := faulty;
      this.sizeOf := sizeOf;
      this.loads := 0;
    }

    /** close: clears the cache. */
    method Close()
      requires Valid()
      modifies this`bundles
      ensures Valid() && bundles == map[]
    {
      bundles := map[];
    }

    // ------------------------------------------------------------ backend hooks

    method LoadBundle(id: NodeId) returns (r: Result<Option<Bundle>>)
      modifies this`loads
      ensures loads == old(loads) + 1
      ensures r == if id in faulty then Err(StorageFailure(id))
                   else if id in records then Ok(Some(records[id])) else Ok(None)
    {
      loads := loads + 1;
      if id in faulty {
        return Err(StorageFailure(id));
      }
      r := if id in records then Ok(Some(records[id])) else Ok(None);
    }

    method StoreBundle(b: Bundle) returns (r: Outcome)
      modifies this`records
      ensures r == if b.id in faulty then Fail(StorageFailure(b.id)) else Pass
      ensures records == if b.id in faulty then old(records) else old(records)[b.id := Persisted(b)]
    {
      if b.id in faulty {
        return Fail(StorageFailure(b.id));
      }
      records := records[b.id := Persisted(b)];
      r := Pass;
    }

    method DestroyBundle(b: Bundle) returns (r: Outcome)
      modifies this`records
      ensures r == if b.id in faulty then Fail(StorageFailure(b.id)) else Pass
      ensures records == if b.id in faulty then old(records) else old(records) - {b.id}
    {
      if b.id in faulty {
        return Fail(StorageFailure(b.id));
      }
      records := records - {b.id};
      r := Pass;
    }

    method StoreReferences(list: NodeReferences) returns (r: Outcome)
      modifies this`refs
      ensures r == if list.targetId in faulty then Fail(StorageFailure(list.targetId)) else Pass
      ensures refs == if list.targetId in faulty then old(refs) else old(refs)[list.targetId := list]
    {
      if list.targetId in faulty {
        return Fail(StorageFailure(list.targetId));
      }
      refs := refs[list.targetId := list];
      r := Pass;
    }

    method DestroyReferences(list: NodeReferences) returns (r: Outcome)
      modifies this`refs
      ensures r == if list.targetId in faulty then Fail(StorageFailure(list.targetId)) else Pass
      ensures refs == if list.targetId in faulty then old(refs) else old(refs) - {list.targetId}
    {
      if list.targetId in faulty {
        return Fail(StorageFailure(list.targetId));
      }
      refs := refs - {list.targetId};
      r := Pass;
    }

    // ------------------------------------------------------------ the bundle cache

    /** getBundle: a MISSING entry answers "no bundle" without asking the backend, a cached
        bundle is returned as is; otherwise the backend is asked once and its answer cached:
        the bundle marked old and charged with its size, or MISSING charged 16. */
    method GetBundle(id: NodeId) returns (r: Result<Option<Bundle>>)
      modifies this`bundles, this`loads
      ensures id in old(bundles) ==> bundles == old(bundles) && loads == old(loads)
      ensures id in old(bundles) && old(bundles)[id].value.Missing? ==> r == Ok(None)
      ensures id in old(bundles) && old(bundles)[id].value.Loaded? ==> r == Ok(Some(old(bundles)[id].value.bundle))
      ensures id !in old(bundles) ==> loads == old(loads) + 1
      ensures id !in old(bundles) && id in faulty ==> r == Err(StorageFailure(id)) && bundles == old(bundles)
      ensures id !in old(bundles) && id !in faulty && id in records ==>
        && r == Ok(Some(MarkOld(records[id])))
        && bundles == old(bundles)[id := Entry(Loaded(MarkOld(records[id])), sizeOf(MarkOld(records[id])))]
      ensures id !in old(bundles) && id !in faulty && id !in records ==>
        r == Ok(None) && bundles == old(bundles)[id := Entry(Missing, MissingCharge)]
      ensures r.Ok? && r.value.Some? ==> id in bundles && bundles[id].value == Loaded(r.value.value)
      ensures r.Err? ==> r.error == StorageFailure(id) && id in faulty
      ensures bundles == old(bundles) || (id !in old(bundles) && id in bundles && bundles == old(bundles)[id := bundles[id]])
      // read through a coherent entry, the cache is transparent: it answers what the backend holds
      ensures old(RecordsNormal() && CoherentAt(id)) ==> CoherentAt(id)
      ensures old(Valid()) ==> Valid()
      ensures old(RecordsNormal() && CoherentAt(id)) && r.Ok? ==>
        && (r.value.Some? <==> id in records)
        && (r.value.Some? ==> r.value.value.id == id && Persisted(r.value.value) == records[id])
    {
      if id in bundles {
        var cached := bundles[id].value;
        if cached == Missing {
          return Ok(None);
        }
        return Ok(Some(cached.bundle));
      }
      var loaded := LoadBundle(id);
      if loaded.Err? {
        return Err(loaded.error);
      }
      if loaded.value.Some? {
        var b := MarkOld(loaded.value.value);
        bundles := bundles[id := Entry(Loaded(b), sizeOf(b))];
        r := Ok(Some(b));
      } else {
        bundles := bundles[id := Entry(Missing, MissingCharge)];
        r := Ok(None);
      }
      if old(Valid()) {
        CacheInvSet(old(bundles), records, map[], {}, id, bundles[id]);
      }
    }

    /** deleteBundle: destroys the record, then caches MISSING for the id (releasing the
        bundle's blob values is not modelled). */
    method DeleteBundle(b: Bundle) returns (r: Outcome)
      modifies this`bundles, this`records
      ensures r == if b.id in faulty then Fail(StorageFailure(b.id)) else Pass
      ensures r.Fail? ==> records == old(records) && bundles == old(bundles)
      ensures r.Pass? ==> records == old(records) - {b.id}
      ensures r.Pass? ==> bundles == old(bundles)[b.id := Entry(Missing, MissingCharge)]
    {
      r := DestroyBundle(b);
      if r.Fail? {
        return;
      }
      bundles := bundles[b.id := Entry(Missing, MissingCharge)];
    }

    /** putBundle: stores the bundle and marks it old; the cache entry is overwritten only
        when the cache already has one for the id, so an uncached bundle stays uncached. */
    method PutBundle(b: Bundle) returns (r: Outcome)
      modifies this`bundles, this`records
      ensures r == if b.id in faulty then Fail(StorageFailure(b.id)) else Pass
      ensures r.Fail? ==> records == old(records) && bundles == old(bundles)
      ensures r.Pass? ==> records == old(records)[b.id := Persisted(b)]
      ensures r.Pass? && b.id in old(bundles) ==>
        bundles == old(bundles)[b.id := Entry(Loaded(MarkOld(b)), sizeOf(MarkOld(b)))]
      ensures r.Pass? && b.id !in old(bundles) ==> bundles == old(bundles)
    {
      r := StoreBundle(b);
      if r.Fail? {
        return;
      }
      var stored := MarkOld(b);
      if b.id in bundles {
        bundles := bundles[b.id := Entry(Loaded(stored), sizeOf(stored))];
      }
    }

    /** evictBundle: drops whatever the cache holds for the id. */
    method EvictBundle(id: NodeId)
      requires Valid()
      modifies this`bundles
      ensures Valid()
      ensures bundles == old(bundles) - {id}
    {
      CacheInvRemove(bundles, records, {id});
      bundles := bundles - {id};
    }

    /** onExternalUpdate: every bundle another process changed is dropped from the cache,
        whether the state was modified, deleted or added; nothing else is touched. */
    method OnExternalUpdate(changes: ChangeLog)
      // another process has written the touched ids' records: only their entries may be stale
      requires RecordsNormal()
      requires forall k :: k in bundles && k !in TouchedIds(changes) ==> Agrees(bundles[k].value, k, records)
      modifies this`bundles
      ensures Valid()
      ensures bundles == old(bundles) - TouchedIds(changes)
    {
      EvictStates(changes.modified);
      EvictStates(changes.deleted);
      EvictStates(changes.added);
      assert bundles == old(bundles) - TouchedIds(changes);
      EvictRestores(old(bundles), records, TouchedIds(changes));
    }

    /** One loop of onExternalUpdate: the bundle of every state in the list is evicted. */
    method EvictStates(states: seq<ItemState>)
      modifies this`bundles
      ensures bundles == old(bundles) - BundleIds(states)
    {
      for i := 0 to |states|
        invariant bundles == old(bundles) - BundleIds(states[..i])
      {
        BundleIdsNext(states, i);
        bundles := bundles - {BundleId(states[i])};
      }
      assert states[..|states|] == states;
    }

    // ------------------------------------------------------------ reads

    /** load(NodeId): the node state of the stored bundle; NoSuchItemState if there is none. */
    method Load(id: NodeId) returns (r: Result<NodeState>)
      requires Valid()
      modifies this`bundles, this`loads
      ensures Valid() && bundles.Keys == old(bundles).Keys + (if r.Ok? || r.error.NoSuchItemState? then {id} else {})
      ensures r.Ok? ==> id in records && r.value == CreateNodeState(records[id])
      ensures r.Err? ==> (r.error == StorageFailure(id) && id in faulty) || (r.error == NoSuchItemState(NodeItemId(id)) && id !in records)
      ensures id !in faulty ==> r.Ok? == (id in records)
      // a cached id, MISSING included, is answered without asking the backend
      ensures id in old(bundles) ==> bundles == old(bundles) && loads == old(loads)
      // no other entry changes
      ensures forall k :: k != id ==> (k in bundles <==> k in old(bundles)) && (k in old(bundles) ==> bundles[k] == old(bundles)[k])
    {
      var g := GetBundle(id);
      if g.Err? {
        return Err(g.error);
      }
      if g.value.None? {
        return Err(NoSuchItemState(NodeItemId(id)));
      }
      r := Ok(CreateNodeState(g.value.value));
    }

    /** load(PropertyId): the stored property record; for a missing jcr:uuid, jcr:primaryType
        or jcr:mixinTypes record, a state synthesized from the bundle header, which is then
        registered in the cached bundle; NoSuchItemState for anything else. */
    method LoadProperty(id: PropertyId) returns (r: Result<PropertyState>)
      requires Valid()
      modifies this`bundles, this`loads
      ensures Valid() && bundles.Keys == old(bundles).Keys + (if r.Ok? || r.error.NoSuchItemState? then {id.parentId} else {})
      ensures r.Ok? ==> r.value.id == id && id.parentId in records
      ensures r.Err? ==>
        || (r.error == StorageFailure(id.parentId) && id.parentId in faulty)
        || (r.error == NoSuchItemState(PropItemId(id)) &&
            (id.parentId !in records || (!IsIdentityName(id.name) && id.name !in records[id.parentId].properties)))
      ensures id.parentId !in faulty && id.parentId in records && !IsIdentityName(id.name) ==>
        && (r.Ok? <==> id.name in records[id.parentId].properties)
        && (r.Ok? ==> EntryOf(r.value) == records[id.parentId].properties[id.name])
      ensures id.parentId !in faulty && id.parentId in records && IsIdentityName(id.name) ==> r.Ok?
      ensures r.Ok? && IsIdentityName(id.name) && !old(RegisteredIn(id.parentId, id.name)) ==>
        r == Ok(IdentityProperty(id, records[id.parentId]).value)
      // a record the cached bundle already holds, a registered identity record included, is answered as is
      ensures old(RegisteredIn(id.parentId, id.name)) ==>
        r == Ok(CreatePropertyState(old(bundles)[id.parentId].value.bundle, id.name).value)
      // a synthesized state is registered in the cached bundle (bundle.addProperty)
      ensures r.Ok? ==> RegisteredIn(id.parentId, id.name)
      ensures id.parentId in old(bundles) ==> loads == old(loads)
      // no other entry changes
      ensures forall k :: k != id.parentId ==> (k in bundles <==> k in old(bundles)) && (k in old(bundles) ==> bundles[k] == old(bundles)[k])
    {
      var g := GetBundle(id.parentId);
      if g.Err? {
        return Err(g.error);
      }
      if g.value.None? {
        return Err(NoSuchItemState(PropItemId(id)));
      }
      var bundle := g.value.value;
      var state := CreatePropertyState(bundle, id.name);
      if state.Some? {
        return Ok(state.value);
      }
      var synthesized := IdentityProperty(id, bundle);
      if synthesized.None? {
        return Err(NoSuchItemState(PropItemId(id)));
      }
      // bundle.addProperty: the cached bundle itself records the synthesized state
      PersistedAddIdentity(bundle, synthesized.value);
      var registered := Entry(Loaded(AddProperty(bundle, synthesized.value)), bundles[id.parentId].charge);
      CacheInvSet(bundles, records, map[], {}, id.parentId, registered);
      bundles := bundles[id.parentId := registered];
      r := Ok(synthesized.value);
    }

    /** The cached bundle for pid holds a record named name. */
    ghost predicate RegisteredIn(pid: NodeId, name: QName)
      reads this`bundles
    {
      pid in bundles && bundles[pid].value.Loaded? && name in bundles[pid].value.bundle.properties
    }

    /** exists(NodeId): whether a bundle is stored; the answer is cached, MISSING included. */
    method ExistsNode(id: NodeId) returns (r: Result<bool>)
      requires Valid()
      modifies this`bundles, this`loads
      ensures Valid() && bundles.Keys == old(bundles).Keys + (if r.Ok? then {id} else {})
      ensures r.Err? ==> r.error == StorageFailure(id) && id in faulty
      ensures id !in faulty || id in old(bundles) ==> r == Ok(id in records)
      // a cached id, MISSING included, is answered without asking the backend
      ensures id in old(bundles) ==> bundles == old(bundles) && loads == old(loads)
      // no other entry changes
      ensures forall k :: k != id ==> (k in bundles <==> k in old(bundles)) && (k in old(bundles) ==> bundles[k] == old(bundles)[k])
    {
      var g := GetBundle(id);
      if g.Err? {
        return Err(g.error);
      }
      r := Ok(g.value.Some?);
    }

    /** exists(PropertyId): whether the owner's bundle exists and holds the property. */
    method ExistsProperty(id: PropertyId) returns (r: Result<bool>)
      requires Valid()
      modifies this`bundles, this`loads
      ensures Valid() && bundles.Keys == old(bundles).Keys + (if r.Ok? || r.error.NoSuchItemState? then {id.parentId} else {})
      ensures r.Err? ==> r.error == StorageFailure(id.parentId) && id.parentId in faulty
      ensures r.Ok? && r.value ==> id.parentId in records
      ensures id.parentId !in faulty && !IsIdentityName(id.name) ==>
        r == Ok(id.parentId in records && id.name in records[id.parentId].properties)
      ensures id.parentId in old(bundles) ==> bundles == old(bundles) && loads == old(loads)
      // no other entry changes
      ensures forall k :: k != id.parentId ==> (k in bundles <==> k in old(bundles)) && (k in old(bundles) ==> bundles[k] == old(bundles)[k])
    {
      var g := GetBundle(id.parentId);
      if g.Err? {
        return Err(g.error);
      }
      r := Ok(g.value.Some? && HasProperty(g.value.value, id.name));
    }

    // ------------------------------------------------------------ store

    /** store: applies the change log; if anything fails, the whole cache is cleared, since
        cached bundles may have been changed in place by the failed attempt. */
    method Store(log: ChangeLog) returns (r: Outcome)
      requires Valid()
      modifies this`bundles, this`records, this`refs, this`loads
      ensures Valid()
      ensures r.Fail? ==> bundles == map[]
      ensures r.Pass? ==> old(bundles).Keys <= bundles.Keys
      ensures r.Pass? ==> Apply(log, old(Backend(records, refs))) == Ok(Backend(records, refs))
      ensures r.Fail? ==>
        || (r.error.StorageFailure? && r.error.failed in faulty * (TouchedIds(log) + RefTargets(log.modifiedRefs)))
        || Apply(log, old(Backend(records, refs))) == Err(r.error)
      // the entries of ids the log does not touch stay as they were
      ensures r.Pass? ==> bundles.Keys <= old(bundles).Keys + TouchedIds(log)
      ensures r.Pass? ==> forall k :: k in old(bundles) && k !in TouchedIds(log) ==> bundles[k] == old(bundles)[k]
      ensures r.Pass? ==>
        forall k :: k in NodeIds(log.added) && k !in NodeIds(log.deleted) && k !in old(bundles) ==> k !in bundles
      ensures r.Pass? ==> forall k :: k in NodeIds(log.deleted) - NodeIds(log.added) ==>
        k in bundles && bundles[k] == Entry(Missing, MissingCharge)
    {
      r := StoreInternal(log);
      if r.Fail? {
        bundles := map[];
      }
    }

    /** storeInternal: deletes the deleted nodes' bundles, stages the bundles the log
        changes, writes them back, then stores or destroys the reference lists. */
    method StoreInternal(log: ChangeLog) returns (r: Outcome)
      requires Valid()
      modifies this`bundles, this`records, this`refs, this`loads
      ensures RecordsNormal()
      ensures r.Pass? ==> Valid() && old(bundles).Keys <= bundles.Keys
      ensures r.Pass? ==> Apply(log, old(Backend(records, refs))) == Ok(Backend(records, refs))
      ensures r.Fail? ==>
        || (r.error.StorageFailure? && r.error.failed in faulty * (TouchedIds(log) + RefTargets(log.modifiedRefs)))
        || Apply(log, old(Backend(records, refs))) == Err(r.error)
      // the entries of ids the log does not touch stay as they were
      ensures r.Pass? ==> bundles.Keys <= old(bundles).Keys + TouchedIds(log)
      ensures r.Pass? ==> forall k :: k in old(bundles) && k !in TouchedIds(log) ==> bundles[k] == old(bundles)[k]
      ensures (bundles.Keys - old(bundles).Keys) * NodeIds(log.added) <= NodeIds(log.deleted)
      // a deleted node that the log does not add again stays cached as MISSING
      ensures r.Pass? ==> forall k :: k in NodeIds(log.deleted) - NodeIds(log.added) ==>
        k in bundles && bundles[k] == Entry(Missing, MissingCharge)
    {
      var del := DeleteNodeStates(log.deleted);
      NodeIdsWithinBundleIds(log.deleted);
      if del.Err? {
        return Fail(del.error);
      }
      ghost var d := Deletion(del.value, records);
      r := WriteChanges(log, del.value);
      if r.Pass? {
        DeletedNotStaged(log, old(records), d);
        StagedWithinTouched(log, d);
      }
    }

    /** Phases 2 to 7 of storeInternal, once phase 1 has deleted the ids in `deleted`:
        stage the bundles the log changes, write them back, then store or destroy the
        reference lists. */
    method WriteChanges(log: ChangeLog, deleted: set<NodeId>) returns (r: Outcome)
      requires Valid()
      modifies this`bundles, this`records, this`refs, this`loads
      ensures RecordsNormal()
      ensures old(bundles).Keys <= bundles.Keys <= old(bundles).Keys + TouchedIds(log)
      ensures (bundles.Keys - old(bundles).Keys) !! NodeIds(log.added)
      ensures r.Pass? ==> Valid() && Staged(log, Deletion(deleted, old(records))).Ok?
      ensures r.Pass? ==>
        && records == WriteBack(old(records), Staged(log, Deletion(deleted, old(records))).value)
        && refs == ApplyRefs(old(refs), log.modifiedRefs)
      // only the entries of staged ids change
      ensures r.Pass? ==> forall k :: k in old(bundles) && k !in Staged(log, Deletion(deleted, old(records))).value ==>
        k in bundles && bundles[k] == old(bundles)[k]
      ensures r.Fail? ==>
        || (r.error.StorageFailure? && r.error.failed in faulty * (TouchedIds(log) + RefTargets(log.modifiedRefs)))
        || Staged(log, Deletion(deleted, old(records))) == Err(r.error)
    {
      ghost var view := records;
      var modified, shared;
      ghost var spec;
      modified, shared, spec := StageChanges(log, deleted);
      if modified.Err? {
        return Fail(modified.error);
      }
      StagedWithinTouched(log, Deletion(deleted, view));
      r := WriteBackBundles(modified.value, shared);
      if r.Fail? {
        return;
      }
      WriteBackMatches(view, modified.value, spec);
      r := StoreReferenceLists(log.modifiedRefs);
    }

    /** Phases 2 to 5 of storeInternal: the bundles to write back, gathered in `modified`. */
    method StageChanges(log: ChangeLog, deleted: set<NodeId>)
      returns (r: Result<Staging>, shared: set<NodeId>, ghost spec: Staging)
      requires Valid()
      modifies this`bundles, this`loads
      ensures RecordsNormal()
      ensures old(bundles).Keys <= bundles.Keys && (bundles.Keys - old(bundles).Keys) !! NodeIds(log.added)
      ensures r.Ok? ==> StagingInv(r.value, shared) && Matches(r.value, spec)
      ensures r.Ok? ==> forall k :: k in old(bundles) && k !in r.value ==> k in bundles && bundles[k] == old(bundles)[k]
      ensures r.Ok? ==> Staged(log, Deletion(deleted, records)) == Ok(spec)
      ensures bundles.Keys <= old(bundles).Keys + TouchedIds(log)
      ensures r.Err? ==>
        || (r.error.StorageFailure? && r.error.failed in faulty * TouchedIds(log))
        || Staged(log, Deletion(deleted, records)) == Err(r.error)
    {
      ghost var view := records;
      var modified := GatherAddedNodes(log.added);
      ghost var s1, s2: Staging;
      var m1, m2: Result<Staging>;
      var sh1, sh2: set<NodeId>;
      m1, sh1, s1 := StageStates(ApplyModified(records), log.modified, modified, {}, modified);
      if m1.Err? {
        return Err(m1.error), sh1, s1;
      }
      m2, sh2, s2 := StageStates(RemoveProperties(records, deleted), log.deleted, m1.value, sh1, s1);
      if m2.Err? {
        return Err(m2.error), sh2, s2;
      }
      r, shared, spec := StageStates(AddProperties(records), log.added, m2.value, sh2, s2);
    }

    /** One turn of DeleteNodeStates: delete the bundle of states[i] if it is a node. */
    method DeleteAt(states: seq<ItemState>, i: nat, deleted: set<NodeId>, ghost start: Records) returns (r: Result<set<NodeId>>)
      requires i < |states| && Valid()
      requires DeleteNodes(states[..i], start) == Ok(Deletion(deleted, records))
      requires forall k :: k in deleted ==> k in bundles && bundles[k] == Entry(Missing, MissingCharge)
      modifies this`bundles, this`records, this`loads
      ensures Valid()
      ensures old(bundles).Keys <= bundles.Keys <= old(bundles).Keys + NodeIds(states)
      ensures r.Ok? ==> DeleteNodes(states[..i + 1], start) == Ok(Deletion(r.value, records))
      ensures r.Ok? ==> forall k :: k in r.value ==> k in bundles && bundles[k] == Entry(Missing, MissingCharge)
      ensures forall k :: k in old(bundles) && k !in NodeIds(states) ==> bundles[k] == old(bundles)[k]
      ensures r.Err? ==>
        || (r.error.StorageFailure? && r.error.failed in faulty * NodeIds(states))
        || DeleteNodes(states, start) == Err(r.error)
    {
      DeleteNodesNext(states, i, start);
      r := Ok(deleted);
      if states[i].NodeItem? {
        var id := states[i].node.id;
        assert id in NodeIds(states);
        var g := GetBundle(id);
        if g.Err? {
          return Err(g.error);
        }
        if g.value.None? {
          DeleteNodesErrSticky(states, i + 1, start);
          return Err(NoSuchItemState(NodeItemId(id)));
        }
        CacheInvDelete(bundles, records, id);
        var o := DeleteBundle(g.value.value);
        if o.Fail? {
          return Err(o.error);
        }
        r := Ok(deleted + {id});
      }
    }

    /** Phase 1: each deleted node's bundle is fetched (NoSuchItemState if there is none)
        and deleted; the result is the set of deleted ids. */
    method DeleteNodeStates(states: seq<ItemState>) returns (r: Result<set<NodeId>>)
      requires Valid()
      modifies this`bundles, this`records, this`loads
      ensures Valid()
      ensures old(bundles).Keys <= bundles.Keys <= old(bundles).Keys + NodeIds(states)
      ensures r.Ok? ==> DeleteNodes(states, old(records)) == Ok(Deletion(r.value, records))
      ensures r.Ok? ==> forall k :: k in r.value ==> k in bundles && bundles[k] == Entry(Missing, MissingCharge)
      ensures forall k :: k in old(bundles) && k !in NodeIds(states) ==> bundles[k] == old(bundles)[k]
      ensures r.Err? ==>
        || (r.error.StorageFailure? && r.error.failed in faulty * NodeIds(states))
        || DeleteNodes(states, old(records)) == Err(r.error)
    {
      var deleted: set<NodeId> := {};
      for i := 0 to |states|
        invariant Valid()
        invariant old(bundles).Keys <= bundles.Keys <= old(bundles).Keys + NodeIds(states)
        invariant DeleteNodes(states[..i], old(records)) == Ok(Deletion(deleted, records))
        invariant forall k :: k in deleted ==> k in bundles && bundles[k] == Entry(Missing, MissingCharge)
        invariant forall k :: k in old(bundles) && k !in NodeIds(states) ==> bundles[k] == old(bundles)[k]
      {
        r := DeleteAt(states, i, deleted, old(records));
        if r.Err? {
          return;
        }
        deleted := r.value;
      }
      assert states[..|states|] == states;
      r := Ok(deleted);
    }

    /** modified.get(id), else getBundle(id): the bundle a staging step works on. */
    method GetStagedBundle(modified: Staging, shared: set<NodeId>, id: NodeId, ghost view: Records, ghost spec: Staging)
      returns (r: Result<Bundle>)
      requires StagingInv(modified, shared) && records == view && Matches(modified, spec)
      modifies this`bundles, this`loads
      ensures StagingInv(modified, shared)
      ensures old(bundles).Keys <= bundles.Keys <= old(bundles).Keys + (if id in modified then {} else {id})
      ensures r.Err? ==>
        || (r.error == StorageFailure(id) && id in faulty)
        || Fetch(view, spec, id) == Err(r.error)
      ensures r.Ok? ==> Fetch(view, spec, id).Ok? && r.value.id == id
      ensures r.Ok? ==> Persisted(r.value) == Persisted(Fetch(view, spec, id).value)
      ensures r.Ok? && id !in modified ==> id in bundles && bundles[id].value == Loaded(r.value)
      ensures bundles == old(bundles) || (id !in modified && id in bundles && bundles == old(bundles)[id := bundles[id]])
    {
      if id in modified {
        return Ok(modified[id]);
      }
      var g := GetBundle(id);
      if bundles != old(bundles) {
        CacheInvSet(old(bundles), records, modified, shared, id, bundles[id]);
      }
      if g.Err? {
        return Err(g.error);
      }
      if g.value.None? {
        return Err(NoSuchItemState(NodeItemId(id)));
      }
      r := Ok(g.value.value);
    }

    /** modified.put(id, bundle) after the bundle was changed: a bundle taken from the
        cache is the cached object, so the cache entry shows the change too. */
    method Restage(modified: Staging, shared: set<NodeId>, nb: Bundle) returns (modified': Staging, shared': set<NodeId>)
      requires StagingInv(modified, shared)
      requires nb.id !in modified ==> nb.id in bundles && bundles[nb.id].value.Loaded?
      modifies this`bundles
      ensures modified' == modified[nb.id := nb]
      ensures shared' == if nb.id in modified && nb.id !in shared then shared else shared + {nb.id}
      ensures StagingInv(modified', shared')
      ensures bundles.Keys == old(bundles).Keys
      ensures bundles == old(bundles) || (nb.id in bundles && bundles == old(bundles)[nb.id := bundles[nb.id]])
    {
      modified' := modified[nb.id := nb];
      if nb.id in modified && nb.id !in shared {
        CacheInvStageFresh(bundles, records, modified, shared, nb);
        shared' := shared;
      } else {
        CacheInvRestage(bundles, records, modified, shared, nb, bundles[nb.id].charge);
        bundles := bundles[nb.id := Entry(Loaded(nb), bundles[nb.id].charge)];
        shared' := shared + {nb.id};
      }
    }

    /** bundle.update(state) on the node's staged bundle (phase 3). */
    method StageNodeUpdate(m: Staging, shared: set<NodeId>, n: NodeState, ghost view: Records, ghost spec: Staging)
      returns (r: Result<Staging>, shared': set<NodeId>, ghost spec': Staging)
      requires StagingInv(m, shared) && records == view && Matches(m, spec)
      modifies this`bundles, this`loads
      ensures RecordsNormal()
      ensures old(bundles).Keys <= bundles.Keys && (bundles.Keys - old(bundles).Keys) !! m.Keys
      ensures r.Ok? ==> StagingInv(r.value, shared') && Matches(r.value, spec') && m.Keys <= r.value.Keys
      ensures r.Ok? ==> forall k :: k in old(bundles) && k !in r.value ==> k in bundles && bundles[k] == old(bundles)[k]
      ensures r.Ok? ==> Fetch(view, spec, n.id).Ok? && spec' == spec[n.id := Update(Fetch(view, spec, n.id).value, n)]
      ensures bundles.Keys <= old(bundles).Keys + {n.id}
      ensures r.Err? ==>
        || (r.error == StorageFailure(n.id) && n.id in faulty)
        || Fetch(view, spec, n.id) == Err(r.error)
    {
      var f := GetStagedBundle(m, shared, n.id, view, spec);
      if f.Err? {
        return Err(f.error), shared, spec;
      }
      ghost var b := Fetch(view, spec, n.id).value;
      PersistedUpdate(f.value, b, n);
      spec' := spec[n.id := Update(b, n)];
      var staged;
      staged, shared' := Restage(m, shared, Update(f.value, n));
      r := Ok(staged);
    }

    /** bundle.addProperty(state) on the parent's staged bundle (phases 3 and 5). */
    method StagePropertyAdd(m: Staging, shared: set<NodeId>, p: PropertyState, ghost view: Records, ghost spec: Staging)
      returns (r: Result<Staging>, shared': set<NodeId>, ghost spec': Staging)
      requires StagingInv(m, shared) && records == view && Matches(m, spec)
      modifies this`bundles, this`loads
      ensures RecordsNormal()
      ensures old(bundles).Keys <= bundles.Keys && (bundles.Keys - old(bundles).Keys) !! m.Keys
      ensures r.Ok? ==> StagingInv(r.value, shared') && Matches(r.value, spec') && m.Keys <= r.value.Keys
      ensures r.Ok? ==> forall k :: k in old(bundles) && k !in r.value ==> k in bundles && bundles[k] == old(bundles)[k]
      ensures r.Ok? ==> Fetch(view, spec, p.id.parentId).Ok?
      ensures r.Ok? ==> spec' == spec[p.id.parentId := AddProperty(Fetch(view, spec, p.id.parentId).value, p)]
      ensures bundles.Keys <= old(bundles).Keys + {p.id.parentId}
      ensures r.Err? ==>
        || (r.error == StorageFailure(p.id.parentId) && p.id.parentId in faulty)
        || Fetch(view, spec, p.id.parentId) == Err(r.error)
    {
      var f := GetStagedBundle(m, shared, p.id.parentId, view, spec);
      if f.Err? {
        return Err(f.error), shared, spec;
      }
      ghost var b := Fetch(view, spec, p.id.parentId).value;
      PersistedAddProperty(f.value, b, p);
      spec' := spec[p.id.parentId := AddProperty(b, p)];
      var staged;
      staged, shared' := Restage(m, shared, AddProperty(f.value, p));
      r := Ok(staged);
    }

    /** bundle.removeProperty(name) on the parent's staged bundle (phase 4). */
    method StagePropertyRemove(m: Staging, shared: set<NodeId>, id: PropertyId, ghost view: Records, ghost spec: Staging)
      returns (r: Result<Staging>, shared': set<NodeId>, ghost spec': Staging)
      requires StagingInv(m, shared) && records == view && Matches(m, spec)
      modifies this`bundles, this`loads
      ensures RecordsNormal()
      ensures old(bundles).Keys <= bundles.Keys && (bundles.Keys - old(bundles).Keys) !! m.Keys
      ensures r.Ok? ==> StagingInv(r.value, shared') && Matches(r.value, spec') && m.Keys <= r.value.Keys
      ensures r.Ok? ==> forall k :: k in old(bundles) && k !in r.value ==> k in bundles && bundles[k] == old(bundles)[k]
      ensures r.Ok? ==> Fetch(view, spec, id.parentId).Ok?
      ensures r.Ok? ==> spec' == spec[id.parentId := RemoveProperty(Fetch(view, spec, id.parentId).value, id.name)]
      ensures bundles.Keys <= old(bundles).Keys + {id.parentId}
      ensures r.Err? ==>
        || (r.error == StorageFailure(id.parentId) && id.parentId in faulty)
        || Fetch(view, spec, id.parentId) == Err(r.error)
    {
      var f := GetStagedBundle(m, shared, id.parentId, view, spec);
      if f.Err? {
        return Err(f.error), shared, spec;
      }
      ghost var b := Fetch(view, spec, id.parentId).value;
      PersistedRemoveProperty(f.value, b, id.name);
      spec' := spec[id.parentId := RemoveProperty(b, id.name)];
      var staged;
      staged, shared' := Restage(m, shared, RemoveProperty(f.value, id.name));
      r := Ok(staged);
    }

    /** One item state of phase 3, 4 or 5 of storeInternal. Phase 3: a modified node
        updates its bundle's header, and a modified property, unless it is one of the
        identity properties, is added to its parent's bundle. Phase 4: a deleted property
        leaves its parent's bundle, unless the parent itself was deleted in phase 1.
        Phase 5: an added property, unless it is an identity property, is added to its
        parent's bundle. */
    method StageState(phase: Phase, s: ItemState, m: Staging, shared: set<NodeId>, ghost spec: Staging)
      returns (r: Result<Staging>, shared': set<NodeId>, ghost spec': Staging)
      requires !phase.AddNodes? && records == phase.view
      requires StagingInv(m, shared) && Matches(m, spec)
      modifies this`bundles, this`loads
      ensures RecordsNormal()
      ensures old(bundles).Keys <= bundles.Keys && (bundles.Keys - old(bundles).Keys) !! m.Keys
      ensures r.Ok? ==> StagingInv(r.value, shared') && Matches(r.value, spec') && m.Keys <= r.value.Keys
      ensures r.Ok? ==> forall k :: k in old(bundles) && k !in r.value ==> k in bundles && bundles[k] == old(bundles)[k]
      ensures r.Ok? ==> Step(phase, spec, s) == Ok(spec')
      ensures bundles.Keys <= old(bundles).Keys + {BundleId(s)}
      ensures r.Err? ==>
        || (r.error == StorageFailure(BundleId(s)) && BundleId(s) in faulty)
        || Step(phase, spec, s) == Err(r.error)
    {
      r, shared', spec' := Ok(m), shared, spec;
      match s
      case NodeItem(n) =>
        if phase.ApplyModified? {
          r, shared', spec' := StageNodeUpdate(m, shared, n, phase.view, spec);
        }
      case PropItem(p) =>
        if phase.RemoveProperties? {
          if p.id.parentId !in phase.deleted {
            r, shared', spec' := StagePropertyRemove(m, shared, p.id, phase.view, spec);
          }
        } else if !IsIdentityName(p.id.name) {
          r, shared', spec' := StagePropertyAdd(m, shared, p, phase.view, spec);
        }
    }

    /** One turn of StageStates: stage states[i] on top of the prefix already staged. */
    method StageAt(phase: Phase, states: seq<ItemState>, i: nat, m: Staging, shared: set<NodeId>, ghost start: Staging, ghost spec: Staging)
      returns (r: Result<Staging>, shared': set<NodeId>, ghost spec': Staging)
      requires i < |states| && !phase.AddNodes? && records == phase.view
      requires StagingInv(m, shared) && Matches(m, spec) && Stage(phase, states[..i], start) == Ok(spec)
      modifies this`bundles, this`loads
      ensures RecordsNormal()
      ensures old(bundles).Keys <= bundles.Keys && (bundles.Keys - old(bundles).Keys) !! m.Keys
      ensures r.Ok? ==> StagingInv(r.value, shared') && Matches(r.value, spec') && m.Keys <= r.value.Keys
      ensures r.Ok? ==> forall k :: k in old(bundles) && k !in r.value ==> k in bundles && bundles[k] == old(bundles)[k]
      ensures r.Ok? ==> Stage(phase, states[..i + 1], start) == Ok(spec')
      ensures bundles.Keys <= old(bundles).Keys + {BundleId(states[i])}
      ensures r.Err? ==>
        || (r.error == StorageFailure(BundleId(states[i])) && BundleId(states[i]) in faulty)
        || Stage(phase, states, start) == Err(r.error)
    {
      StageNext(phase, states, i, start);
      r, shared', spec' := StageState(phase, states[i], m, shared, spec);
      if r.Err? && Step(phase, spec, states[i]).Err? {
        StageErrSticky(phase, states, i + 1, start);
      }
    }

    /** The loop of one staging phase over the change log's states, stopping at the first
        failure. */
    method StageStates(phase: Phase, states: seq<ItemState>, modified: Staging, shared: set<NodeId>, ghost spec: Staging)
      returns (r: Result<Staging>, shared': set<NodeId>, ghost spec': Staging)
      requires !phase.AddNodes? && records == phase.view
      requires StagingInv(modified, shared) && Matches(modified, spec)
      modifies this`bundles, this`loads
      ensures RecordsNormal()
      ensures old(bundles).Keys <= bundles.Keys && (bundles.Keys - old(bundles).Keys) !! modified.Keys
      ensures r.Ok? ==> StagingInv(r.value, shared') && Matches(r.value, spec') && modified.Keys <= r.value.Keys
      ensures r.Ok? ==> forall k :: k in old(bundles) && k !in r.value ==> k in bundles && bundles[k] == old(bundles)[k]
      ensures r.Ok? ==> Stage(phase, states, spec) == Ok(spec')
      ensures bundles.Keys <= old(bundles).Keys + BundleIds(states)
      ensures r.Err? ==>
        || (r.error.StorageFailure? && r.error.failed in faulty * BundleIds(states))
        || Stage(phase, states, spec) == Err(r.error)
    {
      var m := modified;
      shared' := shared;
      spec' := spec;
      for i := 0 to |states|
        invariant records == phase.view
        invariant StagingInv(m, shared') && Matches(m, spec') && modified.Keys <= m.Keys
        invariant old(bundles).Keys <= bundles.Keys && (bundles.Keys - old(bundles).Keys) !! modified.Keys
        invariant Stage(phase, states[..i], spec) == Ok(spec')
        invariant forall k :: k in old(bundles) && k !in m ==> k in bundles && bundles[k] == old(bundles)[k]
        invariant bundles.Keys <= old(bundles).Keys + BundleIds(states[..i])
      {
        BundleIdsNext(states, i);
        var step;
        step, shared', spec' := StageAt(phase, states, i, m, shared', spec, spec');
        if step.Err? {
          return Err(step.error), shared', spec';
        }
        m := step.value;
      }
      assert states[..|states|] == states;
      r := Ok(m);
    }

    /** Phase 6: putBundle for every staged bundle, in no particular order. */
    method WriteBackBundles(modified: Staging, shared: set<NodeId>) returns (r: Outcome)
      requires StagingInv(modified, shared)
      modifies this`bundles, this`records
      ensures RecordsNormal()
      ensures bundles.Keys == old(bundles).Keys
      ensures r.Pass? ==> Valid() && records == WriteBack(old(records), modified)
      ensures forall k :: k in old(bundles) && k !in modified ==> k in bundles && bundles[k] == old(bundles)[k]
      ensures r.Fail? ==> r.error.StorageFailure? && r.error.failed in faulty * modified.Keys
    {
      var todo := modified.Keys;
      assert shared * todo == shared;
      WriteBackNothing(old(records), modified);
      while todo != {}
        invariant todo <= modified.Keys
        invariant StagingInv(modified, shared * todo)
        invariant records == WriteBack(old(records), modified - todo)
        invariant bundles.Keys == old(bundles).Keys
        invariant forall k :: k in old(bundles) && k !in modified ==> k in bundles && bundles[k] == old(bundles)[k]
        decreases todo
      {
        var id :| id in todo;
        assert modified[id].id == id;
        WriteBackNext(old(records), modified, todo, id);
        CacheInvPut(bundles, records, modified, shared * todo, id, sizeOf(MarkOld(modified[id])));
        r := PutBundle(modified[id]);
        if r.Fail? {
          return;
        }
        assert shared * (todo - {id}) == shared * todo - {id};
        todo := todo - {id};
      }
      assert modified - todo == modified;
      r := Pass;
    }

    /** Phase 7: a reference list with referrers is stored, one without is destroyed. */
    method StoreReferenceLists(list: seq<NodeReferences>) returns (r: Outcome)
      modifies this`refs
      ensures r.Pass? ==> refs == ApplyRefs(old(refs), list)
      ensures r.Fail? ==> r.error.StorageFailure? && r.error.failed in faulty * RefTargets(list)
    {
      for i := 0 to |list|
        invariant refs == ApplyRefs(old(refs), list[..i])
      {
        ApplyRefsNext(old(refs), list, i);
        if list[i].HasReferences() {
          r := StoreReferences(list[i]);
        } else {
          r := DestroyReferences(list[i]);
        }
        if r.Fail? {
          return;
        }
      }
      assert list[..|list|] == list;
      r := Pass;
    }
  }
}
