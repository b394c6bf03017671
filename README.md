# Bundle persistence manager: a Dafny model

This project models the core of Jackrabbit's `AbstractBundlePersistenceManager`. That core is the
part of the repository that keeps each node, together with all of its properties, as one *bundle*
record in a storage backend. The model has three parts.

* **Fan-out paths** (module `Paths`). The node folder is the node id's text with its dashes dropped
  and a separator before the 3rd and the 5th remaining character. The node, references, property
  and blob file paths append fixed suffixes to it. Each `build*Path` method appends to a caller's
  buffer and is proved equal to a specification function. Lemmas prove the shape of the folder path
  for canonical 8-4-4-4-12 hex ids. They also prove that distinct canonical ids get distinct folder,
  node file and references file paths. With injective string indexes, distinct properties get
  distinct property file paths and distinct value indexes get distinct blob file paths.
* **The bundle cache** (module `Manager`, class `BundlePersistenceManager`). The cache maps a node id
  to a loaded bundle or to the `MISSING` sentinel, charged 16. `getBundle`, `deleteBundle`,
  `putBundle`, `evictBundle` and `onExternalUpdate` update it. The reads `load`, `exists` and the
  synthesized identity properties go through it. The backend is a pair of maps inside the class. A
  set `faulty` of ids makes the backend calls for those ids fail, as an I/O error would. A ghost
  counter `loads` counts `loadBundle` calls.
* **The change-log applicator** (`store` / `storeInternal`). It runs in seven phases:
  1. delete the deleted nodes' bundles;
  2. create bundles for the added nodes;
  3. apply the modified states;
  4. remove the deleted properties;
  5. add the added properties;
  6. write every staged bundle back;
  7. store or destroy the reference lists.

  Module `ApplySpec` states these phases as a pure function `Apply` from a backend and a change log
  to the new backend or the error. Lemmas prove what `Apply` guarantees. The imperative
  `StoreInternal` is proved to compute exactly `Apply` whenever the backend does not fail.

A bundle is a value (`Bundles.Bundle`). The backend keeps a bundle's *persisted form*
(`Bundles.Persisted`): the bundle without the `jcr:uuid`, `jcr:primaryType` and `jcr:mixinTypes`
records, which are rebuilt from the header, and without the new/old flag. In the Java code the
bundle staged by `storeInternal` is the very object the cache holds, so changing it changes the
cache. The model makes this aliasing explicit: `StoreInternal` tracks the set `shared` of staged ids
that came from the cache, and every change to such a bundle is written into its cache entry too.
This is why the cache stops agreeing with the backend when a store fails part-way, and why `Store`
must clear it. The class invariant `Valid()` says that every cache entry agrees with the backend. A
`MISSING` entry means there is no record. A loaded bundle means it persists as the stored record.
Every public operation keeps this invariant, `Store` included, thanks to the clearing. While
`storeInternal` stages bundles, the weaker `Manager.CacheInv` holds instead: the entry of a shared id
holds the staged bundle, and every other entry agrees with the backend. `Valid()` is `CacheInv` with
nothing staged.

When `load(PropertyId)` synthesizes a jcr:uuid, jcr:primaryType or jcr:mixinTypes state, it also
registers that state in the cached bundle with `addProperty`. The record never reaches the backend,
because the persisted form drops these three names. It does stay in the cached bundle, and a later
`load` answers it as it is. `update` takes over a modified node's header but keeps the records, so
the registered jcr:mixinTypes state outlives a change of the node's mixins
(`RegisteredMixinTypesOutliveUpdate`). The model keeps this behaviour as written. `NodePropBundle`
is not part of this model, so whether its `update` refreshes such records cannot be settled here.

## Model

| member | source | states |
|---|---|---|
| Paths.BuildNodeFolderPath | jackrabbit-core/src/main/java/org/apache/jackrabbit/core/persistence/pool/AbstractBundlePersistenceManager.java:143-161 | the loop with its counter appends exactly `FolderPath(id)` to the buffer, whose old content stays in front |
| Paths.FolderPathSeparators | jackrabbit-core/src/main/java/org/apache/jackrabbit/core/persistence/pool/AbstractBundlePersistenceManager.java:149-158 | removing the separators from the folder path gives back the id text without dashes, and separators sit exactly before the 3rd and 5th kept character |
| Paths.FolderPathShape | jackrabbit-core/src/main/java/org/apache/jackrabbit/core/persistence/pool/AbstractBundlePersistenceManager.java:143-161 | for a canonical id the folder is 34 characters: separators at offsets 2 and 5, hex digits everywhere else |
| Paths.FolderPathInjective | jackrabbit-core/src/main/java/org/apache/jackrabbit/core/persistence/pool/AbstractBundlePersistenceManager.java:143-161 | distinct canonical ids get distinct folders |
| Paths.NodeFilePathInjective | jackrabbit-core/src/main/java/org/apache/jackrabbit/core/persistence/pool/AbstractBundlePersistenceManager.java:211-219 | distinct canonical ids get distinct node file paths |
| Paths.NodeReferencesFilePathInjective | jackrabbit-core/src/main/java/org/apache/jackrabbit/core/persistence/pool/AbstractBundlePersistenceManager.java:229-238 | distinct canonical ids get distinct references file paths |
| Paths.BuildNodeFilePath | jackrabbit-core/src/main/java/org/apache/jackrabbit/core/persistence/pool/AbstractBundlePersistenceManager.java:211-219 | appends the folder, a separator and `n` |
| Paths.BuildNodeReferencesFilePath | jackrabbit-core/src/main/java/org/apache/jackrabbit/core/persistence/pool/AbstractBundlePersistenceManager.java:229-238 | appends the folder, a separator and `r` |
| Paths.NodeAndReferencesFilesDiffer | jackrabbit-core/src/main/java/org/apache/jackrabbit/core/persistence/pool/AbstractBundlePersistenceManager.java:86-90 | no node file path equals a references file path |
| Paths.BuildPropFilePath | jackrabbit-core/src/main/java/org/apache/jackrabbit/core/persistence/pool/AbstractBundlePersistenceManager.java:171-181 | appends the owner's folder, a separator, and the interned namespace and local name joined by a dot |
| Paths.BuildBlobFilePath | jackrabbit-core/src/main/java/org/apache/jackrabbit/core/persistence/pool/AbstractBundlePersistenceManager.java:192-201 | the result is the buffer, then the property file path, `.` and the value index in decimal (sign included); the buffer prefix is unchanged |
| Paths.ParseNatText | jackrabbit-core/src/main/java/org/apache/jackrabbit/core/persistence/pool/AbstractBundlePersistenceManager.java:177-179 | the decimal text of an index parses back to the index |
| Paths.PropFilePathInjective | jackrabbit-core/src/main/java/org/apache/jackrabbit/core/persistence/pool/AbstractBundlePersistenceManager.java:171-181 | with injective string indexes, distinct properties of canonical nodes get distinct files |
| Paths.BlobFilePathInjective | jackrabbit-core/src/main/java/org/apache/jackrabbit/core/persistence/pool/AbstractBundlePersistenceManager.java:192-201 | each value index of each property gets its own blob file |
| Bundles.Persisted | jackrabbit-core/src/main/java/org/apache/jackrabbit/core/persistence/pool/AbstractBundlePersistenceManager.java:65-67 | the stored form keeps the id and the header (parent, node type, mixins, child entries) and is not new; it answers `None` for jcr:uuid, jcr:primaryType and jcr:mixinTypes and answers every other name as the bundle does |
| Bundles.Update | jackrabbit-core/src/main/java/org/apache/jackrabbit/core/persistence/pool/AbstractBundlePersistenceManager.java:536 | `update` takes over the node state's header and keeps the id, the new flag and every property record |
| Bundles.AddProperty | jackrabbit-core/src/main/java/org/apache/jackrabbit/core/persistence/pool/AbstractBundlePersistenceManager.java:554 | `addProperty` gives the property's name the state's record, leaves every other name, the header, the id and the new flag as they were |
| Bundles.RemoveProperty | jackrabbit-core/src/main/java/org/apache/jackrabbit/core/persistence/pool/AbstractBundlePersistenceManager.java:579 | `removeProperty` leaves no record under the name, and leaves every other name, the header, the id and the new flag as they were |
| Bundles.PersistedAddIdentity | jackrabbit-core/src/main/java/org/apache/jackrabbit/core/persistence/pool/AbstractBundlePersistenceManager.java:435 | registering a synthesized identity property in a cached bundle does not change what is persisted |
| Bundles.PersistedUpdate | jackrabbit-core/src/main/java/org/apache/jackrabbit/core/persistence/pool/AbstractBundlePersistenceManager.java:536 | `update` on two bundles with the same persisted form yields bundles with the same persisted form |
| Bundles.PersistedAddProperty | jackrabbit-core/src/main/java/org/apache/jackrabbit/core/persistence/pool/AbstractBundlePersistenceManager.java:554 | the same for `addProperty` |
| Bundles.PersistedRemoveProperty | jackrabbit-core/src/main/java/org/apache/jackrabbit/core/persistence/pool/AbstractBundlePersistenceManager.java:579 | the same for `removeProperty` |
| Bundles.CreatePropertyState | jackrabbit-core/src/main/java/org/apache/jackrabbit/core/persistence/pool/AbstractBundlePersistenceManager.java:413 | a state exists exactly when the bundle holds a record of that name, and it carries that record |
| Bundles.CreateNodeState | jackrabbit-core/src/main/java/org/apache/jackrabbit/core/persistence/pool/AbstractBundlePersistenceManager.java:400 | the node state carries the bundle's header: updating the bundle with it changes nothing |
| ApplySpec.BundleId | jackrabbit-core/src/main/java/org/apache/jackrabbit/core/persistence/pool/AbstractBundlePersistenceManager.java:301-307 | a node state's bundle is its own id, a property state's bundle is its parent's id |
| ApplySpec.BundleIds | jackrabbit-core/src/main/java/org/apache/jackrabbit/core/persistence/pool/AbstractBundlePersistenceManager.java:288-298 | the set of bundle ids of a list of states holds the bundle id of every state and nothing else |
| ApplySpec.DeleteNodes | jackrabbit-core/src/main/java/org/apache/jackrabbit/core/persistence/pool/AbstractBundlePersistenceManager.java:504-515 | phase 1 on values: on success the deleted ids were stored and their records are removed, nothing else; a failure is the NoSuchItemState of a deleted node state |
| ApplySpec.Step | jackrabbit-core/src/main/java/org/apache/jackrabbit/core/persistence/pool/AbstractBundlePersistenceManager.java:524-606 | one state of a staging phase never drops a staged bundle; a failure happens only in a fetching phase, and is the NoSuchItemState of the state's bundle id |
| ApplySpec.Stage | jackrabbit-core/src/main/java/org/apache/jackrabbit/core/persistence/pool/AbstractBundlePersistenceManager.java:524-606 | a staging phase over a list fails only with the NoSuchItemState of the bundle id of one of its states |
| ApplySpec.WriteBack | jackrabbit-core/src/main/java/org/apache/jackrabbit/core/persistence/pool/AbstractBundlePersistenceManager.java:608-611 | every staged bundle replaces its record in persisted form; every other record is kept; no record is dropped |
| ApplySpec.ApplyRefs | jackrabbit-core/src/main/java/org/apache/jackrabbit/core/persistence/pool/AbstractBundlePersistenceManager.java:613-620 | a reference list that was not stored before is stored only if some list of the log for that target has referrers and is exactly that list |
| ApplySpec.Apply | jackrabbit-core/src/main/java/org/apache/jackrabbit/core/persistence/pool/AbstractBundlePersistenceManager.java:502-621 | a failed store is a NoSuchItemState for a node id that the change log touches |
| ApplySpec.DeleteNodesOutcome | jackrabbit-core/src/main/java/org/apache/jackrabbit/core/persistence/pool/AbstractBundlePersistenceManager.java:504-515 | node deletion fails with NoSuchItemState exactly when some deleted node has no record or is deleted twice; otherwise the deleted set is exactly the deleted node ids and their records are gone |
| ApplySpec.AddNodesOutcome | jackrabbit-core/src/main/java/org/apache/jackrabbit/core/persistence/pool/AbstractBundlePersistenceManager.java:516-523 | gathering the added nodes never fails and stages exactly the added node ids |
| ApplySpec.StageErrSticky | jackrabbit-core/src/main/java/org/apache/jackrabbit/core/persistence/pool/AbstractBundlePersistenceManager.java:529-533 | once a staging phase meets a missing bundle, the phase fails with that NoSuchItemState |
| ApplySpec.StageKeys | jackrabbit-core/src/main/java/org/apache/jackrabbit/core/persistence/pool/AbstractBundlePersistenceManager.java:524-606 | a fetching phase stages only bundles already staged, or stored bundles of the states it visits |
| ApplySpec.StageGrows | jackrabbit-core/src/main/java/org/apache/jackrabbit/core/persistence/pool/AbstractBundlePersistenceManager.java:524-606 | a staging phase never drops a staged bundle |
| ApplySpec.StageClean | jackrabbit-core/src/main/java/org/apache/jackrabbit/core/persistence/pool/AbstractBundlePersistenceManager.java:538-544 | staged bundles never gain a jcr:primaryType, jcr:mixinTypes or jcr:uuid record: those states are skipped |
| ApplySpec.StagedWithinTouched | jackrabbit-core/src/main/java/org/apache/jackrabbit/core/persistence/pool/AbstractBundlePersistenceManager.java:516-606 | every bundle `Apply` stages belongs to a state of the log: its id is among the bundle ids of the modified, deleted and added states |
| ApplySpec.StagedKeys | jackrabbit-core/src/main/java/org/apache/jackrabbit/core/persistence/pool/AbstractBundlePersistenceManager.java:516-606 | the bundles written back are among the added nodes plus the stored bundles the log touches (a stored node touched only by a skipped identity property state is not written back) |
| ApplySpec.ApplyRefsFrame | jackrabbit-core/src/main/java/org/apache/jackrabbit/core/persistence/pool/AbstractBundlePersistenceManager.java:613-620 | a target named by no reference list keeps its stored list |
| ApplySpec.ApplyRefsLast | jackrabbit-core/src/main/java/org/apache/jackrabbit/core/persistence/pool/AbstractBundlePersistenceManager.java:613-620 | the last list given for a target decides: stored if it has referrers, destroyed if not |
| ApplySpec.ApplyStoresAdded | jackrabbit-core/src/main/java/org/apache/jackrabbit/core/persistence/pool/AbstractBundlePersistenceManager.java:516-611 | after a successful store every added node has a record |
| ApplySpec.ApplyDeletes | jackrabbit-core/src/main/java/org/apache/jackrabbit/core/persistence/pool/AbstractBundlePersistenceManager.java:504-611 | after a successful store a deleted node that was not added again has no record |
| ApplySpec.ApplyFrame | jackrabbit-core/src/main/java/org/apache/jackrabbit/core/persistence/pool/AbstractBundlePersistenceManager.java:502-621 | a bundle the log does not touch keeps its record unchanged; a target named by no reference list of the log keeps its stored list |
| ApplySpec.ApplyStagesNoIdentity | jackrabbit-core/src/main/java/org/apache/jackrabbit/core/persistence/pool/AbstractBundlePersistenceManager.java:538-544 | records without identity properties stay without them |
| ApplySpec.DeletedNotStaged | jackrabbit-core/src/main/java/org/apache/jackrabbit/core/persistence/pool/AbstractBundlePersistenceManager.java:504-606 | phase 1 deletes exactly the deleted node ids, and none of those ids that the log does not add again is staged for write-back |
| ApplySpec.StageProp | jackrabbit-core/src/main/java/org/apache/jackrabbit/core/persistence/pool/AbstractBundlePersistenceManager.java:524-606 | after a staging phase, a property record is the effect of the last state of the phase that touches it, over the record before the phase |
| ApplySpec.StageHeader | jackrabbit-core/src/main/java/org/apache/jackrabbit/core/persistence/pool/AbstractBundlePersistenceManager.java:524-606 | after a staging phase, a bundle's header is the one of the last node state of the phase for that id, or the header before the phase |
| ApplySpec.ApplyProp | jackrabbit-core/src/main/java/org/apache/jackrabbit/core/persistence/pool/AbstractBundlePersistenceManager.java:502-621 | after a successful store, any record other than the identity ones is the effect of the last state of phases 2 to 5 that touches it, over the record that survived phase 1 |
| ApplySpec.ApplyHeader | jackrabbit-core/src/main/java/org/apache/jackrabbit/core/persistence/pool/AbstractBundlePersistenceManager.java:502-621 | after a successful store, a bundle's header is that of the last added or modified node state for it, else the header that survived phase 1 |
| ApplySpec.ApplyAddedProperty | jackrabbit-core/src/main/java/org/apache/jackrabbit/core/persistence/pool/AbstractBundlePersistenceManager.java:583-606 | an added property other than the identity ones that no later added state replaces is stored exactly as given, under its parent |
| ApplySpec.ApplyModifiedProperty | jackrabbit-core/src/main/java/org/apache/jackrabbit/core/persistence/pool/AbstractBundlePersistenceManager.java:524-556 | a modified property other than the identity ones, not replaced later and neither deleted nor added by the log, is stored exactly as modified |
| ApplySpec.ApplyRemovedProperty | jackrabbit-core/src/main/java/org/apache/jackrabbit/core/persistence/pool/AbstractBundlePersistenceManager.java:557-582 | a deleted property other than the identity ones, of a parent the log does not delete, has no record afterwards unless the log adds it again |
| ApplySpec.ApplyModifiedNode | jackrabbit-core/src/main/java/org/apache/jackrabbit/core/persistence/pool/AbstractBundlePersistenceManager.java:525-536 | the last modified node state for an id gives the stored bundle its parent, node type, mixins and child entries |
| ApplySpec.ApplyAddedNode | jackrabbit-core/src/main/java/org/apache/jackrabbit/core/persistence/pool/AbstractBundlePersistenceManager.java:516-523 | the last added node state for an id that the log does not modify gives the stored bundle its header |
| Manager.IdentityProperty | jackrabbit-core/src/main/java/org/apache/jackrabbit/core/persistence/pool/AbstractBundlePersistenceManager.java:416-434 | a state is synthesized exactly for the three identity names, with the requested id: jcr:uuid is one STRING value, the owner's id text; jcr:primaryType is one NAME value, the header's node type; jcr:mixinTypes is multi-valued, with one NAME value per mixin of the header, in the header's order |
| Manager.RegisteredMixinTypesOutliveUpdate | jackrabbit-core/src/main/java/org/apache/jackrabbit/core/persistence/pool/AbstractBundlePersistenceManager.java:536 | a jcr:mixinTypes state registered in a cached bundle survives `update`, which changes the header's mixins but not the records, and remains what the bundle answers for jcr:mixinTypes |
| Manager.GatherAddedNodes | jackrabbit-core/src/main/java/org/apache/jackrabbit/core/persistence/pool/AbstractBundlePersistenceManager.java:516-523 | the loop computes phase 2 of `Apply`: one new bundle per added node, keyed by its id |
| Manager.BundlePersistenceManager.constructor | jackrabbit-core/src/main/java/org/apache/jackrabbit/core/persistence/pool/AbstractBundlePersistenceManager.java:373-378 | starts with an empty cache over the given backend |
| Manager.BundlePersistenceManager.Close | jackrabbit-core/src/main/java/org/apache/jackrabbit/core/persistence/pool/AbstractBundlePersistenceManager.java:385-388 | empties the cache |
| Manager.BundlePersistenceManager.LoadBundle | jackrabbit-core/src/main/java/org/apache/jackrabbit/core/persistence/pool/AbstractBundlePersistenceManager.java:311-320 | the backend's stored bundle for the id, none when there is no record, or a failure for a faulty id; counts one load |
| Manager.BundlePersistenceManager.StoreBundle | jackrabbit-core/src/main/java/org/apache/jackrabbit/core/persistence/pool/AbstractBundlePersistenceManager.java:322-329 | the record becomes the bundle's persisted form, or a failure for a faulty id that changes nothing |
| Manager.BundlePersistenceManager.DestroyBundle | jackrabbit-core/src/main/java/org/apache/jackrabbit/core/persistence/pool/AbstractBundlePersistenceManager.java:331-339 | the record is removed, or a failure for a faulty id that changes nothing |
| Manager.BundlePersistenceManager.DestroyReferences | jackrabbit-core/src/main/java/org/apache/jackrabbit/core/persistence/pool/AbstractBundlePersistenceManager.java:341-348 | the target's reference list is removed, or a failure for a faulty target that changes nothing |
| Manager.BundlePersistenceManager.StoreReferences | jackrabbit-core/src/main/java/org/apache/jackrabbit/core/persistence/pool/AbstractBundlePersistenceManager.java:350-357 | the target's reference list becomes the given one, or a failure for a faulty target that changes nothing |
| Manager.BundlePersistenceManager.GetBundle | jackrabbit-core/src/main/java/org/apache/jackrabbit/core/persistence/pool/AbstractBundlePersistenceManager.java:633-647 | MISSING answers "none" with no backend call; a cached bundle is returned as is; otherwise one `loadBundle` call: a hit is marked old and cached with its size, a miss caches MISSING charged 16, and a backend error caches nothing. Read through an entry that agrees with the backend, the answer is what the backend holds |
| Manager.BundlePersistenceManager.DeleteBundle | jackrabbit-core/src/main/java/org/apache/jackrabbit/core/persistence/pool/AbstractBundlePersistenceManager.java:655-659 | destroys the record, then caches MISSING charged 16; on a backend error nothing changes |
| Manager.BundlePersistenceManager.PutBundle | jackrabbit-core/src/main/java/org/apache/jackrabbit/core/persistence/pool/AbstractBundlePersistenceManager.java:667-677 | stores the persisted form; overwrites the cache entry with the bundle marked old only when the id was already cached, and never adds an entry |
| Manager.BundlePersistenceManager.EvictBundle | jackrabbit-core/src/main/java/org/apache/jackrabbit/core/persistence/pool/AbstractBundlePersistenceManager.java:692-694 | removes exactly that id's entry |
| Manager.BundlePersistenceManager.OnExternalUpdate | jackrabbit-core/src/main/java/org/apache/jackrabbit/core/persistence/pool/AbstractBundlePersistenceManager.java:288-307 | the new cache is the old one minus the bundle ids of all modified, deleted and added states (a property maps to its parent); nothing else changes. The records may have been changed by another cluster node, so only the entries of ids outside those touched by the external log need agree with them beforehand; afterwards the whole cache agrees again |
| Manager.BundlePersistenceManager.EvictStates | jackrabbit-core/src/main/java/org/apache/jackrabbit/core/persistence/pool/AbstractBundlePersistenceManager.java:289-298 | one eviction loop removes from the cache the bundle ids of all states in the list, and nothing else |
| Manager.BundlePersistenceManager.Load | jackrabbit-core/src/main/java/org/apache/jackrabbit/core/persistence/pool/AbstractBundlePersistenceManager.java:395-401 | returns the stored node's state; NoSuchItemState exactly when there is no record (backend working); a cached id, MISSING included, is answered with no backend load and no cache change; no other cache entry changes |
| Manager.BundlePersistenceManager.LoadProperty | jackrabbit-core/src/main/java/org/apache/jackrabbit/core/persistence/pool/AbstractBundlePersistenceManager.java:408-438 | for an ordinary name, succeeds exactly when the stored bundle has the record, and returns it; the three identity names always succeed on an existing node, with the state synthesized from the stored header when the cached bundle has no record of that name; a record the cached bundle already holds, a registered identity state included, is answered as that record; NoSuchItemState otherwise; a successful answer leaves the record registered in the cached bundle; a cached owner is answered with no backend load; the backend and every other cache entry are unchanged |
| Manager.BundlePersistenceManager.ExistsNode | jackrabbit-core/src/main/java/org/apache/jackrabbit/core/persistence/pool/AbstractBundlePersistenceManager.java:455-458 | answers whether the node has a record, and caches the answer; a cached id, MISSING included, is answered with no backend load and no cache change; no other cache entry changes |
| Manager.BundlePersistenceManager.ExistsProperty | jackrabbit-core/src/main/java/org/apache/jackrabbit/core/persistence/pool/AbstractBundlePersistenceManager.java:445-448 | for an ordinary name, answers whether the owner has a record holding that property; true implies the owner exists; a cached owner is answered with no backend load and no cache change; no other cache entry changes |
| Manager.BundlePersistenceManager.Store | jackrabbit-core/src/main/java/org/apache/jackrabbit/core/persistence/pool/AbstractBundlePersistenceManager.java:483-494 | on failure the cache is empty; on success no entry was dropped, the backend is `Apply` of the log, an added node that was neither cached nor deleted stays uncached, and every deleted node that was not added again is cached as MISSING charged 16; on success an id the log does not touch keeps its entry, or stays uncached; a failure is a backend error on an id the log touches or a reference target it names, or exactly `Apply`'s NoSuchItemState; the cache agrees with the backend either way |
| Manager.BundlePersistenceManager.StoreInternal | jackrabbit-core/src/main/java/org/apache/jackrabbit/core/persistence/pool/AbstractBundlePersistenceManager.java:502-621 | success means the backend is exactly `Apply` of the log and every deleted node that was not added again is cached as MISSING charged 16; an id the log does not touch keeps its entry, or stays uncached; failure is a backend error on an id the log touches or a reference target it names, or exactly `Apply`'s NoSuchItemState |
| Manager.BundlePersistenceManager.WriteChanges | jackrabbit-core/src/main/java/org/apache/jackrabbit/core/persistence/pool/AbstractBundlePersistenceManager.java:516-620 | phases 2 to 7 after the deletions: success means the records are the write-back of what `Apply` stages and the reference lists are `ApplyRefs` of the log; only the entries of staged ids change, and the cache gains only ids the log touches; failure is a backend error on such an id or a reference target, or exactly the NoSuchItemState of staging |
| Manager.BundlePersistenceManager.DeleteNodeStates | jackrabbit-core/src/main/java/org/apache/jackrabbit/core/persistence/pool/AbstractBundlePersistenceManager.java:504-515 | the loop deletes as phase 1 of `Apply` does and returns its deleted set; each deleted id is cached as MISSING charged 16, the cache gains no other id, and every entry of an id it does not delete keeps its value; a failure is a backend error on one of the deleted ids |
| Manager.BundlePersistenceManager.StageChanges | jackrabbit-core/src/main/java/org/apache/jackrabbit/core/persistence/pool/AbstractBundlePersistenceManager.java:516-606 | phases 2 to 5 end in bundles whose persisted forms are what `Apply` stages, or in a backend failure or exactly `Apply`'s NoSuchItemState; cached ids not staged keep their entries, no added node gains one, and every id the cache gains is one the log touches; a backend failure is on such an id |
| Manager.BundlePersistenceManager.GetStagedBundle | jackrabbit-core/src/main/java/org/apache/jackrabbit/core/persistence/pool/AbstractBundlePersistenceManager.java:528-535 | the staged bundle if there is one, else the stored one fetched through the cache, up to persisted form; a missing bundle is exactly the NoSuchItemState of `Fetch`; only that id's cache entry may change |
| Manager.BundlePersistenceManager.Restage | jackrabbit-core/src/main/java/org/apache/jackrabbit/core/persistence/pool/AbstractBundlePersistenceManager.java:534 | the bundle is put in the staging map; the staging invariant holds again; only that id's cache entry may change, and no entry is added or removed |
| Manager.BundlePersistenceManager.StageNodeUpdate | jackrabbit-core/src/main/java/org/apache/jackrabbit/core/persistence/pool/AbstractBundlePersistenceManager.java:525-536 | a modified node updates the header of its fetched bundle, as `update` does on the specification's staging map |
| Manager.BundlePersistenceManager.StagePropertyAdd | jackrabbit-core/src/main/java/org/apache/jackrabbit/core/persistence/pool/AbstractBundlePersistenceManager.java:538-555 | a property is added to its fetched parent bundle, as `addProperty` does on the specification's staging map |
| Manager.BundlePersistenceManager.StagePropertyRemove | jackrabbit-core/src/main/java/org/apache/jackrabbit/core/persistence/pool/AbstractBundlePersistenceManager.java:565-580 | a deleted property is removed from its fetched parent bundle, as `removeProperty` does on the specification's staging map |
| Manager.BundlePersistenceManager.StageState | jackrabbit-core/src/main/java/org/apache/jackrabbit/core/persistence/pool/AbstractBundlePersistenceManager.java:524-606 | one change-log state is staged as the corresponding `Step` of `Apply` stages it, up to persisted form: a modified node updates its header, modified and added properties other than jcr:primaryType, jcr:mixinTypes and jcr:uuid are added to the parent, deleted properties of surviving parents are removed; a failure is a backend failure or exactly the NoSuchItemState of `Step` |
| Manager.BundlePersistenceManager.StageStates | jackrabbit-core/src/main/java/org/apache/jackrabbit/core/persistence/pool/AbstractBundlePersistenceManager.java:524-606 | a staging loop over a list of states ends in what `Stage` computes for that phase, or in its failure; the cache entries it adds are only for ids not yet staged and among the bundle ids of the list, and every cache entry of an id it did not stage is unchanged; a backend failure is on one of those bundle ids |
| Manager.BundlePersistenceManager.WriteBackBundles | jackrabbit-core/src/main/java/org/apache/jackrabbit/core/persistence/pool/AbstractBundlePersistenceManager.java:608-611 | puts every staged bundle, in any order: the records become the write-back of the staged map, no cache entry is added, the entries of ids not staged are unchanged, and the cache agrees with the backend again; a failure is on a staged id |
| Manager.BundlePersistenceManager.StoreReferenceLists | jackrabbit-core/src/main/java/org/apache/jackrabbit/core/persistence/pool/AbstractBundlePersistenceManager.java:613-620 | the loop stores each list that has referrers and destroys each empty one, in log order; a failure is on the target of one of the lists |

## Left out

- `ConcurrentCache` internals are left out: eviction by memory budget, the budget set in `init`, and thread safety. The cache is a plain map, and each entry records the weight it was charged with.
- `getBundleCacheSize` and `setBundleCacheSize` (configuration parsing with `Long.parseLong`) are not modelled.
- The storage backend hooks (`loadBundle`, `storeBundle`, `destroyBundle`, and `store`/`destroy` of node references) are maps inside the class. A backend failure is injected through the constant set `faulty`, not through real I/O.
- `getNsIndex` and `getNameIndex` load string indexes from the file system. The indexes are parameters here: functions from string to a non-negative integer, assumed injective where a lemma needs it.
- `NodePropBundle` is not part of this model. Its serialization, its blob externalization, releasing blob values in `removeProperty`/`removeAllProperties` (the latter is called by `deleteBundle` on a bundle whose cache entry then becomes MISSING, so nothing else observes it), and `getSize` (a function parameter `sizeOf`) are left out. Its `update`, `addProperty`, `removeProperty`, `createNodeState`, `createPropertyState` and `hasProperty` are taken as the evident operations on a header plus a map of property records.
- `createNew` is folded into the synthesized property states. The `NodeState` and `PropertyState` status fields are not modelled.
- Logging, including the consistency warnings in phase 4, is left out, as is `checkConsistency`, which is empty.
- `synchronized` and concurrent callers are left out.
- `Manager.BundlePersistenceManager.ExistsProperty`: its contract says nothing exact about the three identity names. That answer depends on `NodePropBundle.hasProperty`, which is not part of this model.
- `Manager.BundlePersistenceManager.StoreInternal`: on failure it states only the error, not the partly written backend. The Java code is not atomic either: whatever was written before the failure stays written.
- `getMixinTypeNames()` returns a `Set` in Java. The model keeps the mixins as a sequence, so the order of the synthesized jcr:mixinTypes values is the header's sequence order, which Java does not fix.
- Java `int` and `long` widths are not modelled: the value index of a blob path is an unbounded integer.
