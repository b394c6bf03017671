/**
 * What applying a change log does to the stored bundles and reference lists
 * (AbstractBundlePersistenceManager.storeInternal), stated over values: the
 * backend is a map from node id to its persisted bundle, and the bundle cache is
 * left out because, while it agrees with the backend, it only answers from it.
 * Storage failures are not part of this description; the manager's methods are
 * proved to agree with it whenever the backend does not fail.
 */
module ApplySpec {
  import opened Ids
  import opened Bundles

  type Records = map<NodeId, Bundle>
  type RefRecords = map<NodeId, NodeReferences>
  type Staging = map<NodeId, Bundle>

  /** The durable state: bundle records and reference lists, both keyed by node id. */
  datatype Backend = Backend(records: Records, refs: RefRecords)

  /** getBundleId: a node state's own id, a property state's parent id. */
  function BundleId(s: ItemState): (r: NodeId)
    ensures s.IsNode() ==> NodeItemId(r) == s.Id()
    ensures !s.IsNode() ==> Some(r) == s.ParentId()
  {
    match s
    case NodeItem(n) => n.id
    case PropItem(p) => p.id.parentId
  }

  function BundleIds(states: seq<ItemState>): (ids: set<NodeId>)
    ensures forall i :: 0 <= i < |states| ==> BundleId(states[i]) in ids
    ensures forall n :: n in ids ==> exists i :: 0 <= i < |states| && BundleId(states[i]) == n
    decreases |states|
  {
    if states == [] then {}
    else BundleIds(states[..|states| - 1]) + {BundleId(states[|states| - 1])}
  }

  /** Every bundle a change log touches, whichever of its lists holds the state. */
  function TouchedIds(log: ChangeLog): set<NodeId> {
    BundleIds(log.modified) + BundleIds(log.deleted) + BundleIds(log.added)
  }

  lemma {:induction false} NodeIdsWithinBundleIds(states: seq<ItemState>)
    ensures NodeIds(states) <= BundleIds(states)
    decreases |states|
  {
    if states != [] {
      NodeIdsWithinBundleIds(states[..|states| - 1]);
    }
  }

  /** No node id occurs twice among the node states of a list. */
  ghost predicate NodeIdsDistinct(states: seq<ItemState>) {
    forall i, j :: 0 <= i < j < |states| && states[i].NodeItem? && states[j].NodeItem? ==>
      states[i].node.id != states[j].node.id
  }

  predicate Clean(m: map<NodeId, Bundle>) {
    forall k :: k in m ==> NoIdentityProperties(m[k])
  }

  // ------------------------------------------------------------------ phase 1: node deletions

  datatype Deletion = Deletion(deleted: set<NodeId>, records: Records)

  function DeleteStep(d: Deletion, s: ItemState): Result<Deletion> {
    match s
    case PropItem(_) => Ok(d)
    case NodeItem(n) =>
      if n.id in d.records then Ok(Deletion(d.deleted + {n.id}, d.records - {n.id}))
      else Err(NoSuchItemState(NodeItemId(n.id)))
  }

  /** Deleting each deleted node's bundle in turn. */
  function DeleteNodes(states: seq<ItemState>, records: Records): (r: Result<Deletion>)
    ensures r.Ok? ==> r.value.deleted <= records.Keys && r.value.records == records - r.value.deleted
    ensures r.Err? ==>
      exists i :: 0 <= i < |states| && states[i].NodeItem? && r.error == NoSuchItemState(NodeItemId(states[i].node.id))
    decreases |states|
  {
    if states == [] then Ok(Deletion({}, records))
    else
      match DeleteNodes(states[..|states| - 1], records)
      case Err(e) => Err(e)
      case Ok(d) => DeleteStep(d, states[|states| - 1])
  }

  lemma DeleteNodesNext(states: seq<ItemState>, k: nat, records: Records)
    requires k < |states|
    ensures DeleteNodes(states[..k + 1], records) ==
      match DeleteNodes(states[..k], records)
      case Err(e) => Err(e)
      case Ok(d) => DeleteStep(d, states[k])
  {
    assert states[..k + 1][..k] == states[..k];
  }

  lemma NodeIdsNext(states: seq<ItemState>, k: nat)
    requires k < |states|
    ensures NodeIds(states[..k + 1]) == NodeIds(states[..k]) + (if states[k].NodeItem? then {states[k].node.id} else {})
  {
    var a, b := NodeIds(states[..k + 1]), NodeIds(states[..k]) + (if states[k].NodeItem? then {states[k].node.id} else {});
    assert states[..k + 1][..k] == states[..k];
    forall n | n in a ensures n in b {
      var i :| 0 <= i < k + 1 && states[..k + 1][i].NodeItem? && states[..k + 1][i].node.id == n;
      if i < k { assert states[..k][i] == states[i]; }
    }
    forall n | n in b ensures n in a {
      if n in NodeIds(states[..k]) {
        var i :| 0 <= i < k && states[..k][i].NodeItem? && states[..k][i].node.id == n;
        assert states[..k + 1][i] == states[i];
      } else {
        assert states[..k + 1][k] == states[k];
      }
    }
  }

  lemma NodeIdsDistinctNext(states: seq<ItemState>, k: nat)
    requires k < |states|
    ensures NodeIdsDistinct(states[..k + 1]) <==>
      NodeIdsDistinct(states[..k]) && (states[k].NodeItem? ==> states[k].node.id !in NodeIds(states[..k]))
  {
    var pre, cur := states[..k], states[..k + 1];
    assert forall i :: 0 <= i < k ==> cur[i] == pre[i];
    assert cur[k] == states[k];
    if states[k].NodeItem? && states[k].node.id in NodeIds(pre) {
      var i :| 0 <= i < k && pre[i].NodeItem? && pre[i].node.id == states[k].node.id;
      assert cur[i].node.id == cur[k].node.id;
    }
  }

  /** Phase 1 succeeds exactly when every deleted node is stored and none is deleted twice;
      then the deleted set holds exactly the deleted nodes' ids and their records are gone. */
  lemma {:induction false} DeleteNodesOutcome(states: seq<ItemState>, records: Records)
    ensures DeleteNodes(states, records).Ok? <==> NodeIdsDistinct(states) && NodeIds(states) <= records.Keys
    ensures DeleteNodes(states, records).Ok? ==>
      DeleteNodes(states, records).value == Deletion(NodeIds(states), records - NodeIds(states))
    decreases |states|
  {
    if states != [] {
      var k := |states| - 1;
      var pre := states[..k];
      assert states[..k + 1] == states;
      DeleteNodesNext(states, k, records);
      NodeIdsNext(states, k);
      NodeIdsDistinctNext(states, k);
      DeleteNodesOutcome(pre, records);
      if DeleteNodes(pre, records).Ok? && states[k].NodeItem? {
        var n := states[k].node.id;
        assert (records - NodeIds(pre)) - {n} == records - NodeIds(states);
      }
    }
  }

  // ------------------------------------------------------------------ phases 2 to 5: staging

  /** The phases that gather bundles into the working map `modified`. */
  datatype Phase =
    | AddNodes
    | ApplyModified(view: Records)
    | RemoveProperties(view: Records, deleted: set<NodeId>)
    | AddProperties(view: Records)

  /** The staged bundle for id, else the stored one; a missing bundle is NoSuchItemState. */
  function Fetch(view: Records, m: Staging, id: NodeId): (r: Result<Bundle>)
    ensures r.Ok? <==> id in m || id in view
    ensures r.Ok? ==> r.value == if id in m then m[id] else view[id]
  {
    if id in m then Ok(m[id])
    else if id in view then Ok(view[id])
    else Err(NoSuchItemState(NodeItemId(id)))
  }

  function Step(phase: Phase, m: Staging, s: ItemState): (r: Result<Staging>)
    ensures r.Ok? ==> m.Keys <= r.value.Keys
    ensures r.Err? ==> !phase.AddNodes? && r.error == NoSuchItemState(NodeItemId(BundleId(s)))
  {
    match phase
    case AddNodes =>
      (match s
       case NodeItem(n) => Ok(m[n.id := FromNodeState(n)])
       case PropItem(_) => Ok(m))
    case ApplyModified(view) =>
      (match s
       case NodeItem(n) =>
         var b :- Fetch(view, m, n.id);
         Ok(m[n.id := Update(b, n)])
       case PropItem(p) =>
         if IsIdentityName(p.id.name) then Ok(m)
         else
           var b :- Fetch(view, m, p.id.parentId);
           Ok(m[p.id.parentId := AddProperty(b, p)]))
    case RemoveProperties(view, deleted) =>
      (match s
       case NodeItem(_) => Ok(m)
       case PropItem(p) =>
         if p.id.parentId in deleted then Ok(m)
         else
           var b :- Fetch(view, m, p.id.parentId);
           Ok(m[p.id.parentId := RemoveProperty(b, p.id.name)]))
    case AddProperties(view) =>
      (match s
       case NodeItem(_) => Ok(m)
       case PropItem(p) =>
         if IsIdentityName(p.id.name) then Ok(m)
         else
           var b :- Fetch(view, m, p.id.parentId);
           Ok(m[p.id.parentId := AddProperty(b, p)]))
  }

  /** One staging phase: the step applied to each state of the list in turn. */
  function Stage(phase: Phase, states: seq<ItemState>, m: Staging): (r: Result<Staging>)
    ensures r.Err? ==> exists i :: 0 <= i < |states| && r.error == NoSuchItemState(NodeItemId(BundleId(states[i])))
    decreases |states|
  {
    if states == [] then Ok(m)
    else
      match Stage(phase, states[..|states| - 1], m)
      case Err(e) => Err(e)
      case Ok(acc) => Step(phase, acc, states[|states| - 1])
  }

  lemma StageNext(phase: Phase, states: seq<ItemState>, k: nat, m: Staging)
    requires k < |states|
    ensures Stage(phase, states[..k + 1], m) ==
      match Stage(phase, states[..k], m)
      case Err(e) => Err(e)
      case Ok(acc) => Step(phase, acc, states[k])
  {
    assert states[..k + 1][..k] == states[..k];
  }

  /** Once a phase has failed on a prefix, the whole phase fails with that error. */
  lemma {:induction false} StageErrSticky(phase: Phase, states: seq<ItemState>, k: nat, m: Staging)
    requires k <= |states| && Stage(phase, states[..k], m).Err?
    ensures Stage(phase, states, m) == Stage(phase, states[..k], m)
    decreases |states| - k
  {
    if k < |states| {
      StageNext(phase, states, k, m);
      StageErrSticky(phase, states, k + 1, m);
    } else {
      assert states[..k] == states;
    }
  }

  lemma {:induction false} DeleteNodesErrSticky(states: seq<ItemState>, k: nat, records: Records)
    requires k <= |states| && DeleteNodes(states[..k], records).Err?
    ensures DeleteNodes(states, records) == DeleteNodes(states[..k], records)
    decreases |states| - k
  {
    if k < |states| {
      DeleteNodesNext(states, k, records);
      DeleteNodesErrSticky(states, k + 1, records);
    } else {
      assert states[..k] == states;
    }
  }

  /** Phase 2 never fails, and stages a fresh bundle for every added node. */
  lemma {:induction false} AddNodesOutcome(states: seq<ItemState>, m: Staging)
    ensures Stage(AddNodes, states, m).Ok?
    ensures Stage(AddNodes, states, m).value.Keys == m.Keys + NodeIds(states)
    decreases |states|
  {
    if states != [] {
      var k := |states| - 1;
      assert states[..k + 1] == states;
      StageNext(AddNodes, states, k, m);
      NodeIdsNext(states, k);
      AddNodesOutcome(states[..k], m);
    }
  }

  function ViewOf(phase: Phase): Records {
    match phase
    case AddNodes => map[]
    case ApplyModified(view) => view
    case RemoveProperties(view, _) => view
    case AddProperties(view) => view
  }

  /** A fetching step only stages the state's own bundle, and only one that was staged
      already or is stored. */
  lemma StepKeys(phase: Phase, m: Staging, s: ItemState)
    requires !phase.AddNodes? && Step(phase, m, s).Ok?
    ensures Step(phase, m, s).value.Keys <= m.Keys + ({BundleId(s)} * ViewOf(phase).Keys)
  {
  }

  lemma {:induction false} StageKeys(phase: Phase, states: seq<ItemState>, m: Staging)
    requires !phase.AddNodes? && Stage(phase, states, m).Ok?
    ensures Stage(phase, states, m).value.Keys <= m.Keys + (BundleIds(states) * ViewOf(phase).Keys)
    decreases |states|
  {
    if states != [] {
      var k := |states| - 1;
      assert states[..k + 1] == states;
      StageNext(phase, states, k, m);
      StageKeys(phase, states[..k], m);
      StepKeys(phase, Stage(phase, states[..k], m).value, states[k]);
    }
  }

  /** No phase ever puts one of the identity properties into a staged bundle. */
  lemma StepClean(phase: Phase, m: Staging, s: ItemState)
    requires Clean(m) && Clean(ViewOf(phase)) && Step(phase, m, s).Ok?
    ensures Clean(Step(phase, m, s).value)
  {
  }

  lemma {:induction false} StageClean(phase: Phase, states: seq<ItemState>, m: Staging)
    requires Clean(m) && Clean(ViewOf(phase)) && Stage(phase, states, m).Ok?
    ensures Clean(Stage(phase, states, m).value)
    decreases |states|
  {
    if states != [] {
      var k := |states| - 1;
      assert states[..k + 1] == states;
      StageNext(phase, states, k, m);
      StageClean(phase, states[..k], m);
      StepClean(phase, Stage(phase, states[..k], m).value, states[k]);
    }
  }

  // ------------------------------------------------------------------ write-back and references

  /** Phase 6: every staged bundle replaces its record, in persisted form. */
  function WriteBack(records: Records, m: Staging): (r: Records)
    ensures r.Keys == records.Keys + m.Keys
    ensures forall k :: k in m ==> r[k] == Persisted(m[k])
    ensures forall k :: k in records && k !in m ==> r[k] == records[k]
  {
    map k | k in records.Keys + m.Keys :: if k in m then Persisted(m[k]) else records[k]
  }

  /** The targets of a list of reference lists. */
  function RefTargets(list: seq<NodeReferences>): (ts: set<NodeId>)
    ensures forall i :: 0 <= i < |list| ==> list[i].targetId in ts
    ensures forall t :: t in ts ==> exists i :: 0 <= i < |list| && list[i].targetId == t
  {
    set i | 0 <= i < |list| :: list[i].targetId
  }

  function RefsStep(refs: RefRecords, r: NodeReferences): RefRecords {
    if r.HasReferences() then refs[r.targetId := r] else refs - {r.targetId}
  }

  /** Phase 7: a reference list with referrers is stored, an empty one destroyed. */
  function ApplyRefs(refs: RefRecords, list: seq<NodeReferences>): (r: RefRecords)
    ensures forall t :: t in r && t !in refs ==>
      exists i :: 0 <= i < |list| && list[i] == r[t] && list[i].HasReferences()
    decreases |list|
  {
    if list == [] then refs else RefsStep(ApplyRefs(refs, list[..|list| - 1]), list[|list| - 1])
  }

  lemma ApplyRefsNext(refs: RefRecords, list: seq<NodeReferences>, k: nat)
    requires k < |list|
    ensures ApplyRefs(refs, list[..k + 1]) == RefsStep(ApplyRefs(refs, list[..k]), list[k])
  {
    assert list[..k + 1][..k] == list[..k];
  }

  /** A target that no reference list in the log names keeps its stored list. */
  lemma {:induction false} ApplyRefsFrame(refs: RefRecords, list: seq<NodeReferences>, t: NodeId)
    requires forall i :: 0 <= i < |list| ==> list[i].targetId != t
    ensures t in ApplyRefs(refs, list) <==> t in refs
    ensures t in refs ==> ApplyRefs(refs, list)[t] == refs[t]
    decreases |list|
  {
    if list != [] {
      var k := |list| - 1;
      forall i | 0 <= i < k ensures list[..k][i].targetId != t {
        assert list[..k][i] == list[i];
      }
      ApplyRefsFrame(refs, list[..k], t);
    }
  }

  /** The last reference list given for a target decides: stored if it has referrers,
      destroyed otherwise. */
  lemma {:induction false} ApplyRefsLast(refs: RefRecords, list: seq<NodeReferences>, i: nat)
    requires i < |list|
    requires forall j :: i < j < |list| ==> list[j].targetId != list[i].targetId
    ensures list[i].HasReferences() ==>
      list[i].targetId in ApplyRefs(refs, list) && ApplyRefs(refs, list)[list[i].targetId] == list[i]
    ensures !list[i].HasReferences() ==> list[i].targetId !in ApplyRefs(refs, list)
    decreases |list|
  {
    var k := |list| - 1;
    if i < k {
      forall j | i < j < k ensures list[..k][j].targetId != list[..k][i].targetId {
        assert list[..k][j] == list[j] && list[..k][i] == list[i];
      }
      ApplyRefsLast(refs, list[..k], i);
      assert list[..k][i] == list[i];
    }
  }

  // ------------------------------------------------------------------ the whole change log

  /** Phases 2 to 5 of storeInternal: the working map of bundles to write back. */
  function Staged(log: ChangeLog, d: Deletion): Result<Staging> {
    var m0 :- Stage(AddNodes, log.added, map[]);
    var m1 :- Stage(ApplyModified(d.records), log.modified, m0);
    var m2 :- Stage(RemoveProperties(d.records, d.deleted), log.deleted, m1);
    Stage(AddProperties(d.records), log.added, m2)
  }

  /** storeInternal on values: delete, stage, write back, then apply the reference lists. */
  function Apply(log: ChangeLog, b: Backend): (r: Result<Backend>)
    ensures r.Err? ==> r.error.NoSuchItemState? && r.error.item.NodeItemId? && r.error.item.nodeId in TouchedIds(log)
  {
    var d :- DeleteNodes(log.deleted, b.records);
    var m :- Staged(log, d);
    Ok(Backend(WriteBack(d.records, m), ApplyRefs(b.refs, log.modifiedRefs)))
  }

  /** The bundles Apply stages: the added nodes, plus stored bundles the log touches. */
  lemma StagedKeys(log: ChangeLog, d: Deletion)
    requires Staged(log, d).Ok?
    ensures Staged(log, d).value.Keys <= NodeIds(log.added) + (TouchedIds(log) * d.records.Keys)
  {
    AddNodesOutcome(log.added, map[]);
    var m0 := Stage(AddNodes, log.added, map[]).value;
    StageKeys(ApplyModified(d.records), log.modified, m0);
    var m1 := Stage(ApplyModified(d.records), log.modified, m0).value;
    StageKeys(RemoveProperties(d.records, d.deleted), log.deleted, m1);
    var m2 := Stage(RemoveProperties(d.records, d.deleted), log.deleted, m1).value;
    StageKeys(AddProperties(d.records), log.added, m2);
  }

  /** Every bundle Apply stages belongs to a state of the log. */
  lemma StagedWithinTouched(log: ChangeLog, d: Deletion)
    requires Staged(log, d).Ok?
    ensures Staged(log, d).value.Keys <= TouchedIds(log)
  {
    StagedKeys(log, d);
    NodeIdsWithinBundleIds(log.added);
  }

  /** Phase 1 deletes exactly the deleted node states' ids. */
  lemma DeletedSet(states: seq<ItemState>, records: Records)
    requires DeleteNodes(states, records).Ok?
    ensures DeleteNodes(states, records).value.deleted == NodeIds(states)
  {
    DeleteNodesOutcome(states, records);
  }

  /** A node that phase 1 deleted and the log does not add again is not written back. */
  lemma DeletedNotStaged(log: ChangeLog, records: Records, d: Deletion)
    requires DeleteNodes(log.deleted, records) == Ok(d) && Staged(log, d).Ok?
    ensures d.deleted == NodeIds(log.deleted)
    ensures (NodeIds(log.deleted) - NodeIds(log.added)) !! Staged(log, d).value.Keys
  {
    DeletedSet(log.deleted, records);
    StagedKeys(log, d);
  }

  lemma StagedClean(log: ChangeLog, d: Deletion)
    requires Clean(d.records) && Staged(log, d).Ok?
    ensures Clean(Staged(log, d).value)
  {
    StageClean(AddNodes, log.added, map[]);
    var m0 := Stage(AddNodes, log.added, map[]).value;
    StageClean(ApplyModified(d.records), log.modified, m0);
    var m1 := Stage(ApplyModified(d.records), log.modified, m0).value;
    StageClean(RemoveProperties(d.records, d.deleted), log.deleted, m1);
    var m2 := Stage(RemoveProperties(d.records, d.deleted), log.deleted, m1).value;
    StageClean(AddProperties(d.records), log.added, m2);
  }

  /** A staging phase only ever adds bundles to the working map, never drops one. */
  lemma {:induction false} StageGrows(phase: Phase, states: seq<ItemState>, m: Staging)
    requires Stage(phase, states, m).Ok?
    ensures m.Keys <= Stage(phase, states, m).value.Keys
    decreases |states|
  {
    if states != [] {
      var k := |states| - 1;
      assert states[..k + 1] == states;
      StageNext(phase, states, k, m);
      StageGrows(phase, states[..k], m);
    }
  }

  /** Every node the log adds is staged, so it has a record once the log is applied. */
  lemma ApplyStoresAdded(log: ChangeLog, b: Backend, n: NodeId)
    requires Apply(log, b).Ok? && n in NodeIds(log.added)
    ensures n in Apply(log, b).value.records
  {
    var d := DeleteNodes(log.deleted, b.records).value;
    AddNodesOutcome(log.added, map[]);
    var m0 := Stage(AddNodes, log.added, map[]).value;
    StageGrows(ApplyModified(d.records), log.modified, m0);
    var m1 := Stage(ApplyModified(d.records), log.modified, m0).value;
    StageGrows(RemoveProperties(d.records, d.deleted), log.deleted, m1);
    var m2 := Stage(RemoveProperties(d.records, d.deleted), log.deleted, m1).value;
    StageGrows(AddProperties(d.records), log.added, m2);
  }

  /** A deleted node that the same log does not add again has no record afterwards. */
  lemma ApplyDeletes(log: ChangeLog, b: Backend, n: NodeId)
    requires Apply(log, b).Ok?
    requires n in NodeIds(log.deleted) && n !in NodeIds(log.added)
    ensures n !in Apply(log, b).value.records
  {
    DeleteNodesOutcome(log.deleted, b.records);
    StagedKeys(log, DeleteNodes(log.deleted, b.records).value);
  }

  /** Bundles the log does not touch keep their records, and reference lists not named by
      the log keep theirs. */
  lemma ApplyFrame(log: ChangeLog, b: Backend, id: NodeId)
    requires Apply(log, b).Ok?
    requires id !in TouchedIds(log)
    ensures id in Apply(log, b).value.records <==> id in b.records
    ensures id in b.records ==> Apply(log, b).value.records[id] == b.records[id]
    ensures (forall i :: 0 <= i < |log.modifiedRefs| ==> log.modifiedRefs[i].targetId != id) ==>
      && (id in Apply(log, b).value.refs <==> id in b.refs)
      && (id in b.refs ==> Apply(log, b).value.refs[id] == b.refs[id])
  {
    DeleteNodesOutcome(log.deleted, b.records);
    NodeIdsWithinBundleIds(log.deleted);
    NodeIdsWithinBundleIds(log.added);
    StagedKeys(log, DeleteNodes(log.deleted, b.records).value);
    if forall i :: 0 <= i < |log.modifiedRefs| ==> log.modifiedRefs[i].targetId != id {
      ApplyRefsFrame(b.refs, log.modifiedRefs, id);
    }
  }

  /** Starting from records without identity properties, Apply never stores one: the
      skipped jcr:uuid, jcr:primaryType and jcr:mixinTypes states never reach a bundle. */
  lemma ApplyStagesNoIdentity(log: ChangeLog, b: Backend)
    requires Clean(b.records) && Apply(log, b).Ok?
    ensures Clean(Apply(log, b).value.records)
  {
    DeleteNodesOutcome(log.deleted, b.records);
    var d := DeleteNodes(log.deleted, b.records).value;
    assert Clean(d.records);
    StagedClean(log, d);
  }

  // ------------------------------------------------------------------ what the records hold

  /** The record under a name in the stored bundle for id, if any. */
  function StoredProp(records: Records, id: NodeId, name: QName): Option<PropertyEntry> {
    if id in records then Lookup(records[id], name) else None
  }

  /** The header of the stored bundle for id, if any. */
  function StoredHeader(records: Records, id: NodeId): Option<Header> {
    if id in records then Some(HeaderOf(records[id])) else None
  }

  /** The record under a name in the bundle for id: the staged bundle, else the stored one. */
  function PropOf(view: Records, m: Staging, id: NodeId, name: QName): Option<PropertyEntry> {
    if id in m then Lookup(m[id], name) else StoredProp(view, id, name)
  }

  /** The header of the bundle for id: the staged bundle, else the stored one. */
  function HeaderAt(view: Records, m: Staging, id: NodeId): Option<Header> {
    if id in m then Some(HeaderOf(m[id])) else StoredHeader(view, id)
  }

  /** What one state of a phase does to the record (id, name): None when the state leaves it
      alone, Some(e) when it makes it e. A new node starts without records; a modified or
      added property other than the identity properties is set; a deleted property of a
      node that survives phase 1 is removed. */
  function PropEffect(phase: Phase, s: ItemState, id: NodeId, name: QName): Option<Option<PropertyEntry>> {
    match s
    case NodeItem(n) =>
      if phase.AddNodes? && n.id == id then Some(None) else None
    case PropItem(p) =>
      if p.id != PropertyId(id, name) then None
      else
        match phase
        case AddNodes => None
        case RemoveProperties(_, deleted) => if id in deleted then None else Some(None)
        case ApplyModified(_) => if IsIdentityName(name) then None else Some(Some(EntryOf(p)))
        case AddProperties(_) => if IsIdentityName(name) then None else Some(Some(EntryOf(p)))
  }

  /** What one state of a phase does to the header of id's bundle: a new or modified node
      state sets it; property states leave it alone. */
  function HeaderEffect(phase: Phase, s: ItemState, id: NodeId): Option<Header> {
    if s.NodeItem? && s.node.id == id && (phase.AddNodes? || phase.ApplyModified?) then Some(StateHeader(s.node))
    else None
  }

  /** The record (id, name) after a phase: what the last state touching it made it, else as before. */
  function LastPropEffect(phase: Phase, states: seq<ItemState>, id: NodeId, name: QName, before: Option<PropertyEntry>)
    : Option<PropertyEntry>
    decreases |states|
  {
    if states == [] then before
    else
      match PropEffect(phase, states[|states| - 1], id, name)
      case Some(e) => e
      case None => LastPropEffect(phase, states[..|states| - 1], id, name, before)
  }

  /** The header of id's bundle after a phase: what the last state touching it made it, else as before. */
  function LastHeaderEffect(phase: Phase, states: seq<ItemState>, id: NodeId, before: Option<Header>): Option<Header>
    decreases |states|
  {
    if states == [] then before
    else
      match HeaderEffect(phase, states[|states| - 1], id)
      case Some(h) => Some(h)
      case None => LastHeaderEffect(phase, states[..|states| - 1], id, before)
  }

  /** One step changes the record (id, name) exactly as PropEffect says. */
  lemma StepProp(phase: Phase, view: Records, m: Staging, s: ItemState, id: NodeId, name: QName)
    requires phase.AddNodes? || view == ViewOf(phase)
    requires Step(phase, m, s).Ok?
    ensures PropOf(view, Step(phase, m, s).value, id, name) ==
      match PropEffect(phase, s, id, name)
      case Some(e) => e
      case None => PropOf(view, m, id, name)
  {
  }

  /** One step changes the header of id's bundle exactly as HeaderEffect says. */
  lemma StepHeader(phase: Phase, view: Records, m: Staging, s: ItemState, id: NodeId)
    requires phase.AddNodes? || view == ViewOf(phase)
    requires Step(phase, m, s).Ok?
    ensures HeaderAt(view, Step(phase, m, s).value, id) ==
      match HeaderEffect(phase, s, id)
      case Some(h) => Some(h)
      case None => HeaderAt(view, m, id)
  {
  }

  lemma {:induction false} StageProp(phase: Phase, view: Records, states: seq<ItemState>, m: Staging, id: NodeId, name: QName)
    requires phase.AddNodes? || view == ViewOf(phase)
    requires Stage(phase, states, m).Ok?
    ensures PropOf(view, Stage(phase, states, m).value, id, name) ==
      LastPropEffect(phase, states, id, name, PropOf(view, m, id, name))
    decreases |states|
  {
    if states != [] {
      var k := |states| - 1;
      assert states[..k + 1] == states;
      StageNext(phase, states, k, m);
      StageProp(phase, view, states[..k], m, id, name);
      StepProp(phase, view, Stage(phase, states[..k], m).value, states[k], id, name);
    }
  }

  lemma {:induction false} StageHeader(phase: Phase, view: Records, states: seq<ItemState>, m: Staging, id: NodeId)
    requires phase.AddNodes? || view == ViewOf(phase)
    requires Stage(phase, states, m).Ok?
    ensures HeaderAt(view, Stage(phase, states, m).value, id) ==
      LastHeaderEffect(phase, states, id, HeaderAt(view, m, id))
    decreases |states|
  {
    if states != [] {
      var k := |states| - 1;
      assert states[..k + 1] == states;
      StageNext(phase, states, k, m);
      StageHeader(phase, view, states[..k], m, id);
      StepHeader(phase, view, Stage(phase, states[..k], m).value, states[k], id);
    }
  }

  /** The state at i decides the record (id, name) when no later state makes it anything else. */
  lemma {:induction false} LastPropEffectAt(phase: Phase, states: seq<ItemState>, i: nat, id: NodeId, name: QName,
      before: Option<PropertyEntry>, e: Option<PropertyEntry>)
    requires i < |states| && PropEffect(phase, states[i], id, name) == Some(e)
    requires forall j :: i < j < |states| ==>
      PropEffect(phase, states[j], id, name).None? || PropEffect(phase, states[j], id, name) == Some(e)
    ensures LastPropEffect(phase, states, id, name, before) == e
    decreases |states|
  {
    var k := |states| - 1;
    if i < k && PropEffect(phase, states[k], id, name).None? {
      forall j | i <= j < k ensures states[..k][j] == states[j] { }
      LastPropEffectAt(phase, states[..k], i, id, name, before, e);
    }
  }

  /** A phase none of whose states touches the record (id, name) leaves it as it was. */
  lemma {:induction false} LastPropEffectNone(phase: Phase, states: seq<ItemState>, id: NodeId, name: QName,
      before: Option<PropertyEntry>)
    requires forall j :: 0 <= j < |states| ==> PropEffect(phase, states[j], id, name).None?
    ensures LastPropEffect(phase, states, id, name, before) == before
    decreases |states|
  {
    if states != [] {
      var k := |states| - 1;
      forall j | 0 <= j < k ensures states[..k][j] == states[j] { }
      LastPropEffectNone(phase, states[..k], id, name, before);
    }
  }

  /** The node state at i decides the header when no later state of the phase sets it. */
  lemma {:induction false} LastHeaderEffectAt(phase: Phase, states: seq<ItemState>, i: nat, id: NodeId,
      before: Option<Header>)
    requires i < |states| && HeaderEffect(phase, states[i], id).Some?
    requires forall j :: i < j < |states| ==> HeaderEffect(phase, states[j], id).None?
    ensures LastHeaderEffect(phase, states, id, before) == HeaderEffect(phase, states[i], id)
    decreases |states|
  {
    var k := |states| - 1;
    if i < k {
      forall j | i <= j < k ensures states[..k][j] == states[j] { }
      LastHeaderEffectAt(phase, states[..k], i, id, before);
    }
  }

  lemma {:induction false} LastHeaderEffectNone(phase: Phase, states: seq<ItemState>, id: NodeId, before: Option<Header>)
    requires forall j :: 0 <= j < |states| ==> HeaderEffect(phase, states[j], id).None?
    ensures LastHeaderEffect(phase, states, id, before) == before
    decreases |states|
  {
    if states != [] {
      var k := |states| - 1;
      forall j | 0 <= j < k ensures states[..k][j] == states[j] { }
      LastHeaderEffectNone(phase, states[..k], id, before);
    }
  }

  /** Writing back keeps what the staged bundles say, except the identity records. */
  lemma WriteBackProp(records: Records, m: Staging, id: NodeId, name: QName)
    requires !IsIdentityName(name)
    ensures StoredProp(WriteBack(records, m), id, name) == PropOf(records, m, id, name)
  {
  }

  lemma WriteBackHeader(records: Records, m: Staging, id: NodeId)
    ensures StoredHeader(WriteBack(records, m), id) == HeaderAt(records, m, id)
  {
  }

  /** The record (id, name) after a successful Apply, for a name other than the identity
      properties: the effect of the last state of phases 2 to 5 that touches it, over the
      record that survived phase 1. */
  lemma ApplyProp(log: ChangeLog, b: Backend, id: NodeId, name: QName)
    requires Apply(log, b).Ok? && !IsIdentityName(name)
    ensures var d := DeleteNodes(log.deleted, b.records).value;
      StoredProp(Apply(log, b).value.records, id, name) ==
      LastPropEffect(AddProperties(d.records), log.added, id, name,
        LastPropEffect(RemoveProperties(d.records, d.deleted), log.deleted, id, name,
          LastPropEffect(ApplyModified(d.records), log.modified, id, name,
            LastPropEffect(AddNodes, log.added, id, name, StoredProp(d.records, id, name)))))
  {
    var d := DeleteNodes(log.deleted, b.records).value;
    AddNodesOutcome(log.added, map[]);
    var m0 := Stage(AddNodes, log.added, map[]).value;
    StageProp(AddNodes, d.records, log.added, map[], id, name);
    var m1 := Stage(ApplyModified(d.records), log.modified, m0).value;
    StageProp(ApplyModified(d.records), d.records, log.modified, m0, id, name);
    var m2 := Stage(RemoveProperties(d.records, d.deleted), log.deleted, m1).value;
    StageProp(RemoveProperties(d.records, d.deleted), d.records, log.deleted, m1, id, name);
    var m3 := Stage(AddProperties(d.records), log.added, m2).value;
    StageProp(AddProperties(d.records), d.records, log.added, m2, id, name);
    WriteBackProp(d.records, m3, id, name);
  }

  /** The header of id's record after a successful Apply: the last added or modified node
      state for id decides it, else it is the header that survived phase 1. */
  lemma ApplyHeader(log: ChangeLog, b: Backend, id: NodeId)
    requires Apply(log, b).Ok?
    ensures var d := DeleteNodes(log.deleted, b.records).value;
      StoredHeader(Apply(log, b).value.records, id) ==
      LastHeaderEffect(AddProperties(d.records), log.added, id,
        LastHeaderEffect(RemoveProperties(d.records, d.deleted), log.deleted, id,
          LastHeaderEffect(ApplyModified(d.records), log.modified, id,
            LastHeaderEffect(AddNodes, log.added, id, StoredHeader(d.records, id)))))
  {
    var d := DeleteNodes(log.deleted, b.records).value;
    AddNodesOutcome(log.added, map[]);
    var m0 := Stage(AddNodes, log.added, map[]).value;
    StageHeader(AddNodes, d.records, log.added, map[], id);
    var m1 := Stage(ApplyModified(d.records), log.modified, m0).value;
    StageHeader(ApplyModified(d.records), d.records, log.modified, m0, id);
    var m2 := Stage(RemoveProperties(d.records, d.deleted), log.deleted, m1).value;
    StageHeader(RemoveProperties(d.records, d.deleted), d.records, log.deleted, m1, id);
    var m3 := Stage(AddProperties(d.records), log.added, m2).value;
    StageHeader(AddProperties(d.records), d.records, log.added, m2, id);
    WriteBackHeader(d.records, m3, id);
  }

  /** Round trip of an added property: one that is not jcr:uuid, jcr:primaryType or
      jcr:mixinTypes, and that no later added state replaces, is stored exactly as given. */
  lemma ApplyAddedProperty(log: ChangeLog, b: Backend, i: nat)
    requires Apply(log, b).Ok? && i < |log.added| && log.added[i].PropItem?
    requires !IsIdentityName(log.added[i].prop.id.name)
    requires forall j :: i < j < |log.added| && log.added[j].PropItem? ==> log.added[j].prop.id != log.added[i].prop.id
    ensures var p := log.added[i].prop;
      && p.id.parentId in Apply(log, b).value.records
      && Lookup(Apply(log, b).value.records[p.id.parentId], p.id.name) == Some(EntryOf(p))
  {
    var p := log.added[i].prop;
    var d := DeleteNodes(log.deleted, b.records).value;
    ApplyProp(log, b, p.id.parentId, p.id.name);
    LastPropEffectAt(AddProperties(d.records), log.added, i, p.id.parentId, p.id.name,
      LastPropEffect(RemoveProperties(d.records, d.deleted), log.deleted, p.id.parentId, p.id.name,
        LastPropEffect(ApplyModified(d.records), log.modified, p.id.parentId, p.id.name,
          LastPropEffect(AddNodes, log.added, p.id.parentId, p.id.name, StoredProp(d.records, p.id.parentId, p.id.name)))),
      Some(EntryOf(p)));
  }

  /** A modified property (other than the identity properties) that no later modified state
      replaces, and that the log neither deletes nor adds, is stored as modified. */
  lemma ApplyModifiedProperty(log: ChangeLog, b: Backend, i: nat)
    requires Apply(log, b).Ok? && i < |log.modified| && log.modified[i].PropItem?
    requires !IsIdentityName(log.modified[i].prop.id.name)
    requires forall j :: i < j < |log.modified| && log.modified[j].PropItem? ==>
      log.modified[j].prop.id != log.modified[i].prop.id
    requires forall j :: 0 <= j < |log.deleted| && log.deleted[j].PropItem? ==>
      log.deleted[j].prop.id != log.modified[i].prop.id
    requires forall j :: 0 <= j < |log.added| && log.added[j].PropItem? ==>
      log.added[j].prop.id != log.modified[i].prop.id
    ensures var p := log.modified[i].prop;
      && p.id.parentId in Apply(log, b).value.records
      && Lookup(Apply(log, b).value.records[p.id.parentId], p.id.name) == Some(EntryOf(p))
  {
    var p := log.modified[i].prop;
    var id, name := p.id.parentId, p.id.name;
    var d := DeleteNodes(log.deleted, b.records).value;
    ApplyProp(log, b, id, name);
    var e0 := LastPropEffect(AddNodes, log.added, id, name, StoredProp(d.records, id, name));
    var e1 := LastPropEffect(ApplyModified(d.records), log.modified, id, name, e0);
    var e2 := LastPropEffect(RemoveProperties(d.records, d.deleted), log.deleted, id, name, e1);
    LastPropEffectAt(ApplyModified(d.records), log.modified, i, id, name, e0, Some(EntryOf(p)));
    LastPropEffectNone(RemoveProperties(d.records, d.deleted), log.deleted, id, name, e1);
    LastPropEffectNone(AddProperties(d.records), log.added, id, name, e2);
  }

  /** A deleted property (other than the identity properties) of a node that the log does
      not delete is gone afterwards, unless the log adds it again. */
  lemma ApplyRemovedProperty(log: ChangeLog, b: Backend, i: nat)
    requires Apply(log, b).Ok? && i < |log.deleted| && log.deleted[i].PropItem?
    requires !IsIdentityName(log.deleted[i].prop.id.name)
    requires log.deleted[i].prop.id.parentId !in NodeIds(log.deleted)
    requires forall j :: 0 <= j < |log.added| && log.added[j].PropItem? ==>
      log.added[j].prop.id != log.deleted[i].prop.id
    ensures var q := log.deleted[i].prop;
      StoredProp(Apply(log, b).value.records, q.id.parentId, q.id.name) == None
  {
    var q := log.deleted[i].prop;
    var id, name := q.id.parentId, q.id.name;
    DeletedSet(log.deleted, b.records);
    var d := DeleteNodes(log.deleted, b.records).value;
    ApplyProp(log, b, id, name);
    var e0 := LastPropEffect(AddNodes, log.added, id, name, StoredProp(d.records, id, name));
    var e1 := LastPropEffect(ApplyModified(d.records), log.modified, id, name, e0);
    var e2 := LastPropEffect(RemoveProperties(d.records, d.deleted), log.deleted, id, name, e1);
    var phase := RemoveProperties(d.records, d.deleted);
    forall j | i < j < |log.deleted|
      ensures PropEffect(phase, log.deleted[j], id, name).None? || PropEffect(phase, log.deleted[j], id, name) == Some(None)
    {
    }
    LastPropEffectAt(phase, log.deleted, i, id, name, e1, None);
    LastPropEffectNone(AddProperties(d.records), log.added, id, name, e2);
  }

  /** A modified node state that no later modified node state for the same id replaces
      gives the stored bundle its header: parent, node type, mixins and child entries. */
  lemma ApplyModifiedNode(log: ChangeLog, b: Backend, i: nat)
    requires Apply(log, b).Ok? && i < |log.modified| && log.modified[i].NodeItem?
    requires forall j :: i < j < |log.modified| && log.modified[j].NodeItem? ==>
      log.modified[j].node.id != log.modified[i].node.id
    ensures var n := log.modified[i].node;
      n.id in Apply(log, b).value.records && HeaderOf(Apply(log, b).value.records[n.id]) == StateHeader(n)
  {
    var n := log.modified[i].node;
    var d := DeleteNodes(log.deleted, b.records).value;
    ApplyHeader(log, b, n.id);
    var h0 := LastHeaderEffect(AddNodes, log.added, n.id, StoredHeader(d.records, n.id));
    var h1 := LastHeaderEffect(ApplyModified(d.records), log.modified, n.id, h0);
    var h2 := LastHeaderEffect(RemoveProperties(d.records, d.deleted), log.deleted, n.id, h1);
    LastHeaderEffectAt(ApplyModified(d.records), log.modified, i, n.id, h0);
    LastHeaderEffectNone(RemoveProperties(d.records, d.deleted), log.deleted, n.id, h1);
    LastHeaderEffectNone(AddProperties(d.records), log.added, n.id, h2);
  }

  /** Round trip of an added node: the last added state for it, unless the log also
      modifies it, gives the stored bundle its header. */
  lemma ApplyAddedNode(log: ChangeLog, b: Backend, i: nat)
    requires Apply(log, b).Ok? && i < |log.added| && log.added[i].NodeItem?
    requires forall j :: i < j < |log.added| && log.added[j].NodeItem? ==> log.added[j].node.id != log.added[i].node.id
    requires forall j :: 0 <= j < |log.modified| && log.modified[j].NodeItem? ==>
      log.modified[j].node.id != log.added[i].node.id
    ensures var n := log.added[i].node;
      n.id in Apply(log, b).value.records && HeaderOf(Apply(log, b).value.records[n.id]) == StateHeader(n)
  {
    var n := log.added[i].node;
    var d := DeleteNodes(log.deleted, b.records).value;
    ApplyHeader(log, b, n.id);
    var h0 := LastHeaderEffect(AddNodes, log.added, n.id, StoredHeader(d.records, n.id));
    var h1 := LastHeaderEffect(ApplyModified(d.records), log.modified, n.id, h0);
    var h2 := LastHeaderEffect(RemoveProperties(d.records, d.deleted), log.deleted, n.id, h1);
    LastHeaderEffectAt(AddNodes, log.added, i, n.id, StoredHeader(d.records, n.id));
    LastHeaderEffectNone(ApplyModified(d.records), log.modified, n.id, h0);
    LastHeaderEffectNone(RemoveProperties(d.records, d.deleted), log.deleted, n.id, h1);
    LastHeaderEffectNone(AddProperties(d.records), log.added, n.id, h2);
  }
}
