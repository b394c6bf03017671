/**
 * Identifiers, item states and change logs as the bundle persistence manager
 * consumes them. NodeId, PropertyId, ItemState, ChangeLog and NodeReferences
 * are classes of the repository that this core only reads; they are values here.
 */
module Ids {

  datatype Option<+T> = None | Some(value: T)

  /** A node identifier, represented by its canonical textual form (id.toString()). */
  datatype NodeId = NodeId(text: string)

  /** A qualified name: namespace URI plus local name. */
  datatype QName = QName(namespaceUri: string, localName: string)

  /** A property identifier: the owning node and the property's name. */
  datatype PropertyId = PropertyId(parentId: NodeId, name: QName)

  datatype ItemId = NodeItemId(nodeId: NodeId) | PropItemId(propId: PropertyId)

  /** The error kinds the core raises: NoSuchItemStateException and a storage failure
      (an ItemStateException thrown by one of the backend hooks). */
  datatype Error = NoSuchItemState(item: ItemId) | StorageFailure(failed: NodeId)

  datatype Result<+T> = Ok(value: T) | Err(error: Error) {
    predicate IsFailure() { Err? }
    function PropagateFailure<U>(): Result<U> requires Err? { Err(error) }
    function Extract(): T requires Ok? { value }
  }

  datatype Outcome = Pass | Fail(error: Error)

  const JcrNamespace: string := "http://www.jcp.org/jcr/1.0"
  const JcrUuid: QName := QName(JcrNamespace, "uuid")
  const JcrPrimaryType: QName := QName(JcrNamespace, "primaryType")
  const JcrMixinTypes: QName := QName(JcrNamespace, "mixinTypes")

  /** The three properties derived from a bundle's header and never stored in its property map. */
  const IdentityNames: set<QName> := {JcrUuid, JcrPrimaryType, JcrMixinTypes}

  predicate IsIdentityName(n: QName) {
    n in IdentityNames
  }

  /** javax.jcr.PropertyType codes used for the synthesized properties. */
  const PropertyTypeString: int := 1
  const PropertyTypeName: int := 7

  /** A property value (InternalValue); only the kinds the core creates itself are distinguished. */
  datatype Value = StringValue(s: string) | NameValue(n: QName) | OtherValue(repr: string)

  datatype ChildEntry = ChildEntry(name: QName, id: NodeId)

  datatype NodeState = NodeState(
    id: NodeId,
    parentId: Option<NodeId>,
    nodeTypeName: QName,
    mixinTypeNames: seq<QName>,
    childEntries: seq<ChildEntry>)

  datatype PropertyState = PropertyState(
    id: PropertyId,
    propType: int,
    multiValued: bool,
    values: seq<Value>)

  datatype ItemState = NodeItem(node: NodeState) | PropItem(prop: PropertyState) {
    predicate IsNode() { NodeItem? }

    function Id(): ItemId {
      match this
      case NodeItem(n) => NodeItemId(n.id)
      case PropItem(p) => PropItemId(p.id)
    }

    /** ItemState.getParentId(): a node's parent (absent for the root), a property's owner. */
    function ParentId(): Option<NodeId> {
      match this
      case NodeItem(n) => n.parentId
      case PropItem(p) => Some(p.id.parentId)
    }
  }

  /** The target of references plus the properties referring to it. */
  datatype NodeReferences = NodeReferences(targetId: NodeId, referrers: seq<PropertyId>) {
    predicate HasReferences() { |referrers| > 0 }
  }

  datatype ChangeLog = ChangeLog(
    added: seq<ItemState>,
    modified: seq<ItemState>,
    deleted: seq<ItemState>,
    modifiedRefs: seq<NodeReferences>)

  /** The node ids of the node states in a list of item states. */
  function NodeIds(states: seq<ItemState>): (ids: set<NodeId>)
    ensures forall i :: 0 <= i < |states| && states[i].NodeItem? ==> states[i].node.id in ids
    ensures forall n :: n in ids ==> exists i :: 0 <= i < |states| && states[i].NodeItem? && states[i].node.id == n
  {
    set i | 0 <= i < |states| && states[i].NodeItem? :: states[i].node.id
  }
}
