/**
 * The bundle: one node's header fields and all of its stored properties.
 * NodePropBundle itself is not part of this model; these functions state the
 * behaviour the persistence manager relies on when it calls the bundle.
 */
module Bundles {
  import opened Ids

  /** A stored property record (NodePropBundle.PropertyEntry). */
  datatype PropertyEntry = PropertyEntry(propType: int, multiValued: bool, values: seq<Value>)

  datatype Bundle = Bundle(
    id: NodeId,
    parentId: Option<NodeId>,
    nodeTypeName: QName,
    mixinTypeNames: seq<QName>,
    childEntries: seq<ChildEntry>,
    properties: map<QName, PropertyEntry>,
    isNew: bool)

  /** The header fields of a bundle: everything but its id, properties and status. */
  datatype Header = Header(
    parentId: Option<NodeId>,
    nodeTypeName: QName,
    mixinTypeNames: seq<QName>,
    childEntries: seq<ChildEntry>)

  function HeaderOf(b: Bundle): Header {
    Header(b.parentId, b.nodeTypeName, b.mixinTypeNames, b.childEntries)
  }

  /** The header a node state describes. */
  function StateHeader(s: NodeState): Header {
    Header(s.parentId, s.nodeTypeName, s.mixinTypeNames, s.childEntries)
  }

  /** The property record of a bundle under a name, if any. */
  function Lookup(b: Bundle, name: QName): Option<PropertyEntry> {
    if name in b.properties then Some(b.properties[name]) else None
  }

  /** new NodePropBundle(NodeState): a fresh, new bundle with no properties yet. */
  function FromNodeState(s: NodeState): (b: Bundle)
    ensures b.id == s.id && b.isNew && b.properties == map[]
    ensures HeaderOf(b) == StateHeader(s)
  {
    Bundle(s.id, s.parentId, s.nodeTypeName, s.mixinTypeNames, s.childEntries, map[], true)
  }

  /** NodePropBundle.update(NodeState): takes over the header fields, keeps the properties. */
  function Update(b: Bundle, s: NodeState): (r: Bundle)
    ensures r.id == b.id && r.properties == b.properties && r.isNew == b.isNew
    ensures HeaderOf(r) == StateHeader(s)
  {
    b.(parentId := s.parentId, nodeTypeName := s.nodeTypeName,
       mixinTypeNames := s.mixinTypeNames, childEntries := s.childEntries)
  }

  function EntryOf(p: PropertyState): PropertyEntry {
    PropertyEntry(p.propType, p.multiValued, p.values)
  }

  /** NodePropBundle.addProperty: inserts or replaces the record under the property's name. */
  function AddProperty(b: Bundle, p: PropertyState): (r: Bundle)
    ensures r.id == b.id && r.isNew == b.isNew && HeaderOf(r) == HeaderOf(b)
    ensures Lookup(r, p.id.name) == Some(EntryOf(p))
    ensures forall n :: n != p.id.name ==> Lookup(r, n) == Lookup(b, n)
  {
    b.(properties := b.properties[p.id.name := EntryOf(p)])
  }

  /** NodePropBundle.removeProperty: drops the record with that name, if any. */
  function RemoveProperty(b: Bundle, name: QName): (r: Bundle)
    ensures r.id == b.id && r.isNew == b.isNew && HeaderOf(r) == HeaderOf(b)
    ensures Lookup(r, name) == None
    ensures forall n :: n != name ==> Lookup(r, n) == Lookup(b, n)
  {
    b.(properties := b.properties - {name})
  }

  /** NodePropBundle.markOld. */
  function MarkOld(b: Bundle): (r: Bundle)
    ensures !r.isNew && r.properties == b.properties && r.id == b.id && HeaderOf(r) == HeaderOf(b)
  {
    b.(isNew := false)
  }

  /** NodePropBundle.createPropertyState: the stored record under that name, if any. */
  function CreatePropertyState(b: Bundle, name: QName): (r: Option<PropertyState>)
    ensures r.Some? <==> name in b.properties
    ensures r.Some? ==> r.value.id == PropertyId(b.id, name) && EntryOf(r.value) == b.properties[name]
  {
    if name in b.properties then
      var e := b.properties[name];
      Some(PropertyState(PropertyId(b.id, name), e.propType, e.multiValued, e.values))
    else None
  }

  /** NodePropBundle.createNodeState: the node state described by the header fields. */
  function CreateNodeState(b: Bundle): (s: NodeState)
    ensures Update(b, s) == b && s.id == b.id
  {
    NodeState(b.id, b.parentId, b.nodeTypeName, b.mixinTypeNames, b.childEntries)
  }

  /** NodePropBundle.hasProperty, taken as membership in the stored property mapping. */
  predicate HasProperty(b: Bundle, name: QName) {
    name in b.properties
  }

  /** What a storage backend keeps of a bundle: the identity properties are not
      serialized (they are rebuilt from the header) and the new/old status is not either. */
  function Persisted(b: Bundle): (r: Bundle)
    ensures r.id == b.id && !r.isNew && HeaderOf(r) == HeaderOf(b)
    ensures forall n :: !IsIdentityName(n) ==> Lookup(r, n) == Lookup(b, n)
    ensures forall n :: IsIdentityName(n) ==> Lookup(r, n) == None
  {
    b.(properties := b.properties - IdentityNames, isNew := false)
  }

  predicate NoIdentityProperties(b: Bundle) {
    forall n :: n in b.properties ==> !IsIdentityName(n)
  }

  lemma PersistedIdempotent(b: Bundle)
    ensures Persisted(Persisted(b)) == Persisted(b)
  {
    assert Persisted(b).properties - IdentityNames == Persisted(b).properties;
  }

  /** Each bundle operation the change-log applicator uses respects equality of persisted forms:
      a cached bundle that differs from the stored one only by registered identity properties
      is written back exactly as the stored one would be. */
  lemma PersistedUpdate(b1: Bundle, b2: Bundle, s: NodeState)
    requires Persisted(b1) == Persisted(b2)
    ensures Persisted(Update(b1, s)) == Persisted(Update(b2, s))
  {
    assert b1.properties - IdentityNames == b2.properties - IdentityNames by {
      assert Persisted(b1).properties == Persisted(b2).properties;
    }
  }

  /** Two bundles whose records agree under every name have the same property map. */
  lemma LookupExtensional(a: Bundle, b: Bundle)
    requires forall n :: Lookup(a, n) == Lookup(b, n)
    ensures a.properties == b.properties
  {
    forall n | n in a.properties ensures n in b.properties && a.properties[n] == b.properties[n] {
      assert Lookup(a, n) == Lookup(b, n);
    }
    forall n | n in b.properties ensures n in a.properties {
      assert Lookup(a, n) == Lookup(b, n);
    }
  }

  lemma PersistedAddProperty(b1: Bundle, b2: Bundle, p: PropertyState)
    requires Persisted(b1) == Persisted(b2)
    ensures Persisted(AddProperty(b1, p)) == Persisted(AddProperty(b2, p))
  {
    var r1, r2 := Persisted(AddProperty(b1, p)), Persisted(AddProperty(b2, p));
    forall n ensures Lookup(r1, n) == Lookup(r2, n) {
      if !IsIdentityName(n) && n != p.id.name {
        assert Lookup(b1, n) == Lookup(Persisted(b1), n) == Lookup(Persisted(b2), n) == Lookup(b2, n);
      }
    }
    LookupExtensional(r1, r2);
    assert HeaderOf(b1) == HeaderOf(Persisted(b1)) == HeaderOf(Persisted(b2)) == HeaderOf(b2);
  }

  lemma PersistedRemoveProperty(b1: Bundle, b2: Bundle, name: QName)
    requires Persisted(b1) == Persisted(b2)
    ensures Persisted(RemoveProperty(b1, name)) == Persisted(RemoveProperty(b2, name))
  {
    var r1, r2 := Persisted(RemoveProperty(b1, name)), Persisted(RemoveProperty(b2, name));
    forall n ensures Lookup(r1, n) == Lookup(r2, n) {
      if !IsIdentityName(n) && n != name {
        assert Lookup(b1, n) == Lookup(Persisted(b1), n) == Lookup(Persisted(b2), n) == Lookup(b2, n);
      }
    }
    LookupExtensional(r1, r2);
    assert HeaderOf(b1) == HeaderOf(Persisted(b1)) == HeaderOf(Persisted(b2)) == HeaderOf(b2);
  }

  /** Registering an identity property in a bundle does not change what is persisted. */
  lemma PersistedAddIdentity(b: Bundle, p: PropertyState)
    requires IsIdentityName(p.id.name)
    ensures Persisted(AddProperty(b, p)) == Persisted(b)
  {
    var m1 := AddProperty(b, p).properties - IdentityNames;
    var m2 := b.properties - IdentityNames;
    assert forall n :: n in m1 <==> n in m2;
    assert m1 == m2;
  }
}
