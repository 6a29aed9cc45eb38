/** The tables of the control plane that synchronisation, ingestion and path
    resolution share. A value of type `Db` is one committed database state. */
module Store {
  import opened Wrappers
  import opened Contracts

  /** A row id is either projected from a canonical reference or freshly assigned. */
  datatype NodeId = Projected(id: CanonicalId) | Assigned(row: nat)

  const ALLOWED_KINDS: set<string> :=
    {"user", "group", "role", "permission_set", "service_account", "account", "asset"}

  /** Relations that transfer authority from a principal toward resources. */
  const TRAVERSABLE: set<string> :=
    {"member_of", "assigned", "can_assume", "role_allows", "account_contains", "contains", "grants"}

  datatype Source = Source(
    tenant: Tenant, provider: string, allowedNamespace: string, enabled: bool, lastSyncAt: Option<Time>)

  datatype AccessNode = AccessNode(
    kind: string, name: string, tenant: Option<Tenant>, externalId: Option<string>,
    sourceId: Option<SourceId>, observedAt: Option<Time>, attributes: Attributes)

  datatype AccessEdge = AccessEdge(
    src: NodeId, relation: string, dst: NodeId, tenant: Option<Tenant>,
    sourceId: Option<SourceId>, observedAt: Option<Time>, attributes: Attributes)

  /** `owner` is the `_source_id` entry of the row's attributes. */
  datatype ObjectNode = ObjectNode(
    kind: string, name: string, tenant: Option<Tenant>, owner: Option<SourceId>,
    nativeId: string, displayName: string, observedAt: Time, attributes: Attributes)

  datatype ObjectEdge = ObjectEdge(
    src: NodeId, relation: string, dst: NodeId, owner: Option<SourceId>, attributes: Attributes)

  datatype ConnectorState = ConnectorState(
    manifest: Manifest, sequence: nat, snapshot: Option<string>, coverage: Coverage)

  datatype Ack = Ack(sourceId: SourceId, sequence: nat, operation: Operation, coverage: Coverage)

  /** The digest of a message determines the message, so the message stands for it. */
  datatype Receipt = Receipt(digest: SyncMessage, result: Ack)

  datatype ReceiptId = ReceiptId(sourceId: SourceId, sequence: nat)

  /** All facts of one source in one generation, unique by key. */
  type Generation = map<FactKey, Record>

  datatype Slot = Slot(sourceId: SourceId, generation: string)

  function FactsAt(facts: map<Slot, Generation>, slot: Slot): Generation {
    if slot in facts then facts[slot] else map[]
  }

  /** Rewrites one generation; a generation without facts has no rows, hence no entry. */
  function WithFacts(facts: map<Slot, Generation>, slot: Slot, gen: Generation): map<Slot, Generation> {
    if gen == map[] then facts - {slot} else facts[slot := gen]
  }

  lemma WithFactsAt(facts: map<Slot, Generation>, slot: Slot, gen: Generation)
    ensures forall s :: FactsAt(WithFacts(facts, slot, gen), s) == if s == slot then gen else FactsAt(facts, s)
    ensures forall s :: FactsAt(facts - {slot}, s) == if s == slot then map[] else FactsAt(facts, s)
    ensures slot in WithFacts(facts, slot, gen) <==> gen != map[]
    ensures forall s :: s != slot ==> (s in WithFacts(facts, slot, gen) <==> s in facts)
  {
  }

  datatype Db = Db(
    sources: map<SourceId, Source>,
    states: map<SourceId, ConnectorState>,
    facts: map<Slot, Generation>,
    receipts: map<ReceiptId, Receipt>,
    accessNodes: map<NodeId, AccessNode>,
    accessEdges: set<AccessEdge>,
    objectNodes: map<NodeId, ObjectNode>,
    objectEdges: set<ObjectEdge>,
    nextRow: nat)
  {
    function Facts(sourceId: SourceId, generation: string): Generation {
      FactsAt(facts, Slot(sourceId, generation))
    }
  }

  /** UniqueConstraint("kind", "name") on access nodes. */
  ghost predicate UniqueNames(nodes: map<NodeId, AccessNode>) {
    forall i, j :: i in nodes && j in nodes && nodes[i].kind == nodes[j].kind && nodes[i].name == nodes[j].name ==> i == j
  }

  /** Every fact is stored under the key of its record, and a source's objects are its own. */
  ghost predicate Keyed(tenant: Tenant, sid: SourceId, gen: Generation) {
    forall k :: k in gen ==> k == gen[k].Key(tenant) && (gen[k].ObjectRecord? ==> gen[k].ref.sourceId == sid)
  }

  /** The same constraint on object nodes. */
  ghost predicate UniqueObjectNames(nodes: map<NodeId, ObjectNode>) {
    forall i, j :: i in nodes && j in nodes && nodes[i].kind == nodes[j].kind && nodes[i].name == nodes[j].name ==> i == j
  }

  /** Rows with a canonical id belong to the source the id names, and bear its text. */
  ghost predicate OwnedNodes(nodes: map<NodeId, AccessNode>) {
    forall n :: n in nodes ==>
      match n
      case Projected(id) =>
        && nodes[n].sourceId == Some(id.ref.sourceId)
        && nodes[n].name == id.Text()
        && nodes[n].tenant == Some(id.tenant)
      case Assigned(_) => true
  }

  /** The object graph's owned rows are the canonical ones, in the tenant of their owner. */
  ghost predicate OwnedObjects(sources: map<SourceId, Source>, objects: map<NodeId, ObjectNode>) {
    forall n :: n in objects ==>
      match objects[n].owner
      case None => n.Assigned?
      case Some(s) =>
        && n.Projected? && n.id.ref.sourceId == s && s in sources && objects[n].tenant == Some(sources[s].tenant)
        && objects[n].name == n.id.Text()
  }

  ghost predicate NoEmptySlots(facts: map<Slot, Generation>) {
    forall s :: s in facts ==> facts[s] != map[]
  }

  ghost predicate WellFormed(db: Db) {
    && NoEmptySlots(db.facts)
    && (forall s :: s in db.facts ==>
          s.sourceId in db.sources && Keyed(db.sources[s.sourceId].tenant, s.sourceId, db.facts[s]))
    && db.states.Keys <= db.sources.Keys
    && OwnedNodes(db.accessNodes)
    && OwnedObjects(db.sources, db.objectNodes)
  }
}
