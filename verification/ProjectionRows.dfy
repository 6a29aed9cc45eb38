/** The rows that a source's facts give rise to, written out. */
module ProjectionRows {
  import opened Wrappers
  import opened Contracts
  import opened Store
  import opened Sync
  import opened SyncFrames

  /** The id of the row of an object. */
  function RowOf(tenant: Tenant, ref: Reference): NodeId {
    Projected(Canonical(tenant, ref))
  }

  /** Some live fact is this object, or this relationship. */
  ghost predicate IsLive(live: Generation, r: Record) {
    exists k :: k in live && live[k] == r
  }

  /** The object inventory has one row for each live object, with all it says. */
  ghost predicate ObjectsWritten(tenant: Tenant, sid: SourceId, live: Generation, objects: map<NodeId, ObjectNode>) {
    && (forall ref, name, at, attributes :: IsLive(live, ObjectRecord(ref, name, at, attributes)) ==>
          && RowOf(tenant, ref) in objects
          && objects[RowOf(tenant, ref)] == ObjectNode(
               ref.kind, Canonical(tenant, ref).Text(), Some(tenant), Some(sid), ref.nativeId, name, at, attributes))
    && (forall n :: n in objects ==>
          && n.Projected? && n.id.tenant == tenant
          && IsLive(live, ObjectRecord(n.id.ref, objects[n].displayName, objects[n].observedAt, objects[n].attributes)))
  }

  predicate TakesPart(kind: string) {
    kind in {"user", "group", "role", "permission_set", "service_account", "account", "asset"}
  }

  /** The access graph has one node for each live object of a kind that takes part in authority. */
  ghost predicate NodesWritten(tenant: Tenant, sid: SourceId, live: Generation, nodes: map<NodeId, AccessNode>) {
    && (forall ref, name, at, attributes :: IsLive(live, ObjectRecord(ref, name, at, attributes)) && TakesPart(ref.kind) ==>
          && RowOf(tenant, ref) in nodes
          && nodes[RowOf(tenant, ref)] == AccessNode(
               ref.kind, Canonical(tenant, ref).Text(), Some(tenant), Some(ref.nativeId), Some(sid), Some(at), attributes))
    && (forall n :: n in nodes ==>
          && n.Projected? && n.id.tenant == tenant && TakesPart(n.id.ref.kind)
          && exists name, at :: IsLive(live, ObjectRecord(n.id.ref, name, at, nodes[n].attributes)))
  }

  predicate Transfers(relation: string) {
    relation in {"member_of", "assigned", "can_assume", "role_allows", "account_contains", "contains", "grants"}
  }

  /** Every live relationship allows without conditions. */
  ghost predicate AllAllow(live: Generation) {
    forall subject, relation, target, at, attributes ::
      IsLive(live, RelationshipRecord(subject, relation, target, at, attributes)) ==>
        !attributes.conditions && !attributes.unsupported && attributes.effect == "allow"
  }

  /** The access graph has an edge for each live relationship that transfers authority between nodes that are there, and
      no other; none at all if the connector does not speak for the platform or some relationship is withheld. */
  ghost predicate EdgesWritten(
    tenant: Tenant, sid: SourceId, manifest: Manifest, live: Generation, nodes: map<NodeId, AccessNode>, edges: set<AccessEdge>)
  {
    forall e :: e in edges <==>
      && manifest.platformRelations && AllAllow(live) && Transfers(e.relation) && e.src in nodes && e.dst in nodes
      && exists subject, target, at :: IsLive(live, RelationshipRecord(subject, e.relation, target, at, e.attributes)) &&
           e == AccessEdge(RowOf(tenant, subject), e.relation, RowOf(tenant, target), Some(tenant), Some(sid), Some(at), e.attributes)
  }

  /** The inventory has an edge for each other live relationship between objects that are there, and no other. */
  ghost predicate LinksWritten(
    tenant: Tenant, sid: SourceId, live: Generation, objects: map<NodeId, ObjectNode>, links: set<ObjectEdge>)
  {
    forall e :: e in links <==>
      && !Transfers(e.relation) && e.src in objects && e.dst in objects
      && exists subject, target, at :: IsLive(live, RelationshipRecord(subject, e.relation, target, at, e.attributes)) &&
           e == ObjectEdge(RowOf(tenant, subject), e.relation, RowOf(tenant, target), Some(sid), e.attributes)
  }

  // ------------------------------------------------------------------ The projection writes them

  lemma ObjectsAreWritten(source: Source, sid: SourceId, live: Generation)
    requires Keyed(source.tenant, sid, live)
    ensures ObjectsWritten(source.tenant, sid, live, ProjectedObjects(source, sid, live))
  {
    hide CanonicalId.Text;
    var objects := ProjectedObjects(source, sid, live);
    forall ref, name, at, attributes | IsLive(live, ObjectRecord(ref, name, at, attributes))
      ensures RowOf(source.tenant, ref) in objects
      ensures objects[RowOf(source.tenant, ref)] == ObjectNode(
                ref.kind, Canonical(source.tenant, ref).Text(), Some(source.tenant), Some(sid), ref.nativeId, name, at, attributes)
    {
      assert ObjectKey(Canonical(source.tenant, ref)) in live;
    }
    forall n | n in objects
      ensures n.Projected? && n.id.tenant == source.tenant
      ensures IsLive(live, ObjectRecord(n.id.ref, objects[n].displayName, objects[n].observedAt, objects[n].attributes))
    {
      assert live[ObjectKey(n.id)] == ObjectRecord(n.id.ref, objects[n].displayName, objects[n].observedAt, objects[n].attributes);
    }
  }

  lemma NodesAreWritten(source: Source, sid: SourceId, live: Generation)
    requires Keyed(source.tenant, sid, live)
    ensures NodesWritten(source.tenant, sid, live, ProjectedNodes(source, sid, live))
  {
    hide CanonicalId.Text;
    var nodes := ProjectedNodes(source, sid, live);
    forall ref, name, at, attributes | IsLive(live, ObjectRecord(ref, name, at, attributes)) && TakesPart(ref.kind)
      ensures RowOf(source.tenant, ref) in nodes
      ensures nodes[RowOf(source.tenant, ref)] == AccessNode(
                ref.kind, Canonical(source.tenant, ref).Text(), Some(source.tenant), Some(ref.nativeId), Some(sid), Some(at), attributes)
    {
      assert ObjectKey(Canonical(source.tenant, ref)) in live;
    }
    forall n | n in nodes
      ensures n.Projected? && n.id.tenant == source.tenant && TakesPart(n.id.ref.kind)
      ensures exists name, at :: IsLive(live, ObjectRecord(n.id.ref, name, at, nodes[n].attributes))
    {
      var o := live[ObjectKey(n.id)];
      assert o == ObjectRecord(n.id.ref, o.displayName, o.observedAt, nodes[n].attributes);
    }
  }

  lemma WithheldExactly(live: Generation)
    ensures AllAllow(live) <==> !Withheld(live)
  {
    if AllAllow(live) {
      forall k | k in live && live[k].RelationshipRecord? ensures !live[k].attributes.Withholds() {
        var r := live[k];
        assert IsLive(live, RelationshipRecord(r.subject, r.relation, r.target, r.observedAt, r.attributes));
      }
    }
  }

  lemma EdgesAreWritten(source: Source, sid: SourceId, manifest: Manifest, live: Generation, nodes: map<NodeId, AccessNode>)
    ensures EdgesWritten(source.tenant, sid, manifest, live, nodes, ProjectedEdges(source, sid, manifest, live, nodes))
  {
    WithheldExactly(live);
    hide AllAllow, Withheld;
    var edges := ProjectedEdges(source, sid, manifest, live, nodes);
    forall e | e in edges
      ensures exists subject, target, at :: IsLive(live, RelationshipRecord(subject, e.relation, target, at, e.attributes)) &&
                e == AccessEdge(RowOf(source.tenant, subject), e.relation, RowOf(source.tenant, target), Some(source.tenant), Some(sid), Some(at), e.attributes)
    {
      var k :| k in live && live[k].RelationshipRecord? && e == AccessEdgeOf(source, sid, live[k]);
      var r := live[k];
      assert IsLive(live, r) && r == RelationshipRecord(r.subject, r.relation, r.target, r.observedAt, r.attributes);
    }
  }

  lemma LinksAreWritten(source: Source, sid: SourceId, live: Generation, objects: map<NodeId, ObjectNode>)
    ensures LinksWritten(source.tenant, sid, live, objects, ProjectedObjectEdges(source, sid, live, objects))
  {
    var links := ProjectedObjectEdges(source, sid, live, objects);
    forall e | e in links
      ensures exists subject, target, at :: IsLive(live, RelationshipRecord(subject, e.relation, target, at, e.attributes)) &&
                e == ObjectEdge(RowOf(source.tenant, subject), e.relation, RowOf(source.tenant, target), Some(sid), e.attributes)
    {
      var k :| k in live && live[k].RelationshipRecord? && e == ObjectEdgeOf(source, sid, live[k]);
      var r := live[k];
      assert IsLive(live, r) && r == RelationshipRecord(r.subject, r.relation, r.target, r.observedAt, r.attributes);
    }
  }

  ghost predicate Written(tenant: Tenant, sid: SourceId, manifest: Manifest, db: Db) {
    && ObjectsWritten(tenant, sid, db.Facts(sid, LIVE), OwnObjects(db, Some(sid)))
    && NodesWritten(tenant, sid, db.Facts(sid, LIVE), OwnNodes(db, Some(sid)))
    && EdgesWritten(tenant, sid, manifest, db.Facts(sid, LIVE), db.accessNodes, OwnEdges(db, Some(sid)))
    && LinksWritten(tenant, sid, db.Facts(sid, LIVE), db.objectNodes, OwnObjectEdges(db, Some(sid)))
  }

  /** After an accepted complete or delta message, the source's rows are exactly those its live facts call for, column
      by column. */
  lemma PublishedRowsExactly(db: Db, sid: SourceId, m: SyncMessage, now: Time)
    requires sid in db.sources && sid in db.states && Publishes(m) && Apply(db, sid, m, now).Accepted?
    requires WellFormed(db)
    ensures Written(db.sources[sid].tenant, sid, db.states[sid].manifest, Apply(db, sid, m, now).db)
  {
    hide Apply, WellFormed, ProjectedNodes, ProjectedEdges, ProjectedObjects, ProjectedObjectEdges;
    hide ObjectsWritten, NodesWritten, EdgesWritten, LinksWritten, Keyed;
    var after, source, manifest := Apply(db, sid, m, now).db, db.sources[sid], db.states[sid].manifest;
    AcceptedRows(db, sid, m, now, Some(sid));
    var live := after.Facts(sid, LIVE);
    AcceptedIsKeyed(db, sid, m, now);
    ObjectsAreWritten(source, sid, live);
    NodesAreWritten(source, sid, live);
    EdgesAreWritten(source, sid, manifest, live, after.accessNodes);
    LinksAreWritten(source, sid, live, after.objectNodes);
  }
}
