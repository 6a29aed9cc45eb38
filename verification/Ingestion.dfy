/** Legacy collector batches: an ownership-checked upsert of nodes and edges, all or nothing. */
module Ingestion {
  import opened Wrappers
  import opened Contracts
  import opened Store

  datatype Ref = Ref(kind: string, id: string)

  datatype Relationship = Relationship(
    subject: Ref, relation: string, target: Ref, attributes: Attributes, attributesIsObject: bool)

  datatype IngestError =
    | VersionedConnector | InvalidBatch | FutureObservation | ForeignNode | KindMismatch | UniqueViolation

  datatype Summary = Summary(relationships: nat, nodesCreated: nat, edgesCreated: nat, edgesUpdated: nat, observedAt: Time)

  /** The graph tables, the batch's node cache and its counters, as one relationship after another is applied. */
  datatype Progress = Progress(
    nodes: map<NodeId, AccessNode>, edges: set<AccessEdge>, nextRow: nat, cache: map<string, NodeId>,
    nodesCreated: nat, edgesCreated: nat, edgesUpdated: nat)

  predicate RefPermitted(source: Source, ref: Ref) {
    ref.kind in ALLOWED_KINDS && ref.id != "" && source.allowedNamespace <= ref.id
  }

  predicate Permitted(source: Source, rel: Relationship) {
    && RefPermitted(source, rel.subject) && RefPermitted(source, rel.target)
    && rel.relation in TRAVERSABLE && rel.attributesIsObject
  }

  predicate BatchPermitted(source: Source, batch: seq<Relationship>, limit: nat) {
    0 < |batch| <= limit && source.enabled && forall rel :: rel in batch ==> Permitted(source, rel)
  }

  /** `rows` is the row a lookup by external id and tenant returns, where there is one. */
  ghost predicate IsLookup(nodes: map<NodeId, AccessNode>, tenant: Tenant, rows: map<string, NodeId>) {
    && (forall x :: x in rows ==>
          rows[x] in nodes && nodes[rows[x]].externalId == Some(x) && nodes[rows[x]].tenant == Some(tenant))
    && (forall n :: n in nodes && nodes[n].tenant == Some(tenant) && nodes[n].externalId.Some? ==>
          nodes[n].externalId.value in rows)
  }

  predicate NameTaken(nodes: map<NodeId, AccessNode>, kind: string, name: string) {
    exists n :: n in nodes && nodes[n].kind == kind && nodes[n].name == name
  }

  function NewNode(source: Source, sid: SourceId, ref: Ref, at: Time): AccessNode {
    AccessNode(ref.kind, ref.id, Some(source.tenant), Some(ref.id), Some(sid), Some(at), NO_ATTRIBUTES)
  }

  /** Rows that the cache or the lookup names exist. */
  predicate Consistent(p: Progress, rows: map<string, NodeId>) {
    (forall x :: x in p.cache ==> p.cache[x] in p.nodes) && (forall x :: x in rows ==> rows[x] in p.nodes)
  }

  /** Finds or creates the node of a reference. Another source's node is never touched. */
  function UpsertNode(
    p: Progress, source: Source, sid: SourceId, rows: map<string, NodeId>, ref: Ref, at: Time): (r: Result<Progress, IngestError>)
    requires Consistent(p, rows)
    ensures r.Success? ==>
              && Consistent(r.value, rows) && p.nodes.Keys <= r.value.nodes.Keys
              && r.value.cache.Keys == p.cache.Keys + {ref.id} && r.value.edges == p.edges
  {
    if ref.id in p.cache then Touch(p, sid, rows, ref, p.cache[ref.id], at)
    else if ref.id in rows then Touch(p, sid, rows, ref, rows[ref.id], at)
    else if NameTaken(p.nodes, ref.kind, ref.id) then Failure(UniqueViolation)
    else
      var n := Assigned(p.nextRow);
      var inserted := p.(nodes := p.nodes[n := NewNode(source, sid, ref, at)],
                         nextRow := p.nextRow + 1, nodesCreated := p.nodesCreated + 1);
      Touch(inserted, sid, rows, ref, n, at)
  }

  /** The checks and the time stamp that every node of a batch receives. */
  function Touch(
    p: Progress, sid: SourceId, rows: map<string, NodeId>, ref: Ref, n: NodeId, at: Time): (r: Result<Progress, IngestError>)
    requires Consistent(p, rows) && n in p.nodes
    ensures r.Success? ==>
              && Consistent(r.value, rows) && r.value.nodes.Keys == p.nodes.Keys
              && r.value.cache.Keys == p.cache.Keys + {ref.id} && r.value.edges == p.edges
  {
    if p.nodes[n].sourceId != Some(sid) then Failure(ForeignNode)
    else if p.nodes[n].kind != ref.kind then Failure(KindMismatch)
    else Success(p.(nodes := p.nodes[n := p.nodes[n].(observedAt := Some(at))], cache := p.cache[ref.id := n]))
  }

  predicate Connects(e: AccessEdge, src: NodeId, relation: string, dst: NodeId) {
    e.src == src && e.relation == relation && e.dst == dst
  }

  /** Rewrites the edge between two nodes, or creates it. */
  function UpsertEdge(
    p: Progress, source: Source, sid: SourceId, src: NodeId, relation: string, dst: NodeId, attributes: Attributes, at: Time): Progress
  {
    if exists e :: e in p.edges && Connects(e, src, relation, dst) then
      p.(edges := set e | e in p.edges ::
                    if Connects(e, src, relation, dst)
                    then e.(attributes := attributes, sourceId := Some(sid), observedAt := Some(at)) else e,
         edgesUpdated := p.edgesUpdated + 1)
    else
      p.(edges := p.edges + {AccessEdge(src, relation, dst, Some(source.tenant), Some(sid), Some(at), attributes)},
         edgesCreated := p.edgesCreated + 1)
  }

  function UpsertRelationship(
    p: Progress, source: Source, sid: SourceId, rows: map<string, NodeId>, rel: Relationship, at: Time):
    (r: Result<Progress, IngestError>)
    requires Consistent(p, rows)
    ensures r.Success? ==> Consistent(r.value, rows) && p.nodes.Keys <= r.value.nodes.Keys
  {
    var p1 :- UpsertNode(p, source, sid, rows, rel.subject, at);
    var p2 :- UpsertNode(p1, source, sid, rows, rel.target, at);
    Success(UpsertEdge(p2, source, sid, p2.cache[rel.subject.id], rel.relation, p2.cache[rel.target.id], rel.attributes, at))
  }

  function UpsertBatch(
    p: Progress, source: Source, sid: SourceId, rows: map<string, NodeId>, batch: seq<Relationship>, at: Time):
    (r: Result<Progress, IngestError>)
    requires Consistent(p, rows)
    ensures r.Success? ==> Consistent(r.value, rows) && p.nodes.Keys <= r.value.nodes.Keys
  {
    if batch == [] then Success(p)
    else
      var front :- UpsertBatch(p, source, sid, rows, batch[..|batch| - 1], at);
      UpsertRelationship(front, source, sid, rows, batch[|batch| - 1], at)
  }

  function Start(db: Db): Progress {
    Progress(db.accessNodes, db.accessEdges, db.nextRow, map[], 0, 0, 0)
  }

  /** One batch as one transaction. */
  function Ingest(
    db: Db, sid: SourceId, batch: seq<Relationship>, rows: map<string, NodeId>,
    observedAt: Option<Time>, now: Time, limit: nat): Result<(Db, Summary), IngestError>
    requires sid in db.sources && Consistent(Start(db), rows)
  {
    var source, at := db.sources[sid], if observedAt.Some? then observedAt.value else now;
    if sid in db.states then Failure(VersionedConnector)
    else if !BatchPermitted(source, batch, limit) then Failure(InvalidBatch)
    else if at > now then Failure(FutureObservation)
    else
      var p :- UpsertBatch(Start(db), source, sid, rows, batch, at);
      Success((db.(accessNodes := p.nodes, accessEdges := p.edges, nextRow := p.nextRow,
                   sources := db.sources[sid := source.(lastSyncAt := Some(at))]),
               Summary(|batch|, p.nodesCreated, p.edgesCreated, p.edgesUpdated, at)))
  }

  // ------------------------------------------------------------------ What a batch changes

  /** A row keeps all but its time stamp, and only the source's own rows change even that. */
  ghost predicate RowKept(before: AccessNode, after: AccessNode, sid: SourceId) {
    after == before.(observedAt := after.observedAt) && (after == before || before.sourceId == Some(sid))
  }

  /** A new row is the source's own and inside its namespace. */
  ghost predicate RowAdded(row: AccessNode, source: Source, sid: SourceId) {
    && row.tenant == Some(source.tenant) && row.sourceId == Some(sid)
    && row.externalId.Some? && row.name == row.externalId.value
    && source.allowedNamespace <= row.externalId.value && row.kind in ALLOWED_KINDS
  }

  ghost predicate NodesGrown(p0: Progress, p: Progress, source: Source, sid: SourceId) {
    && p0.nextRow <= p.nextRow
    && (forall n :: n in p0.nodes ==> n in p.nodes && RowKept(p0.nodes[n], p.nodes[n], sid))
    && (forall n :: n in p.nodes && n !in p0.nodes ==>
          n.Assigned? && p0.nextRow <= n.row < p.nextRow && RowAdded(p.nodes[n], source, sid))
    && (forall x :: x in p.cache ==> Owns(p.nodes, sid, p.cache[x]))
  }

  ghost predicate Owns(nodes: map<NodeId, AccessNode>, sid: SourceId, n: NodeId) {
    n in nodes && nodes[n].sourceId == Some(sid)
  }

  /** An edge a batch wrote: between the source's own nodes, and owned by it. */
  ghost predicate Written(p0: Progress, p: Progress, source: Source, sid: SourceId, e: AccessEdge) {
    && e.sourceId == Some(sid)
    && Owns(p.nodes, sid, e.src) && Owns(p.nodes, sid, e.dst)
    && (e.tenant == Some(source.tenant)
        || exists f :: f in p0.edges && Connects(f, e.src, e.relation, e.dst) && f.tenant == e.tenant)
  }

  ghost predicate EdgesGrown(p0: Progress, p: Progress, source: Source, sid: SourceId) {
    forall e :: e in p.edges ==> e in p0.edges || Written(p0, p, source, sid, e)
  }

  /** Rows below the row counter. */
  ghost predicate Numbered(p: Progress) {
    forall n :: n in p.nodes && n.Assigned? ==> n.row < p.nextRow
  }

  lemma TouchGrows(
    p0: Progress, p: Progress, source: Source, sid: SourceId, rows: map<string, NodeId>, ref: Ref, n: NodeId, at: Time)
    requires Consistent(p, rows) && n in p.nodes && NodesGrown(p0, p, source, sid) && Numbered(p)
    ensures var r := Touch(p, sid, rows, ref, n, at);
            r.Success? ==>
              && NodesGrown(p0, r.value, source, sid) && Numbered(r.value)
              && (forall m :: Owns(p.nodes, sid, m) ==> Owns(r.value.nodes, sid, m))
  {
    if Touch(p, sid, rows, ref, n, at).Success? {
      StampGrows(p0, p, Touch(p, sid, rows, ref, n, at).value, source, sid, ref.id, n, at);
    }
  }

  lemma StampGrows(p0: Progress, p: Progress, q: Progress, source: Source, sid: SourceId, x: string, n: NodeId, at: Time)
    requires NodesGrown(p0, p, source, sid) && n in p.nodes && p.nodes[n].sourceId == Some(sid)
    requires q == p.(nodes := p.nodes[n := p.nodes[n].(observedAt := Some(at))], cache := p.cache[x := n])
    ensures NodesGrown(p0, q, source, sid)
  {
    assert Owns(p.nodes, sid, n);
    forall m | m in p0.nodes ensures m in q.nodes && RowKept(p0.nodes[m], q.nodes[m], sid) {
      assert RowKept(p0.nodes[m], p.nodes[m], sid);
    }
  }

  lemma InsertGrows(p0: Progress, p: Progress, source: Source, sid: SourceId, ref: Ref, at: Time)
    requires NodesGrown(p0, p, source, sid) && Numbered(p) && RefPermitted(source, ref)
    ensures var q := p.(nodes := p.nodes[Assigned(p.nextRow) := NewNode(source, sid, ref, at)],
                        nextRow := p.nextRow + 1, nodesCreated := p.nodesCreated + 1);
            && NodesGrown(p0, q, source, sid) && Numbered(q)
            && (forall m :: Owns(p.nodes, sid, m) ==> Owns(q.nodes, sid, m))
  {
    assert RowAdded(NewNode(source, sid, ref, at), source, sid);
    hide RowKept, RowAdded, RefPermitted, NewNode;
  }

  lemma UpsertNodeGrows(
    p0: Progress, p: Progress, source: Source, sid: SourceId, rows: map<string, NodeId>, ref: Ref, at: Time)
    requires Consistent(p, rows) && NodesGrown(p0, p, source, sid) && RefPermitted(source, ref) && Numbered(p)
    ensures var r := UpsertNode(p, source, sid, rows, ref, at);
            r.Success? ==>
              && NodesGrown(p0, r.value, source, sid) && Numbered(r.value)
              && (forall m :: Owns(p.nodes, sid, m) ==> Owns(r.value.nodes, sid, m))
  {
    hide NodesGrown, RefPermitted, NewNode, Touch, Owns, Numbered;
    if ref.id in p.cache {
      TouchGrows(p0, p, source, sid, rows, ref, p.cache[ref.id], at);
    } else if ref.id in rows {
      TouchGrows(p0, p, source, sid, rows, ref, rows[ref.id], at);
    } else {
      var n := Assigned(p.nextRow);
      InsertGrows(p0, p, source, sid, ref, at);
      var inserted := p.(nodes := p.nodes[n := NewNode(source, sid, ref, at)],
                         nextRow := p.nextRow + 1, nodesCreated := p.nodesCreated + 1);
      TouchGrows(p0, inserted, source, sid, rows, ref, n, at);
    }
  }

  lemma {:induction false} BatchGrows(
    p0: Progress, source: Source, sid: SourceId, rows: map<string, NodeId>, batch: seq<Relationship>, at: Time)
    requires Consistent(p0, rows) && p0.cache == map[]
    requires forall rel :: rel in batch ==> Permitted(source, rel)
    requires Numbered(p0)
    ensures var r := UpsertBatch(p0, source, sid, rows, batch, at);
            r.Success? ==>
              && NodesGrown(p0, r.value, source, sid) && EdgesGrown(p0, r.value, source, sid) && Numbered(r.value)
  {
    if batch != [] && UpsertBatch(p0, source, sid, rows, batch, at).Success? {
      var rel := batch[|batch| - 1];
      BatchGrows(p0, source, sid, rows, batch[..|batch| - 1], at);
      var p := UpsertBatch(p0, source, sid, rows, batch[..|batch| - 1], at).value;
      RelationshipGrows(p0, p, source, sid, rows, rel, at);
    }
  }

  lemma RelationshipGrows(
    p0: Progress, p: Progress, source: Source, sid: SourceId, rows: map<string, NodeId>, rel: Relationship, at: Time)
    requires Consistent(p, rows) && Permitted(source, rel) && Numbered(p)
    requires NodesGrown(p0, p, source, sid) && EdgesGrown(p0, p, source, sid)
    ensures var r := UpsertRelationship(p, source, sid, rows, rel, at);
            r.Success? ==>
              NodesGrown(p0, r.value, source, sid) && EdgesGrown(p0, r.value, source, sid) && Numbered(r.value)
  {
    hide UpsertNode, RefPermitted, RowKept, RowAdded, Consistent, UpsertEdge, Numbered;
    UpsertNodeGrows(p0, p, source, sid, rows, rel.subject, at);
    var first := UpsertNode(p, source, sid, rows, rel.subject, at);
    if first.Success? {
      UpsertNodeGrows(p0, first.value, source, sid, rows, rel.target, at);
      var second := UpsertNode(first.value, source, sid, rows, rel.target, at);
      if second.Success? {
        EdgeStepGrows(p0, p, second.value, source, sid, rel, at);
      }
    }
  }

  lemma EdgeStepGrows(p0: Progress, p: Progress, p2: Progress, source: Source, sid: SourceId, rel: Relationship, at: Time)
    requires p2.edges == p.edges && EdgesGrown(p0, p, source, sid)
    requires forall m :: Owns(p.nodes, sid, m) ==> Owns(p2.nodes, sid, m)
    requires NodesGrown(p0, p2, source, sid) && Numbered(p2)
    requires rel.subject.id in p2.cache && rel.target.id in p2.cache
    ensures var q := UpsertEdge(p2, source, sid, p2.cache[rel.subject.id], rel.relation, p2.cache[rel.target.id], rel.attributes, at);
            NodesGrown(p0, q, source, sid) && EdgesGrown(p0, q, source, sid) && Numbered(q)
  {
    hide RowKept, RowAdded, Owns;
  }

  // ------------------------------------------------------------------ Names stay unique

  lemma TouchKeepsNames(p: Progress, sid: SourceId, rows: map<string, NodeId>, ref: Ref, n: NodeId, at: Time)
    requires Consistent(p, rows) && n in p.nodes && UniqueNames(p.nodes)
    ensures var r := Touch(p, sid, rows, ref, n, at);
            r.Success? ==> UniqueNames(r.value.nodes)
  {
  }

  lemma UpsertNodeKeepsNames(
    p: Progress, source: Source, sid: SourceId, rows: map<string, NodeId>, ref: Ref, at: Time)
    requires Consistent(p, rows) && UniqueNames(p.nodes)
    ensures var r := UpsertNode(p, source, sid, rows, ref, at);
            r.Success? ==> UniqueNames(r.value.nodes)
  {
    if ref.id in p.cache {
      TouchKeepsNames(p, sid, rows, ref, p.cache[ref.id], at);
    } else if ref.id in rows {
      TouchKeepsNames(p, sid, rows, ref, rows[ref.id], at);
    } else if !NameTaken(p.nodes, ref.kind, ref.id) {
      var n := Assigned(p.nextRow);
      var inserted := p.(nodes := p.nodes[n := NewNode(source, sid, ref, at)],
                         nextRow := p.nextRow + 1, nodesCreated := p.nodesCreated + 1);
      assert UniqueNames(inserted.nodes);
      TouchKeepsNames(inserted, sid, rows, ref, n, at);
    }
  }

  /** The uniqueness check on creation keeps (kind, name) unique, whatever the batch. */
  lemma {:induction false} BatchKeepsNames(
    p0: Progress, source: Source, sid: SourceId, rows: map<string, NodeId>, batch: seq<Relationship>, at: Time)
    requires Consistent(p0, rows) && UniqueNames(p0.nodes)
    ensures var r := UpsertBatch(p0, source, sid, rows, batch, at);
            r.Success? ==> UniqueNames(r.value.nodes)
  {
    hide UpsertNode, UniqueNames, UpsertEdge;
    if batch != [] && UpsertBatch(p0, source, sid, rows, batch, at).Success? {
      var rel := batch[|batch| - 1];
      BatchKeepsNames(p0, source, sid, rows, batch[..|batch| - 1], at);
      var p := UpsertBatch(p0, source, sid, rows, batch[..|batch| - 1], at).value;
      UpsertNodeKeepsNames(p, source, sid, rows, rel.subject, at);
      var p1 := UpsertNode(p, source, sid, rows, rel.subject, at).value;
      UpsertNodeKeepsNames(p1, source, sid, rows, rel.target, at);
      var p2 := UpsertNode(p1, source, sid, rows, rel.target, at).value;
      EdgeLeavesNodes(p2, source, sid, p2.cache[rel.subject.id], rel.relation, p2.cache[rel.target.id], rel.attributes, at);
    }
  }

  lemma EdgeLeavesNodes(
    p: Progress, source: Source, sid: SourceId, src: NodeId, relation: string, dst: NodeId, attributes: Attributes, at: Time)
    ensures UpsertEdge(p, source, sid, src, relation, dst, attributes, at).nodes == p.nodes
  {
  }
}
