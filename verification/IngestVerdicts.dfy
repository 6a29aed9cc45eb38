/** What a legacy batch is refused for, and what each reference and each relationship does to the tables. */
module IngestVerdicts {
  import opened Wrappers
  import opened Contracts
  import opened Store
  import opened Ingestion

  // ------------------------------------------------------------------ What a batch may say

  /** A reference of a known kind, with an id inside the source's namespace. */
  ghost predicate Nameable(source: Source, ref: Ref) {
    && ref.kind in {"user", "group", "role", "permission_set", "service_account", "account", "asset"}
    && |ref.id| > 0 && source.allowedNamespace <= ref.id
  }

  /** At least one relationship and no more than the limit, from a source that is on; every one between nameable nodes, of
      a relation that transfers authority, with attributes that are an object. */
  ghost predicate Acceptable(source: Source, batch: seq<Relationship>, limit: nat) {
    && 1 <= |batch| && |batch| <= limit && source.enabled == true
    && forall i :: 0 <= i < |batch| ==>
         && Nameable(source, batch[i].subject) && Nameable(source, batch[i].target) && batch[i].attributesIsObject == true
         && batch[i].relation in {"member_of", "assigned", "can_assume", "role_allows", "account_contains", "contains", "grants"}
  }

  lemma NameableExactly(source: Source, ref: Ref)
    ensures RefPermitted(source, ref) <==> Nameable(source, ref)
  {
  }

  lemma PermittedExactly(source: Source, batch: seq<Relationship>, limit: nat)
    ensures BatchPermitted(source, batch, limit) <==> Acceptable(source, batch, limit)
  {
    hide Nameable, RefPermitted;
    forall ref ensures RefPermitted(source, ref) <==> Nameable(source, ref) {
      NameableExactly(source, ref);
    }
    if Acceptable(source, batch, limit) {
      forall rel | rel in batch ensures Permitted(source, rel) {
        var i :| 0 <= i < |batch| && batch[i] == rel;
      }
    }
    if BatchPermitted(source, batch, limit) {
      forall i | 0 <= i < |batch| ensures Permitted(source, batch[i]) {
        assert batch[i] in batch;
      }
    }
  }

  // ------------------------------------------------------------------ One reference

  /** The node found for a reference: the one this batch met before, or the row with its external id in the tenant. */
  ghost predicate IsFound(p: Progress, rows: map<string, NodeId>, x: string, n: NodeId) {
    if x in p.cache then n == p.cache[x] else x in rows && n == rows[x]
  }

  /** The state after the node of a reference was seen: stamped with the time, and remembered. */
  ghost predicate IsSeen(p: Progress, q: Progress, x: string, n: NodeId, at: Time) {
    && n in p.nodes
    && q == p.(nodes := p.nodes[n := p.nodes[n].(observedAt := Some(at))], cache := p.cache[x := n])
  }

  /** A node that is found is refused if another source owns it or its kind differs, and else only stamped. */
  lemma FoundExactly(p: Progress, source: Source, sid: SourceId, rows: map<string, NodeId>, ref: Ref, at: Time, n: NodeId)
    requires Consistent(p, rows) && IsFound(p, rows, ref.id, n)
    ensures n in p.nodes
    ensures var r := UpsertNode(p, source, sid, rows, ref, at);
            && (r == Failure(ForeignNode) <==> p.nodes[n].sourceId != Some(sid))
            && (r == Failure(KindMismatch) <==> p.nodes[n].sourceId == Some(sid) && p.nodes[n].kind != ref.kind)
            && (r.Success? <==> p.nodes[n].sourceId == Some(sid) && p.nodes[n].kind == ref.kind)
            && (r.Success? ==> IsSeen(p, r.value, ref.id, n, at))
  {
  }

  /** A node that is not found is created, unless its kind and name are taken: it bears the external id as its name, and
      belongs to the source and its tenant. */
  lemma CreatedExactly(p: Progress, source: Source, sid: SourceId, rows: map<string, NodeId>, ref: Ref, at: Time)
    requires Consistent(p, rows) && ref.id !in p.cache && ref.id !in rows
    ensures var r, n := UpsertNode(p, source, sid, rows, ref, at), Assigned(p.nextRow);
            && (r == Failure(UniqueViolation) <==> exists m :: m in p.nodes && p.nodes[m].kind == ref.kind && p.nodes[m].name == ref.id)
            && (r.Failure? ==> r.error == UniqueViolation)
            && (r.Success? ==>
                  && r.value.nodes == p.nodes[n := AccessNode(
                       ref.kind, ref.id, Some(source.tenant), Some(ref.id), Some(sid), Some(at), Attributes(false, false, "allow", true, [], ""))]
                  && r.value == p.(nodes := r.value.nodes, cache := p.cache[ref.id := n], nextRow := p.nextRow + 1, nodesCreated := p.nodesCreated + 1))
  {
  }

  // ------------------------------------------------------------------ One relationship

  ghost predicate Between(e: AccessEdge, src: NodeId, relation: string, dst: NodeId) {
    e.src == src && e.relation == relation && e.dst == dst
  }

  /** The edges after a relationship: those elsewhere as they were; those it names, or else a new one of the source's tenant,
      with its attributes, its source and its time. */
  lemma EdgesExactly(
    p: Progress, source: Source, sid: SourceId, src: NodeId, relation: string, dst: NodeId, attributes: Attributes, at: Time, e: AccessEdge)
    ensures var q, known := UpsertEdge(p, source, sid, src, relation, dst, attributes, at), exists f :: f in p.edges && Between(f, src, relation, dst);
            && (e in q.edges <==>
                if !Between(e, src, relation, dst) then e in p.edges
                else
                  && e.sourceId == Some(sid) && e.observedAt == Some(at) && e.attributes == attributes
                  && if known then exists f :: f in p.edges && Between(f, src, relation, dst) && f.tenant == e.tenant
                     else e.tenant == Some(source.tenant))
            && q.edgesUpdated == p.edgesUpdated + (if known then 1 else 0) && q.edgesCreated == p.edgesCreated + (if known then 0 else 1)
            && q == p.(edges := q.edges, edgesUpdated := q.edgesUpdated, edgesCreated := q.edgesCreated)
  {
    assert forall f :: Connects(f, src, relation, dst) <==> Between(f, src, relation, dst);
    if f :| f in p.edges && Between(f, src, relation, dst) && f.tenant == e.tenant && Between(e, src, relation, dst) {
      assert f.(attributes := attributes, sourceId := Some(sid), observedAt := Some(at)) in
             UpsertEdge(p, source, sid, src, relation, dst, attributes, at).edges;
    }
  }

  /** A relationship resolves its subject, then its target, and then writes the edge between the two. */
  lemma RelationshipExactly(p: Progress, source: Source, sid: SourceId, rows: map<string, NodeId>, rel: Relationship, at: Time)
    requires Consistent(p, rows)
    ensures var first := UpsertNode(p, source, sid, rows, rel.subject, at); var r := UpsertRelationship(p, source, sid, rows, rel, at);
            && (first.Failure? ==> r == Failure(first.error))
            && (first.Success? ==>
                  var second := UpsertNode(first.value, source, sid, rows, rel.target, at);
                  && (second.Failure? ==> r == Failure(second.error))
                  && (second.Success? ==>
                        && rel.subject.id in second.value.cache && rel.target.id in second.value.cache
                        && r == Success(UpsertEdge(second.value, source, sid, second.value.cache[rel.subject.id], rel.relation,
                                                   second.value.cache[rel.target.id], rel.attributes, at))))
  {
    hide UpsertEdge, UpsertNode;
  }

  // ------------------------------------------------------------------ The batch

  /** A batch is refused for a versioned connector, for what it says, for its time, or for what one of its relationships
      meets, in this order; otherwise its tables, the synchronisation time and the summary are those of all of them. */
  lemma IngestExactly(
    db: Db, sid: SourceId, batch: seq<Relationship>, rows: map<string, NodeId>, observedAt: Option<Time>, now: Time, limit: nat)
    requires sid in db.sources && Consistent(Start(db), rows)
    ensures var source, r := db.sources[sid], Ingest(db, sid, batch, rows, observedAt, now, limit);
            var at := if observedAt == None then now else observedAt.value;
            var all := UpsertBatch(Start(db), source, sid, rows, batch, at);
            && (r == Failure(VersionedConnector) <==> sid in db.states)
            && (r == Failure(InvalidBatch) <==> sid !in db.states && !Acceptable(source, batch, limit))
            && (r == Failure(FutureObservation) <==> sid !in db.states && Acceptable(source, batch, limit) && now < at)
            && (sid !in db.states && Acceptable(source, batch, limit) && at <= now ==>
                  && (all.Failure? ==> r == Failure(all.error))
                  && (all.Success? ==>
                        && r.Success? && r.value.1 == Summary(|batch|, all.value.nodesCreated, all.value.edgesCreated, all.value.edgesUpdated, at)
                        && r.value.0 == db.(accessNodes := all.value.nodes, accessEdges := all.value.edges, nextRow := all.value.nextRow,
                             sources := db.sources[sid := Source(source.tenant, source.provider, source.allowedNamespace, source.enabled, Some(at))])))
  {
    hide UpsertBatch, Acceptable, BatchPermitted;
    PermittedExactly(db.sources[sid], batch, limit);
    BatchErrors(Start(db), db.sources[sid], sid, rows, batch, if observedAt == None then now else observedAt.value);
  }

  /** The three refusals of a whole batch are not among those of its parts. */
  lemma {:induction false} BatchErrors(p: Progress, source: Source, sid: SourceId, rows: map<string, NodeId>, batch: seq<Relationship>, at: Time)
    requires Consistent(p, rows)
    ensures var r := UpsertBatch(p, source, sid, rows, batch, at);
            r.Failure? ==> r.error in {ForeignNode, KindMismatch, UniqueViolation}
  {
    if batch != [] {
      hide Consistent, UpsertEdge, Touch, NewNode;
      BatchErrors(p, source, sid, rows, batch[..|batch| - 1], at);
      if UpsertBatch(p, source, sid, rows, batch[..|batch| - 1], at).Success? {
        RelationshipErrors(UpsertBatch(p, source, sid, rows, batch[..|batch| - 1], at).value, source, sid, rows, batch[|batch| - 1], at);
      }
    }
  }

  lemma RelationshipErrors(p: Progress, source: Source, sid: SourceId, rows: map<string, NodeId>, rel: Relationship, at: Time)
    requires Consistent(p, rows)
    ensures var r := UpsertRelationship(p, source, sid, rows, rel, at);
            r.Failure? ==> r.error in {ForeignNode, KindMismatch, UniqueViolation}
  {
    hide UpsertEdge;
  }
}
