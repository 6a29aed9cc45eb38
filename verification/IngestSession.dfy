/** Legacy ingestion in place: the graph tables, updated relationship by relationship and restored on an error. */
module IngestSession {
  import opened Wrappers
  import opened Contracts
  import opened Store
  import opened Ingestion
  import IngestVerdicts

  datatype BatchError =
    | EmptyBatch | TooLarge | SourceDisabled | BadKind(index: nat) | BadId(index: nat) | BadRelation(index: nat) | BadAttributes(index: nat)

  method CheckRef(source: Source, ref: Ref, index: nat, errors: seq<BatchError>) returns (r: seq<BatchError>)
    ensures r == [] <==> errors == [] && RefPermitted(source, ref)
  {
    r := errors;
    if ref.kind !in ALLOWED_KINDS {
      r := r + [BadKind(index)];
    }
    if ref.id == "" || !(source.allowedNamespace <= ref.id) {
      r := r + [BadId(index)];
    }
  }

  /** Collects every problem of a batch; there is none exactly if the batch is permitted. */
  method Validate(source: Source, batch: seq<Relationship>, limit: nat) returns (errors: seq<BatchError>)
    ensures errors == [] <==> BatchPermitted(source, batch, limit)
    ensures errors == [] <==> IngestVerdicts.Acceptable(source, batch, limit)
  {
    hide IngestVerdicts.Acceptable;
    IngestVerdicts.PermittedExactly(source, batch, limit);
    errors := if batch == [] then [EmptyBatch] else [];
    if |batch| > limit {
      return errors + [TooLarge];
    }
    if !source.enabled {
      errors := errors + [SourceDisabled];
    }
    for i := 0 to |batch|
      invariant errors == [] <==> batch != [] && source.enabled && forall j :: 0 <= j < i ==> Permitted(source, batch[j])
    {
      var rel := batch[i];
      errors := CheckRef(source, rel.subject, i, errors);
      errors := CheckRef(source, rel.target, i, errors);
      if rel.relation !in TRAVERSABLE {
        errors := errors + [BadRelation(i)];
      }
      if !rel.attributesIsObject {
        errors := errors + [BadAttributes(i)];
      }
      assert errors == [] ==> Permitted(source, rel);
    }
  }

  class Session {
    var nodes: map<NodeId, AccessNode>
    var edges: set<AccessEdge>
    var nextRow: nat
    var sources: map<SourceId, Source>
    var cache: map<string, NodeId>
    var nodesCreated: nat
    var edgesCreated: nat
    var edgesUpdated: nat

    function Current(): Progress
      reads this
    {
      Ingestion.Progress(nodes, edges, nextRow, cache, nodesCreated, edgesCreated, edgesUpdated)
    }

    constructor (db: Db)
      ensures Current() == Start(db) && sources == db.sources
    {
      nodes, edges, nextRow, sources := db.accessNodes, db.accessEdges, db.nextRow, db.sources;
      cache, nodesCreated, edgesCreated, edgesUpdated := map[], 0, 0, 0;
    }

    /** Finds or creates a node; the error of the specification, if any, leaves the rest to the caller's rollback. */
    method FindOrCreate(sid: SourceId, source: Source, rows: map<string, NodeId>, ref: Ref, at: Time) returns (r: Result<NodeId, IngestError>)
      requires Consistent(Current(), rows)
      modifies this
      ensures sources == old(sources)
      ensures match UpsertNode(old(Current()), source, sid, rows, ref, at)
              case Failure(e) => r == Failure(e)
              case Success(p) => Current() == p && r == Success(p.cache[ref.id])
    {
      var n: NodeId;
      if ref.id in cache {
        n := cache[ref.id];
      } else {
        if ref.id in rows {
          n := rows[ref.id];
        } else if NameTaken(nodes, ref.kind, ref.id) {
          return Failure(UniqueViolation);
        } else {
          n := Assigned(nextRow);
          nodes, nextRow, nodesCreated := nodes[n := NewNode(source, sid, ref, at)], nextRow + 1, nodesCreated + 1;
        }
        cache := cache[ref.id := n];
      }
      if nodes[n].sourceId != Some(sid) {
        return Failure(ForeignNode);
      }
      if nodes[n].kind != ref.kind {
        return Failure(KindMismatch);
      }
      nodes := nodes[n := nodes[n].(observedAt := Some(at))];
      assert cache == cache[ref.id := n];
      return Success(n);
    }

    method WriteEdge(sid: SourceId, source: Source, src: NodeId, relation: string, dst: NodeId, attributes: Attributes, at: Time)
      modifies this`edges, this`edgesCreated, this`edgesUpdated
      ensures Current() == UpsertEdge(old(Current()), source, sid, src, relation, dst, attributes, at)
    {
      if exists e :: e in edges && Connects(e, src, relation, dst) {
        edges := set e | e in edges ::
            if Connects(e, src, relation, dst) then e.(attributes := attributes, sourceId := Some(sid), observedAt := Some(at)) else e;
        edgesUpdated := edgesUpdated + 1;
      } else {
        edges := edges + {AccessEdge(src, relation, dst, Some(source.tenant), Some(sid), Some(at), attributes)};
        edgesCreated := edgesCreated + 1;
      }
    }

    method WriteRelationship(sid: SourceId, source: Source, rows: map<string, NodeId>, rel: Relationship, at: Time)
      returns (error: Option<IngestError>)
      requires Consistent(Current(), rows)
      modifies this
      ensures sources == old(sources)
      ensures match UpsertRelationship(old(Current()), source, sid, rows, rel, at)
              case Failure(e) => error == Some(e)
              case Success(p) => error.None? && Current() == p
    {
      hide UpsertNode, UpsertEdge, Consistent;
      var src := FindOrCreate(sid, source, rows, rel.subject, at);
      if src.Failure? {
        return Some(src.error);
      }
      var dst := FindOrCreate(sid, source, rows, rel.target, at);
      if dst.Failure? {
        return Some(dst.error);
      }
      SourceEndStays(old(Current()), source, sid, rows, rel, at);
      WriteEdge(sid, source, src.value, rel.relation, dst.value, rel.attributes, at);
      return None;
    }

    /** The whole batch, or nothing: an error restores every table. */
    method Ingest(sid: SourceId, versioned: bool, batch: seq<Relationship>, rows: map<string, NodeId>, observedAt: Option<Time>, now: Time, limit: nat)
      returns (r: Result<Summary, IngestError>)
      requires sid in sources && Consistent(Current(), rows)
      requires cache == map[] && nodesCreated == 0 && edgesCreated == 0 && edgesUpdated == 0
      modifies this
      ensures var source := old(sources)[sid]; var at := if observedAt.Some? then observedAt.value else now;
              if versioned then r == Failure(VersionedConnector) && Current() == old(Current()) && sources == old(sources)
              else if !BatchPermitted(source, batch, limit) then r == Failure(InvalidBatch) && Current() == old(Current()) && sources == old(sources)
              else if at > now then r == Failure(FutureObservation) && Current() == old(Current()) && sources == old(sources)
              else match UpsertBatch(old(Current()), source, sid, rows, batch, at)
                   case Failure(e) => r == Failure(e) && Current() == old(Current()) && sources == old(sources)
                   case Success(p) =>
                     && r == Success(Summary(|batch|, p.nodesCreated, p.edgesCreated, p.edgesUpdated, at))
                     && Current() == p && sources == old(sources)[sid := source.(lastSyncAt := Some(at))]
    {
      hide UpsertRelationship, Consistent, BatchPermitted;
      var source := sources[sid];
      if versioned {
        return Failure(VersionedConnector);
      }
      var errors := Validate(source, batch, limit);
      if errors != [] {
        return Failure(InvalidBatch);
      }
      var at := if observedAt.Some? then observedAt.value else now;
      if at > now {
        return Failure(FutureObservation);
      }
      var start := Current();
      for i := 0 to |batch|
        invariant sources == old(sources) && Consistent(Current(), rows)
        invariant UpsertBatch(start, source, sid, rows, batch[..i], at) == Success(Current())
      {
        assert batch[..i + 1][..i] == batch[..i] && batch[..i + 1][i] == batch[i];
        var error := WriteRelationship(sid, source, rows, batch[i], at);
        if error.Some? {
          FailureStays(start, source, sid, rows, batch, i + 1, at);
          Restore(start);
          return Failure(error.value);
        }
      }
      assert batch[..|batch|] == batch;
      sources := sources[sid := source.(lastSyncAt := Some(at))];
      return Success(Summary(|batch|, nodesCreated, edgesCreated, edgesUpdated, at));
    }

    /** The caller's rollback. */
    method Restore(p: Progress)
      modifies this
      ensures Current() == p && sources == old(sources)
    {
      nodes, edges, nextRow, cache := p.nodes, p.edges, p.nextRow, p.cache;
      nodesCreated, edgesCreated, edgesUpdated := p.nodesCreated, p.edgesCreated, p.edgesUpdated;
    }
  }

  /** Resolving the target does not move the subject. */
  lemma SourceEndStays(p: Progress, source: Source, sid: SourceId, rows: map<string, NodeId>, rel: Relationship, at: Time)
    requires Consistent(p, rows) && UpsertNode(p, source, sid, rows, rel.subject, at).Success?
    requires UpsertNode(UpsertNode(p, source, sid, rows, rel.subject, at).value, source, sid, rows, rel.target, at).Success?
    ensures var p1 := UpsertNode(p, source, sid, rows, rel.subject, at).value;
            UpsertNode(p1, source, sid, rows, rel.target, at).value.cache[rel.subject.id] == p1.cache[rel.subject.id]
  {
    hide NewNode, NameTaken;
  }

  /** A batch fails as soon as a part of it does, with that error. */
  lemma {:induction false} FailureStays(p: Progress, source: Source, sid: SourceId, rows: map<string, NodeId>, batch: seq<Relationship>, i: nat, at: Time)
    requires Consistent(p, rows) && i <= |batch| && UpsertBatch(p, source, sid, rows, batch[..i], at).Failure?
    ensures UpsertBatch(p, source, sid, rows, batch, at) == UpsertBatch(p, source, sid, rows, batch[..i], at)
  {
    hide UpsertRelationship, Consistent;
    if i == |batch| {
      assert batch[..i] == batch;
    } else {
      assert batch[..|batch| - 1][..i] == batch[..i];
      FailureStays(p, source, sid, rows, batch[..|batch| - 1], i, at);
    }
  }
}
