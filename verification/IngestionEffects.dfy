/** What a legacy batch does as a whole: its counters, its edges, and why repeating it changes nothing. */
module IngestionEffects {
  import opened Wrappers
  import opened Contracts
  import opened Store
  import opened Ingestion

  datatype Triple = Triple(src: NodeId, relation: string, dst: NodeId)

  predicate At(e: AccessEdge, t: Triple) {
    Connects(e, t.src, t.relation, t.dst)
  }

  ghost predicate UniqueAt(edges: set<AccessEdge>, t: Triple) {
    forall e, f :: e in edges && f in edges && At(e, t) && At(f, t) ==> e == f
  }

  ghost function EdgeAt(edges: set<AccessEdge>, t: Triple): Option<AccessEdge> {
    if e :| e in edges && At(e, t) then Some(e) else None
  }

  lemma EdgeAtIs(edges: set<AccessEdge>, t: Triple, e: AccessEdge)
    requires UniqueAt(edges, t) && e in edges && At(e, t)
    ensures EdgeAt(edges, t) == Some(e)
  {
    var f :| f in edges && At(f, t) && EdgeAt(edges, t) == Some(f);
  }

  // ------------------------------------------------------------------ References resolve

  /** The cache names a node of the reference's kind, external id and tenant that the source owns. */
  ghost predicate Resolved(p: Progress, source: Source, sid: SourceId, ref: Ref) {
    && ref.id in p.cache && p.cache[ref.id] in p.nodes
    && var node := p.nodes[p.cache[ref.id]];
       node.kind == ref.kind && node.sourceId == Some(sid) && node.externalId == Some(ref.id) && node.tenant == Some(source.tenant)
  }

  /** What no step of a batch undoes: cache entries, and all of a node but its time stamp. */
  ghost predicate Onward(p: Progress, q: Progress) {
    && (forall x :: x in p.cache ==> x in q.cache && q.cache[x] == p.cache[x])
    && (forall n :: n in p.nodes ==> n in q.nodes && q.nodes[n] == p.nodes[n].(observedAt := q.nodes[n].observedAt))
  }

  /** Cache and lookup speak of external ids of the tenant, and agree. */
  ghost predicate Faithful(p: Progress, source: Source, rows: map<string, NodeId>) {
    && Consistent(p, rows)
    && (forall x :: x in p.cache ==> p.nodes[p.cache[x]].externalId == Some(x) && p.nodes[p.cache[x]].tenant == Some(source.tenant))
    && (forall x :: x in rows ==> p.nodes[rows[x]].externalId == Some(x) && p.nodes[rows[x]].tenant == Some(source.tenant))
    && (forall x :: x in p.cache && x in rows ==> p.cache[x] == rows[x])
  }

  lemma OnwardTrans(p: Progress, q: Progress, r: Progress)
    requires Onward(p, q) && Onward(q, r)
    ensures Onward(p, r)
  {
  }

  /** The node a reference is found at, if any. */
  function Lookup(p: Progress, rows: map<string, NodeId>, x: string): Option<NodeId> {
    if x in p.cache then Some(p.cache[x]) else if x in rows then Some(rows[x]) else None
  }

  lemma TouchResolves(p: Progress, source: Source, sid: SourceId, rows: map<string, NodeId>, ref: Ref, n: NodeId, at: Time)
    requires Faithful(p, source, rows) && Numbered(p) && n in p.nodes
    requires p.nodes[n].externalId == Some(ref.id) && p.nodes[n].tenant == Some(source.tenant)
    requires (ref.id in p.cache ==> p.cache[ref.id] == n) && (ref.id in rows ==> rows[ref.id] == n)
    ensures var r := Touch(p, sid, rows, ref, n, at);
            && (r.Success? <==> p.nodes[n].sourceId == Some(sid) && p.nodes[n].kind == ref.kind)
            && (r.Success? ==>
                  && Onward(p, r.value) && Faithful(r.value, source, rows) && Numbered(r.value) && Resolved(r.value, source, sid, ref)
                  && r.value.nodes.Keys == p.nodes.Keys && r.value.edges == p.edges && r.value.nodesCreated == p.nodesCreated
                  && r.value.edgesCreated == p.edgesCreated && r.value.edgesUpdated == p.edgesUpdated)
  {
  }

  /** A node step: found or created, counted, resolved. */
  ghost predicate NodeStep(p: Progress, q: Progress, source: Source, sid: SourceId, rows: map<string, NodeId>, ref: Ref) {
    && Onward(p, q) && Faithful(q, source, rows) && Numbered(q) && Resolved(q, source, sid, ref)
    && q.edges == p.edges && q.edgesCreated == p.edgesCreated && q.edgesUpdated == p.edgesUpdated
    && |q.nodes| - |p.nodes| == q.nodesCreated - p.nodesCreated >= 0
    && (Lookup(p, rows, ref.id).Some? ==> q.nodes.Keys == p.nodes.Keys && q.nodesCreated == p.nodesCreated)
  }

  lemma UpsertNodeSteps(p: Progress, source: Source, sid: SourceId, rows: map<string, NodeId>, ref: Ref, at: Time)
    requires Faithful(p, source, rows) && Numbered(p)
    ensures var r := UpsertNode(p, source, sid, rows, ref, at);
            && (r.Success? ==> NodeStep(p, r.value, source, sid, rows, ref))
            && (Lookup(p, rows, ref.id).Some? ==>
                  var node := p.nodes[Lookup(p, rows, ref.id).value];
                  r.Success? <==> node.sourceId == Some(sid) && node.kind == ref.kind)
  {
    assert Consistent(p, rows) by { FaithfulIsConsistent(p, source, rows); }
    if Lookup(p, rows, ref.id).Some? {
      var n := Lookup(p, rows, ref.id).value;
      TouchResolves(p, source, sid, rows, ref, n, at);
      if UpsertNode(p, source, sid, rows, ref, at).Success? {
        SameKeysSameSize(p.nodes, UpsertNode(p, source, sid, rows, ref, at).value.nodes);
      }
    } else if UpsertNode(p, source, sid, rows, ref, at).Success? {
      CreateSteps(p, source, sid, rows, ref, at);
    }
  }

  lemma FaithfulIsConsistent(p: Progress, source: Source, rows: map<string, NodeId>)
    requires Faithful(p, source, rows)
    ensures Consistent(p, rows)
  {
  }

  lemma SameKeysSameSize<K, V>(a: map<K, V>, b: map<K, V>)
    requires a.Keys == b.Keys
    ensures |a| == |b|
  {
    assert |a| == |a.Keys| && |b| == |b.Keys|;
  }

  function Inserted(p: Progress, source: Source, sid: SourceId, ref: Ref, at: Time): Progress {
    p.(nodes := p.nodes[Assigned(p.nextRow) := NewNode(source, sid, ref, at)], nextRow := p.nextRow + 1, nodesCreated := p.nodesCreated + 1)
  }

  lemma InsertedIsFaithful(p: Progress, source: Source, sid: SourceId, rows: map<string, NodeId>, ref: Ref, at: Time)
    requires Faithful(p, source, rows) && Numbered(p)
    ensures var q := Inserted(p, source, sid, ref, at);
            Onward(p, q) && Faithful(q, source, rows) && Numbered(q)
  {
    assert Assigned(p.nextRow) !in p.nodes;
  }

  lemma CreatedIsTouched(p: Progress, source: Source, sid: SourceId, rows: map<string, NodeId>, ref: Ref, at: Time)
    requires Consistent(p, rows) && Lookup(p, rows, ref.id).None? && UpsertNode(p, source, sid, rows, ref, at).Success?
    ensures Consistent(Inserted(p, source, sid, ref, at), rows)
    ensures UpsertNode(p, source, sid, rows, ref, at) == Touch(Inserted(p, source, sid, ref, at), sid, rows, ref, Assigned(p.nextRow), at)
  {
    hide Touch, NewNode, NameTaken;
  }

  lemma CreateSteps(p: Progress, source: Source, sid: SourceId, rows: map<string, NodeId>, ref: Ref, at: Time)
    requires Faithful(p, source, rows) && Numbered(p) && Lookup(p, rows, ref.id).None?
    requires Consistent(p, rows) && UpsertNode(p, source, sid, rows, ref, at).Success?
    ensures NodeStep(p, UpsertNode(p, source, sid, rows, ref, at).value, source, sid, rows, ref)
  {
    var inserted := Inserted(p, source, sid, ref, at);
    InsertedIsFaithful(p, source, sid, rows, ref, at);
    CreatedIsTouched(p, source, sid, rows, ref, at);
    TouchResolves(inserted, source, sid, rows, ref, Assigned(p.nextRow), at);
    var q := UpsertNode(p, source, sid, rows, ref, at).value;
    SameKeysSameSize(inserted.nodes, q.nodes);
    OnwardTrans(p, inserted, q);
  }

  // ------------------------------------------------------------------ Edges, one triple at a time

  /** What a relationship makes of the edge at its triple. */
  function Stamp(was: Option<AccessEdge>, t: Triple, source: Source, sid: SourceId, attributes: Attributes, at: Time): AccessEdge {
    match was
    case Some(e) => e.(attributes := attributes, sourceId := Some(sid), observedAt := Some(at))
    case None => AccessEdge(t.src, t.relation, t.dst, Some(source.tenant), Some(sid), Some(at), attributes)
  }

  lemma UpsertEdgeAt(p: Progress, source: Source, sid: SourceId, u: Triple, attributes: Attributes, at: Time, t: Triple)
    requires UniqueAt(p.edges, t)
    ensures var q := UpsertEdge(p, source, sid, u.src, u.relation, u.dst, attributes, at);
            && UniqueAt(q.edges, t)
            && EdgeAt(q.edges, t) == if t == u then Some(Stamp(EdgeAt(p.edges, t), t, source, sid, attributes, at)) else EdgeAt(p.edges, t)
  {
    var q := UpsertEdge(p, source, sid, u.src, u.relation, u.dst, attributes, at);
    if t == u {
      StampedEdge(p, source, sid, t, attributes, at);
    } else {
      OtherEdges(p, source, sid, u, attributes, at, t);
    }
  }

  lemma OtherEdges(p: Progress, source: Source, sid: SourceId, u: Triple, attributes: Attributes, at: Time, t: Triple)
    requires t != u
    ensures var q := UpsertEdge(p, source, sid, u.src, u.relation, u.dst, attributes, at);
            forall e :: At(e, t) ==> (e in q.edges <==> e in p.edges)
  {
  }

  lemma StampedEdge(p: Progress, source: Source, sid: SourceId, t: Triple, attributes: Attributes, at: Time)
    requires UniqueAt(p.edges, t)
    ensures var q := UpsertEdge(p, source, sid, t.src, t.relation, t.dst, attributes, at);
            var e := Stamp(EdgeAt(p.edges, t), t, source, sid, attributes, at);
            && UniqueAt(q.edges, t) && EdgeAt(q.edges, t) == Some(e)
            && q.edgesCreated + q.edgesUpdated == p.edgesCreated + p.edgesUpdated + 1
            && |q.edges| - |p.edges| == q.edgesCreated - p.edgesCreated
            && (EdgeAt(p.edges, t).Some? ==> q.edgesCreated == p.edgesCreated)
  {
    var q := UpsertEdge(p, source, sid, t.src, t.relation, t.dst, attributes, at);
    var e := Stamp(EdgeAt(p.edges, t), t, source, sid, attributes, at);
    if f :| f in p.edges && At(f, t) {
      EdgeAtIs(p.edges, t, f);
      RewrittenSet(p.edges, t, f, sid, attributes, at);
      Exchanged(p.edges, t, f, e);
    } else {
      assert EdgeAt(p.edges, t).None?;
      assert q.edges == p.edges + {e} && e !in p.edges;
    }
    assert At(e, t) && e in q.edges && UniqueAt(q.edges, t);
    EdgeAtIs(q.edges, t, e);
  }

  lemma Exchanged(edges: set<AccessEdge>, t: Triple, f: AccessEdge, e: AccessEdge)
    requires UniqueAt(edges, t) && f in edges && At(f, t) && At(e, t)
    ensures |edges - {f} + {e}| == |edges| && UniqueAt(edges - {f} + {e}, t)
  {
    assert e in edges ==> e == f;
  }

  lemma RewrittenSet(edges: set<AccessEdge>, t: Triple, f: AccessEdge, sid: SourceId, attributes: Attributes, at: Time)
    requires UniqueAt(edges, t) && f in edges && At(f, t)
    ensures (set e | e in edges ::
               if Connects(e, t.src, t.relation, t.dst)
               then e.(attributes := attributes, sourceId := Some(sid), observedAt := Some(at)) else e) ==
            edges - {f} + {f.(attributes := attributes, sourceId := Some(sid), observedAt := Some(at))}
  {
  }

  // ------------------------------------------------------------------ One relationship

  /** Both references of a relationship, found or created. */
  ghost predicate RefsStep(p: Progress, q: Progress, source: Source, sid: SourceId, rows: map<string, NodeId>, rel: Relationship) {
    && Onward(p, q) && Faithful(q, source, rows) && Numbered(q)
    && Resolved(q, source, sid, rel.subject) && Resolved(q, source, sid, rel.target)
    && q.edges == p.edges && q.edgesCreated == p.edgesCreated && q.edgesUpdated == p.edgesUpdated
    && |q.nodes| - |p.nodes| == q.nodesCreated - p.nodesCreated
  }

  /** A reference that the lookup finds, at a node the source owns, of the kind it says. */
  ghost predicate Ready(p: Progress, sid: SourceId, rows: map<string, NodeId>, ref: Ref) {
    && ref.id in rows && rows[ref.id] in p.nodes
    && p.nodes[rows[ref.id]].sourceId == Some(sid) && p.nodes[rows[ref.id]].kind == ref.kind
  }

  lemma RelationshipRefs(p: Progress, source: Source, sid: SourceId, rows: map<string, NodeId>, rel: Relationship, at: Time)
    returns (q: Progress)
    requires Faithful(p, source, rows) && Numbered(p) && Consistent(p, rows)
    requires UpsertRelationship(p, source, sid, rows, rel, at).Success?
    ensures RefsStep(p, q, source, sid, rows, rel)
    ensures rel.subject.id in q.cache && rel.target.id in q.cache
    ensures UpsertRelationship(p, source, sid, rows, rel, at).value ==
            UpsertEdge(q, source, sid, q.cache[rel.subject.id], rel.relation, q.cache[rel.target.id], rel.attributes, at)
  {
    UpsertNodeSteps(p, source, sid, rows, rel.subject, at);
    var p1 := UpsertNode(p, source, sid, rows, rel.subject, at).value;
    UpsertNodeSteps(p1, source, sid, rows, rel.target, at);
    q := UpsertNode(p1, source, sid, rows, rel.target, at).value;
    OnwardTrans(p, p1, q);
  }

  lemma ReadyUpserts(p: Progress, source: Source, sid: SourceId, rows: map<string, NodeId>, ref: Ref, at: Time)
    requires Faithful(p, source, rows) && Numbered(p) && Consistent(p, rows) && Ready(p, sid, rows, ref)
    ensures var r := UpsertNode(p, source, sid, rows, ref, at);
            && r.Success? && Onward(p, r.value) && Faithful(r.value, source, rows) && Numbered(r.value)
            && r.value.nodes.Keys == p.nodes.Keys && r.value.nodesCreated == p.nodesCreated
  {
    hide UpsertNode, Numbered, Onward;
    UpsertNodeSteps(p, source, sid, rows, ref, at);
  }

  lemma ReadyRelationship(p: Progress, source: Source, sid: SourceId, rows: map<string, NodeId>, rel: Relationship, at: Time)
    requires Faithful(p, source, rows) && Numbered(p) && Consistent(p, rows)
    requires Ready(p, sid, rows, rel.subject) && Ready(p, sid, rows, rel.target)
    ensures var r := UpsertRelationship(p, source, sid, rows, rel, at);
            && r.Success? && r.value.nodes.Keys == p.nodes.Keys && r.value.nodesCreated == p.nodesCreated
  {
    ReadyUpserts(p, source, sid, rows, rel.subject, at);
    var p1 := UpsertNode(p, source, sid, rows, rel.subject, at).value;
    FaithfulIsConsistent(p1, source, rows);
    ReadyUpserts(p1, source, sid, rows, rel.target, at);
  }

  // ------------------------------------------------------------------ A whole batch

  predicate Cached(cache: map<string, NodeId>, batch: seq<Relationship>) {
    forall rel :: rel in batch ==> rel.subject.id in cache && rel.target.id in cache
  }

  function TripleOf(cache: map<string, NodeId>, rel: Relationship): Triple
    requires rel.subject.id in cache && rel.target.id in cache
  {
    Triple(cache[rel.subject.id], rel.relation, cache[rel.target.id])
  }

  ghost predicate BatchStep(p0: Progress, p: Progress, source: Source, sid: SourceId, rows: map<string, NodeId>, batch: seq<Relationship>) {
    && Onward(p0, p) && Faithful(p, source, rows) && Numbered(p)
    && (forall rel :: rel in batch ==> Resolved(p, source, sid, rel.subject) && Resolved(p, source, sid, rel.target))
    && |p.nodes| - |p0.nodes| == p.nodesCreated - p0.nodesCreated
    && p.edgesCreated + p.edgesUpdated == p0.edgesCreated + p0.edgesUpdated + |batch|
  }

  lemma EdgeStepKeeps(p: Progress, source: Source, sid: SourceId, t: Triple, attributes: Attributes, at: Time)
    ensures var q := UpsertEdge(p, source, sid, t.src, t.relation, t.dst, attributes, at);
            && q.nodes == p.nodes && q.cache == p.cache && q.nextRow == p.nextRow && q.nodesCreated == p.nodesCreated
            && q.edgesCreated + q.edgesUpdated == p.edgesCreated + p.edgesUpdated + 1
  {
  }

  lemma SameNodesSameStanding(p: Progress, q: Progress, source: Source, sid: SourceId, rows: map<string, NodeId>, ref: Ref)
    requires q.nodes == p.nodes && q.cache == p.cache && q.nextRow == p.nextRow
    ensures Onward(p, q) && (Faithful(p, source, rows) ==> Faithful(q, source, rows)) && (Numbered(p) ==> Numbered(q))
    ensures Resolved(p, source, sid, ref) ==> Resolved(q, source, sid, ref)
  {
  }

  lemma RelationshipSteps(p: Progress, source: Source, sid: SourceId, rows: map<string, NodeId>, rel: Relationship, at: Time)
    requires Faithful(p, source, rows) && Numbered(p) && Consistent(p, rows)
    requires UpsertRelationship(p, source, sid, rows, rel, at).Success?
    ensures BatchStep(p, UpsertRelationship(p, source, sid, rows, rel, at).value, source, sid, rows, [rel])
  {
    hide UpsertRelationship, UpsertEdge, Onward, Faithful, Numbered, Resolved, Consistent;
    var p2 := RelationshipRefs(p, source, sid, rows, rel, at);
    var q := UpsertRelationship(p, source, sid, rows, rel, at).value;
    EdgeStepKeeps(p2, source, sid, TripleOf(p2.cache, rel), rel.attributes, at);
    SameNodesSameStanding(p2, q, source, sid, rows, rel.subject);
    SameNodesSameStanding(p2, q, source, sid, rows, rel.target);
    OnwardTrans(p, p2, q);
  }

  lemma BatchStepTrans(
    p0: Progress, p: Progress, q: Progress, source: Source, sid: SourceId, rows: map<string, NodeId>, batch: seq<Relationship>, rel: Relationship)
    requires BatchStep(p0, p, source, sid, rows, batch) && BatchStep(p, q, source, sid, rows, [rel])
    ensures BatchStep(p0, q, source, sid, rows, batch + [rel])
  {
    OnwardTrans(p0, p, q);
    forall x | x in batch + [rel] ensures Resolved(q, source, sid, x.subject) && Resolved(q, source, sid, x.target) {
      if x in batch {
      } else {
        assert x in [rel];
      }
    }
  }

  /** A successful batch: every reference resolves to a node the source owns, and the counters tell the growth of the
      node table and the length of the batch. */
  lemma {:induction false} BatchCounts(
    p0: Progress, source: Source, sid: SourceId, rows: map<string, NodeId>, batch: seq<Relationship>, at: Time)
    requires Faithful(p0, source, rows) && Numbered(p0) && Consistent(p0, rows)
    ensures var r := UpsertBatch(p0, source, sid, rows, batch, at);
            r.Success? ==> BatchStep(p0, r.value, source, sid, rows, batch)
  {
    hide UpsertRelationship, Faithful, Numbered, Resolved, Consistent;
    if batch == [] {
    } else if UpsertBatch(p0, source, sid, rows, batch, at).Success? {
      var front, rel := batch[..|batch| - 1], batch[|batch| - 1];
      BatchCounts(p0, source, sid, rows, front, at);
      var p := UpsertBatch(p0, source, sid, rows, front, at).value;
      RelationshipSteps(p, source, sid, rows, rel, at);
      assert batch == front + [rel];
      BatchStepTrans(p0, p, UpsertRelationship(p, source, sid, rows, rel, at).value, source, sid, rows, front, rel);
    }
  }

  lemma BatchIsCached(p0: Progress, p: Progress, source: Source, sid: SourceId, rows: map<string, NodeId>, batch: seq<Relationship>)
    requires BatchStep(p0, p, source, sid, rows, batch)
    ensures Cached(p.cache, batch)
  {
  }

  // ------------------------------------------------------------------ Edges of a batch

  /** The edge at `t` after a batch, from the edge there before: the last relationship at `t` decides. */
  function Fold(was: Option<AccessEdge>, t: Triple, cache: map<string, NodeId>, source: Source, sid: SourceId, batch: seq<Relationship>, at: Time): Option<AccessEdge>
    requires Cached(cache, batch)
  {
    if batch == [] then was
    else
      var before := Fold(was, t, cache, source, sid, batch[..|batch| - 1], at);
      var rel := batch[|batch| - 1];
      if TripleOf(cache, rel) == t then Some(Stamp(before, t, source, sid, rel.attributes, at)) else before
  }

  lemma {:induction false} FoldExtends(
    was: Option<AccessEdge>, t: Triple, c: map<string, NodeId>, d: map<string, NodeId>, source: Source, sid: SourceId, batch: seq<Relationship>, at: Time)
    requires Cached(c, batch) && forall x :: x in c ==> x in d && d[x] == c[x]
    ensures Cached(d, batch) && Fold(was, t, c, source, sid, batch, at) == Fold(was, t, d, source, sid, batch, at)
  {
    if batch != [] {
      FoldExtends(was, t, c, d, source, sid, batch[..|batch| - 1], at);
    }
  }

  /** Where the table had at most one edge, it has at most one after the batch, and it is the folded one. */
  lemma {:induction false} BatchEdges(
    p0: Progress, source: Source, sid: SourceId, rows: map<string, NodeId>, batch: seq<Relationship>, at: Time, t: Triple)
    requires Faithful(p0, source, rows) && Numbered(p0) && Consistent(p0, rows) && UniqueAt(p0.edges, t)
    ensures var r := UpsertBatch(p0, source, sid, rows, batch, at);
            r.Success? ==>
              && UniqueAt(r.value.edges, t) && Cached(r.value.cache, batch)
              && EdgeAt(r.value.edges, t) == Fold(EdgeAt(p0.edges, t), t, r.value.cache, source, sid, batch, at)
  {
    hide UpsertRelationship, Faithful, Numbered, Resolved, Consistent, UniqueAt, EdgeAt, Stamp;
    var r := UpsertBatch(p0, source, sid, rows, batch, at);
    if batch != [] && r.Success? {
      var front, rel := batch[..|batch| - 1], batch[|batch| - 1];
      BatchEdges(p0, source, sid, rows, front, at, t);
      BatchCounts(p0, source, sid, rows, front, at);
      var p := UpsertBatch(p0, source, sid, rows, front, at).value;
      RelationshipEdges(p, source, sid, rows, rel, at, t);
      FoldExtends(EdgeAt(p0.edges, t), t, p.cache, r.value.cache, source, sid, front, at);
      assert batch == front + [rel];
    }
  }

  lemma RelationshipEdges(p: Progress, source: Source, sid: SourceId, rows: map<string, NodeId>, rel: Relationship, at: Time, t: Triple)
    requires Faithful(p, source, rows) && Numbered(p) && Consistent(p, rows) && UniqueAt(p.edges, t)
    requires UpsertRelationship(p, source, sid, rows, rel, at).Success?
    ensures var q := UpsertRelationship(p, source, sid, rows, rel, at).value;
            && UniqueAt(q.edges, t) && rel.subject.id in q.cache && rel.target.id in q.cache
            && (forall x :: x in p.cache ==> x in q.cache && q.cache[x] == p.cache[x])
            && EdgeAt(q.edges, t) == if TripleOf(q.cache, rel) == t then Some(Stamp(EdgeAt(p.edges, t), t, source, sid, rel.attributes, at))
                                     else EdgeAt(p.edges, t)
  {
    hide UpsertRelationship, UpsertEdge, Faithful, Numbered, Resolved, Consistent, UniqueAt, EdgeAt, Stamp;
    var p2 := RelationshipRefs(p, source, sid, rows, rel, at);
    EdgeStepKeeps(p2, source, sid, TripleOf(p2.cache, rel), rel.attributes, at);
    UpsertEdgeAt(p2, source, sid, TripleOf(p2.cache, rel), rel.attributes, at, t);
  }

  /** The edge table has at most one edge at each triple of the batch. */
  ghost predicate UniqueAlong(edges: set<AccessEdge>, cache: map<string, NodeId>, batch: seq<Relationship>)
    requires Cached(cache, batch)
  {
    forall rel :: rel in batch ==> UniqueAt(edges, TripleOf(cache, rel))
  }

  lemma BatchCachedBy(
    p0: Progress, source: Source, sid: SourceId, rows: map<string, NodeId>, front: seq<Relationship>, rel: Relationship, at: Time)
    returns (p: Progress, p2: Progress, q: Progress)
    requires Faithful(p0, source, rows) && Numbered(p0) && Consistent(p0, rows)
    requires UpsertBatch(p0, source, sid, rows, front + [rel], at).Success?
    ensures UpsertBatch(p0, source, sid, rows, front, at) == Success(p) && BatchStep(p0, p, source, sid, rows, front)
    ensures RefsStep(p, p2, source, sid, rows, rel) && rel.subject.id in p2.cache && rel.target.id in p2.cache
    ensures UpsertBatch(p0, source, sid, rows, front + [rel], at) == Success(q)
    ensures var t := TripleOf(p2.cache, rel);
            q == UpsertEdge(p2, source, sid, t.src, t.relation, t.dst, rel.attributes, at) && q.cache == p2.cache
    ensures Cached(p.cache, front) && Cached(q.cache, front + [rel])
    ensures forall x :: x in p.cache ==> x in q.cache && q.cache[x] == p.cache[x]
  {
    hide UpsertRelationship, UpsertEdge, Faithful, Numbered, Resolved, Consistent;
    var batch := front + [rel];
    assert batch[..|batch| - 1] == front;
    BatchCounts(p0, source, sid, rows, front, at);
    BatchCounts(p0, source, sid, rows, batch, at);
    p := UpsertBatch(p0, source, sid, rows, front, at).value;
    q := UpsertBatch(p0, source, sid, rows, batch, at).value;
    BatchIsCached(p0, p, source, sid, rows, front);
    BatchIsCached(p0, q, source, sid, rows, batch);
    FaithfulIsConsistent(p, source, rows);
    p2 := RelationshipRefs(p, source, sid, rows, rel, at);
    EdgeStepKeeps(p2, source, sid, TripleOf(p2.cache, rel), rel.attributes, at);
  }

  /** The edge counter tells the growth of the edge table; and it stays put if every edge was there. */
  lemma {:induction false} BatchEdgeCounts(
    p0: Progress, source: Source, sid: SourceId, rows: map<string, NodeId>, batch: seq<Relationship>, at: Time)
    requires Faithful(p0, source, rows) && Numbered(p0) && Consistent(p0, rows)
    requires UpsertBatch(p0, source, sid, rows, batch, at).Success?
    requires Cached(UpsertBatch(p0, source, sid, rows, batch, at).value.cache, batch)
    requires UniqueAlong(p0.edges, UpsertBatch(p0, source, sid, rows, batch, at).value.cache, batch)
    ensures var q := UpsertBatch(p0, source, sid, rows, batch, at).value;
            && |q.edges| - |p0.edges| == q.edgesCreated - p0.edgesCreated
            && ((forall rel :: rel in batch ==> EdgeAt(p0.edges, TripleOf(q.cache, rel)).Some?) ==> q.edgesCreated == p0.edgesCreated)
  {
    hide UpsertRelationship, UpsertEdge, Faithful, Numbered, Resolved, Consistent, UniqueAt, EdgeAt, Stamp;
    if batch != [] {
      var front, rel := batch[..|batch| - 1], batch[|batch| - 1];
      assert batch == front + [rel];
      var p, p2, q := BatchCachedBy(p0, source, sid, rows, front, rel, at);
      var t := TripleOf(q.cache, rel);
      forall x | x in front ensures TripleOf(p.cache, x) == TripleOf(q.cache, x) {
      }
      BatchEdgeCounts(p0, source, sid, rows, front, at);
      BatchEdges(p0, source, sid, rows, front, at, t);
      StampedEdge(p2, source, sid, t, rel.attributes, at);
      FoldStays(EdgeAt(p0.edges, t), t, p.cache, source, sid, front, at);
    }
  }

  lemma {:induction false} FoldStays(
    was: Option<AccessEdge>, t: Triple, cache: map<string, NodeId>, source: Source, sid: SourceId, batch: seq<Relationship>, at: Time)
    requires Cached(cache, batch)
    ensures was.Some? ==> Fold(was, t, cache, source, sid, batch, at).Some?
  {
    if batch != [] {
      FoldStays(was, t, cache, source, sid, batch[..|batch| - 1], at);
    }
  }

  /** What the last relationship at `t` says. */
  function Last(t: Triple, cache: map<string, NodeId>, batch: seq<Relationship>): Option<Attributes>
    requires Cached(cache, batch)
  {
    if batch == [] then None
    else if TripleOf(cache, batch[|batch| - 1]) == t then Some(batch[|batch| - 1].attributes)
    else Last(t, cache, batch[..|batch| - 1])
  }

  lemma {:induction false} LastExists(t: Triple, cache: map<string, NodeId>, batch: seq<Relationship>)
    requires Cached(cache, batch)
    ensures Last(t, cache, batch).Some? <==> exists rel :: rel in batch && TripleOf(cache, rel) == t
  {
    if batch != [] {
      LastExists(t, cache, batch[..|batch| - 1]);
      assert batch == batch[..|batch| - 1] + [batch[|batch| - 1]];
    }
  }

  /** Of all relationships at a triple the last one wins; an edge keeps the tenant it was created with. */
  lemma {:induction false} LastRelationshipWins(
    was: Option<AccessEdge>, t: Triple, cache: map<string, NodeId>, source: Source, sid: SourceId, batch: seq<Relationship>, at: Time)
    requires Cached(cache, batch) && (was.Some? ==> At(was.value, t))
    ensures Fold(was, t, cache, source, sid, batch, at) ==
            match Last(t, cache, batch)
            case None => was
            case Some(attributes) =>
              Some(AccessEdge(t.src, t.relation, t.dst, if was.Some? then was.value.tenant else Some(source.tenant), Some(sid), Some(at), attributes))
  {
    if batch != [] {
      LastRelationshipWins(was, t, cache, source, sid, batch[..|batch| - 1], at);
    }
  }

  /** Edges at other triples are left alone. */
  lemma {:induction false} BatchElsewhere(
    p0: Progress, source: Source, sid: SourceId, rows: map<string, NodeId>, batch: seq<Relationship>, at: Time, t: Triple)
    requires Faithful(p0, source, rows) && Numbered(p0) && Consistent(p0, rows)
    requires UpsertBatch(p0, source, sid, rows, batch, at).Success?
    requires Cached(UpsertBatch(p0, source, sid, rows, batch, at).value.cache, batch)
    requires Last(t, UpsertBatch(p0, source, sid, rows, batch, at).value.cache, batch).None?
    ensures forall e :: At(e, t) ==> (e in UpsertBatch(p0, source, sid, rows, batch, at).value.edges <==> e in p0.edges)
  {
    hide UpsertRelationship, UpsertEdge, Faithful, Numbered, Resolved, Consistent, At;
    if batch != [] {
      var front, rel := batch[..|batch| - 1], batch[|batch| - 1];
      assert batch == front + [rel];
      var p, p2, q := BatchCachedBy(p0, source, sid, rows, front, rel, at);
      LastExtends(t, p.cache, q.cache, front);
      BatchElsewhere(p0, source, sid, rows, front, at, t);
      OtherEdges(p2, source, sid, TripleOf(p2.cache, rel), rel.attributes, at, t);
    }
  }

  lemma {:induction false} LastExtends(t: Triple, c: map<string, NodeId>, d: map<string, NodeId>, batch: seq<Relationship>)
    requires Cached(c, batch) && forall x :: x in c ==> x in d && d[x] == c[x]
    ensures Cached(d, batch) && Last(t, c, batch) == Last(t, d, batch)
  {
    if batch != [] {
      LastExtends(t, c, d, batch[..|batch| - 1]);
    }
  }

  // ------------------------------------------------------------------ Repeating a batch

  /** New nodes are the ones the cache names. */
  ghost predicate NewAreCached(p0: Progress, p: Progress) {
    forall n :: n in p.nodes && n !in p0.nodes ==>
      p.nodes[n].externalId.Some? && p.nodes[n].externalId.value in p.cache && p.cache[p.nodes[n].externalId.value] == n
  }

  lemma UpsertNodeCachesNew(
    p0: Progress, p: Progress, source: Source, sid: SourceId, rows: map<string, NodeId>, ref: Ref, at: Time)
    requires Faithful(p, source, rows) && Consistent(p, rows) && NewAreCached(p0, p)
    ensures var r := UpsertNode(p, source, sid, rows, ref, at);
            r.Success? ==> NewAreCached(p0, r.value)
  {
    hide NameTaken;
    var r := UpsertNode(p, source, sid, rows, ref, at);
    if r.Success? {
      if Lookup(p, rows, ref.id).Some? {
        TouchCachesNew(p0, p, sid, rows, ref, Lookup(p, rows, ref.id).value, at);
      } else {
        var inserted := Inserted(p, source, sid, ref, at);
        assert Touch(inserted, sid, rows, ref, Assigned(p.nextRow), at).Success?;
        forall n | n in r.value.nodes && n !in p0.nodes
          ensures r.value.nodes[n].externalId.Some? && r.value.nodes[n].externalId.value in r.value.cache
                  && r.value.cache[r.value.nodes[n].externalId.value] == n
        {
          assert n in p.nodes || n == Assigned(p.nextRow);
        }
      }
    }
  }

  lemma TouchCachesNew(p0: Progress, p: Progress, sid: SourceId, rows: map<string, NodeId>, ref: Ref, n: NodeId, at: Time)
    requires Consistent(p, rows) && n in p.nodes && NewAreCached(p0, p) && p.nodes[n].externalId == Some(ref.id)
    requires ref.id in p.cache ==> p.cache[ref.id] == n
    ensures var r := Touch(p, sid, rows, ref, n, at);
            r.Success? ==> NewAreCached(p0, r.value)
  {
    var r := Touch(p, sid, rows, ref, n, at);
    hide Consistent;
    if r.Success? {
      forall m | m in r.value.nodes && m !in p0.nodes
        ensures r.value.nodes[m].externalId.Some? && r.value.nodes[m].externalId.value in r.value.cache
                && r.value.cache[r.value.nodes[m].externalId.value] == m
      {
        assert m in p.nodes && r.value.nodes[m].externalId == p.nodes[m].externalId;
      }
    }
  }

  lemma {:induction false} BatchCachesNew(
    p0: Progress, source: Source, sid: SourceId, rows: map<string, NodeId>, batch: seq<Relationship>, at: Time)
    requires Faithful(p0, source, rows) && Numbered(p0) && Consistent(p0, rows)
    ensures var r := UpsertBatch(p0, source, sid, rows, batch, at);
            r.Success? ==> NewAreCached(p0, r.value)
  {
    if batch == [] {
    } else if UpsertBatch(p0, source, sid, rows, batch, at).Success? {
      var front, rel := batch[..|batch| - 1], batch[|batch| - 1];
      BatchCachesNew(p0, source, sid, rows, front, at);
      BatchCounts(p0, source, sid, rows, front, at);
      var p := UpsertBatch(p0, source, sid, rows, front, at).value;
      UpsertNodeCachesNew(p0, p, source, sid, rows, rel.subject, at);
      UpsertNodeSteps(p, source, sid, rows, rel.subject, at);
      var p1 := UpsertNode(p, source, sid, rows, rel.subject, at).value;
      UpsertNodeCachesNew(p0, p1, source, sid, rows, rel.target, at);
      var p2 := UpsertNode(p1, source, sid, rows, rel.target, at).value;
      EdgeStepKeeps(p2, source, sid, TripleOf(p2.cache, rel), rel.attributes, at);
      SameNew(p0, p2, UpsertBatch(p0, source, sid, rows, batch, at).value);
    }
  }

  lemma SameNew(p0: Progress, p: Progress, q: Progress)
    requires NewAreCached(p0, p) && q.nodes == p.nodes && q.cache == p.cache
    ensures NewAreCached(p0, q)
  {
  }

  /** A later lookup that still finds the rows the first one found. */
  ghost predicate SameLookup(rows: map<string, NodeId>, again: map<string, NodeId>) {
    forall x :: x in rows ==> x in again && again[x] == rows[x]
  }

  /** After a batch, lookups find what the batch resolved its references to. */
  lemma LookupFindsCached(
    p0: Progress, p: Progress, source: Source, sid: SourceId, rows: map<string, NodeId>, again: map<string, NodeId>, batch: seq<Relationship>, ref: Ref)
    requires IsLookup(p0.nodes, source.tenant, rows) && IsLookup(p.nodes, source.tenant, again) && SameLookup(rows, again)
    requires BatchStep(p0, p, source, sid, rows, batch) && NewAreCached(p0, p) && Resolved(p, source, sid, ref)
    ensures ref.id in again && again[ref.id] == p.cache[ref.id] && Ready(p, sid, again, ref)
  {
    var n := p.cache[ref.id];
    assert ref.id in again;
    if ref.id !in rows {
      var m := again[ref.id];
      assert m in p.nodes && p.nodes[m].externalId == Some(ref.id);
      assert m !in p0.nodes;
    }
  }

  /** The same but for time stamps. */
  ghost predicate SameNodes(a: map<NodeId, AccessNode>, b: map<NodeId, AccessNode>) {
    a.Keys == b.Keys && forall n :: n in a ==> b[n] == a[n].(observedAt := b[n].observedAt)
  }

  ghost predicate HasBut(edges: set<AccessEdge>, e: AccessEdge) {
    exists f :: f in edges && f == e.(observedAt := f.observedAt)
  }

  ghost predicate SameEdges(a: set<AccessEdge>, b: set<AccessEdge>) {
    (forall e :: e in a ==> HasBut(b, e)) && (forall e :: e in b ==> HasBut(a, e))
  }

  ghost predicate SameButStamps(a: Db, b: Db, sid: SourceId) {
    && SameNodes(a.accessNodes, b.accessNodes) && SameEdges(a.accessEdges, b.accessEdges)
    && sid in a.sources && sid in b.sources
    && b.sources == a.sources[sid := a.sources[sid].(lastSyncAt := b.sources[sid].lastSyncAt)]
    && b.(accessNodes := a.accessNodes, accessEdges := a.accessEdges, sources := a.sources, nextRow := a.nextRow) == a
  }

  lemma {:induction false} ReadyBatch(
    p0: Progress, source: Source, sid: SourceId, rows: map<string, NodeId>, batch: seq<Relationship>, at: Time)
    requires Faithful(p0, source, rows) && Numbered(p0) && Consistent(p0, rows)
    requires forall rel :: rel in batch ==> Ready(p0, sid, rows, rel.subject) && Ready(p0, sid, rows, rel.target)
    ensures var r := UpsertBatch(p0, source, sid, rows, batch, at);
            r.Success? && r.value.nodes.Keys == p0.nodes.Keys && r.value.nodesCreated == p0.nodesCreated
  {
    if batch != [] {
      var front, rel := batch[..|batch| - 1], batch[|batch| - 1];
      assert rel in batch && forall x :: x in front ==> x in batch;
      ReadyBatch(p0, source, sid, rows, front, at);
      BatchCounts(p0, source, sid, rows, front, at);
      var p := UpsertBatch(p0, source, sid, rows, front, at).value;
      FaithfulIsConsistent(p, source, rows);
      ReadyRelationship(p, source, sid, rows, rel, at);
    }
  }

  /** Two batches that resolve alike write the same edges, but for the stamps. */
  lemma RepeatEdgeAt(
    was: Option<AccessEdge>, t: Triple, c: map<string, NodeId>, d: map<string, NodeId>, source: Source, source': Source, sid: SourceId, batch: seq<Relationship>, at: Time, again: Time)
    requires Cached(c, batch) && Cached(d, batch) && (forall rel :: rel in batch ==> TripleOf(c, rel) == TripleOf(d, rel))
    requires was.Some? ==> At(was.value, t)
    requires Last(t, c, batch).Some?
    ensures var first := Fold(was, t, c, source, sid, batch, at); var second := Fold(first, t, d, source', sid, batch, again);
            first.Some? && second.Some? && At(first.value, t) && second.value == first.value.(observedAt := second.value.observedAt)
  {
    LastRelationshipWins(was, t, c, source, sid, batch, at);
    SameLast(t, c, d, batch);
    var first := Fold(was, t, c, source, sid, batch, at);
    LastRelationshipWins(first, t, d, source', sid, batch, again);
  }

  lemma {:induction false} SameLast(t: Triple, c: map<string, NodeId>, d: map<string, NodeId>, batch: seq<Relationship>)
    requires Cached(c, batch) && Cached(d, batch) && forall rel :: rel in batch ==> TripleOf(c, rel) == TripleOf(d, rel)
    ensures Last(t, c, batch) == Last(t, d, batch)
  {
    if batch != [] {
      SameLast(t, c, d, batch[..|batch| - 1]);
    }
  }

  function TripleAt(e: AccessEdge): Triple {
    Triple(e.src, e.relation, e.dst)
  }

  /** The three edge tables of a repetition at one triple. */
  lemma RepeatAtTriple(
    p0: Progress, p: Progress, s0: Progress, q: Progress, source: Source, source': Source, sid: SourceId, rows: map<string, NodeId>,
    again: map<string, NodeId>, batch: seq<Relationship>, at: Time, later: Time, t: Triple)
    requires Faithful(p0, source, rows) && Numbered(p0) && Consistent(p0, rows)
    requires Faithful(s0, source', again) && Numbered(s0) && Consistent(s0, again)
    requires UpsertBatch(p0, source, sid, rows, batch, at) == Success(p)
    requires UpsertBatch(s0, source', sid, again, batch, later) == Success(q)
    requires Cached(p.cache, batch) && Cached(q.cache, batch) && s0.edges == p.edges
    requires forall rel :: rel in batch ==> TripleOf(p.cache, rel) == TripleOf(q.cache, rel)
    requires UniqueAlong(p0.edges, p.cache, batch)
    ensures Last(t, p.cache, batch).None? ==> forall e :: At(e, t) ==> (e in q.edges <==> e in p.edges)
    ensures Last(t, p.cache, batch).Some? ==>
              && UniqueAt(p.edges, t) && UniqueAt(q.edges, t) && EdgeAt(p.edges, t).Some? && EdgeAt(q.edges, t).Some?
              && EdgeAt(q.edges, t).value == EdgeAt(p.edges, t).value.(observedAt := EdgeAt(q.edges, t).value.observedAt)
  {
    SameLast(t, p.cache, q.cache, batch);
    if Last(t, p.cache, batch).None? {
      BatchElsewhere(s0, source', sid, again, batch, later, t);
    } else {
      LastExists(t, p.cache, batch);
      BatchEdges(p0, source, sid, rows, batch, at, t);
      BatchEdges(s0, source', sid, again, batch, later, t);
      RepeatEdgeAt(EdgeAt(p0.edges, t), t, p.cache, q.cache, source, source', sid, batch, at, later);
    }
  }

  /** Equal up to stamps at a triple means: each edge there has its counterpart. */
  lemma CounterpartAt(a: set<AccessEdge>, b: set<AccessEdge>, t: Triple, e: AccessEdge)
    requires e in a && At(e, t)
    requires (forall f :: At(f, t) ==> (f in b <==> f in a))
             || (&& UniqueAt(a, t) && EdgeAt(a, t).Some? && EdgeAt(b, t).Some?
                 && EdgeAt(b, t).value == EdgeAt(a, t).value.(observedAt := EdgeAt(b, t).value.observedAt))
    ensures HasBut(b, e)
  {
  }

  /** A database whose rows are numbered below the row counter, and a lookup by external id. */
  ghost predicate IngestReady(db: Db, sid: SourceId, rows: map<string, NodeId>) {
    sid in db.sources && Numbered(Start(db)) && IsLookup(db.accessNodes, db.sources[sid].tenant, rows)
  }

  lemma ReadyToIngest(db: Db, sid: SourceId, rows: map<string, NodeId>)
    requires IngestReady(db, sid, rows)
    ensures Consistent(Start(db), rows) && Faithful(Start(db), db.sources[sid], rows)
  {
  }

  /** What an accepted batch amounts to. */
  ghost predicate Accepted(db: Db, sid: SourceId, rows: map<string, NodeId>, batch: seq<Relationship>, at: Time, p: Progress, after: Db) {
    && sid in db.sources && Consistent(Start(db), rows)
    && UpsertBatch(Start(db), db.sources[sid], sid, rows, batch, at) == Success(p)
    && after == db.(accessNodes := p.nodes, accessEdges := p.edges, nextRow := p.nextRow,
                    sources := db.sources[sid := db.sources[sid].(lastSyncAt := Some(at))])
  }

  lemma AcceptedBatch(
    db: Db, sid: SourceId, batch: seq<Relationship>, rows: map<string, NodeId>, observedAt: Option<Time>, now: Time, limit: nat)
    returns (p: Progress, after: Db, at: Time)
    requires IngestReady(db, sid, rows) && Consistent(Start(db), rows)
    requires Ingest(db, sid, batch, rows, observedAt, now, limit).Success?
    ensures after == Ingest(db, sid, batch, rows, observedAt, now, limit).value.0
    ensures at == (if observedAt.Some? then observedAt.value else now) && at <= now
    ensures Accepted(db, sid, rows, batch, at, p, after)
    ensures sid !in db.states && BatchPermitted(db.sources[sid], batch, limit)
    ensures var s := Ingest(db, sid, batch, rows, observedAt, now, limit).value.1;
            s.nodesCreated == p.nodesCreated && s.edgesCreated == p.edgesCreated && s.edgesUpdated == p.edgesUpdated
  {
    hide UpsertBatch, BatchPermitted;
    at := if observedAt.Some? then observedAt.value else now;
    p := UpsertBatch(Start(db), db.sources[sid], sid, rows, batch, at).value;
    after := Ingest(db, sid, batch, rows, observedAt, now, limit).value.0;
  }

  /** Progress of a repetition from the state the batch left. */
  lemma RepeatProgress(
    db: Db, sid: SourceId, batch: seq<Relationship>, rows: map<string, NodeId>, again: map<string, NodeId>, at: Time, later: Time, p: Progress, after: Db)
    returns (q: Progress)
    requires IngestReady(db, sid, rows) && Accepted(db, sid, rows, batch, at, p, after) && Cached(p.cache, batch)
    requires UniqueAlong(db.accessEdges, p.cache, batch)
    requires IsLookup(after.accessNodes, db.sources[sid].tenant, again) && SameLookup(rows, again)
    ensures IngestReady(after, sid, again) && Consistent(Start(after), again)
    ensures UpsertBatch(Start(after), after.sources[sid], sid, again, batch, later) == Success(q)
    ensures q.nodesCreated == 0 && q.edgesCreated == 0 && q.edgesUpdated == |batch|
    ensures SameNodes(after.accessNodes, q.nodes) && SameEdges(after.accessEdges, q.edges)
  {
    var source, p0, s0 := db.sources[sid], Start(db), Start(after);
    ReadyToIngest(db, sid, rows);
    BatchCounts(p0, source, sid, rows, batch, at);
    BatchCachesNew(p0, source, sid, rows, batch, at);
    ReadyToIngest(after, sid, again);
    forall rel | rel in batch
      ensures Ready(s0, sid, again, rel.subject) && Ready(s0, sid, again, rel.target)
      ensures rel.subject.id in again && again[rel.subject.id] == p.cache[rel.subject.id]
      ensures rel.target.id in again && again[rel.target.id] == p.cache[rel.target.id]
    {
      LookupFindsCached(p0, p, source, sid, rows, again, batch, rel.subject);
      LookupFindsCached(p0, p, source, sid, rows, again, batch, rel.target);
      ReadyInTable(p, s0, sid, again, rel.subject);
      ReadyInTable(p, s0, sid, again, rel.target);
    }
    ReadyBatch(s0, after.sources[sid], sid, again, batch, later);
    q := UpsertBatch(s0, after.sources[sid], sid, again, batch, later).value;
    RepeatIsQuiet(db, sid, batch, rows, again, at, later, p, after, q);
  }

  lemma ReadyInTable(p: Progress, s0: Progress, sid: SourceId, rows: map<string, NodeId>, ref: Ref)
    requires Ready(p, sid, rows, ref) && s0.nodes == p.nodes
    ensures Ready(s0, sid, rows, ref)
  {
  }

  lemma RepeatIsQuiet(
    db: Db, sid: SourceId, batch: seq<Relationship>, rows: map<string, NodeId>, again: map<string, NodeId>, at: Time, later: Time, p: Progress,
    after: Db, q: Progress)
    requires sid in db.sources && Faithful(Start(db), db.sources[sid], rows) && Numbered(Start(db)) && Consistent(Start(db), rows)
    requires Accepted(db, sid, rows, batch, at, p, after) && Cached(p.cache, batch) && UniqueAlong(db.accessEdges, p.cache, batch)
    requires Faithful(Start(after), after.sources[sid], again) && Numbered(Start(after)) && Consistent(Start(after), again)
    requires UpsertBatch(Start(after), after.sources[sid], sid, again, batch, later) == Success(q)
    requires q.nodes.Keys == after.accessNodes.Keys && q.nodesCreated == 0
    requires forall rel :: rel in batch ==>
               && rel.subject.id in again && again[rel.subject.id] == p.cache[rel.subject.id]
               && rel.target.id in again && again[rel.target.id] == p.cache[rel.target.id]
    ensures q.edgesCreated == 0 && q.edgesUpdated == |batch|
    ensures SameNodes(after.accessNodes, q.nodes) && SameEdges(after.accessEdges, q.edges)
  {
    var source, p0, s0 := db.sources[sid], Start(db), Start(after);
    var source' := after.sources[sid];
    BatchCounts(s0, source', sid, again, batch, later);
    BatchIsCached(s0, q, source', sid, again, batch);
    forall rel | rel in batch ensures TripleOf(p.cache, rel) == TripleOf(q.cache, rel) {
    }
    RepeatEdges(p0, p, s0, q, source, source', sid, rows, again, batch, at, later);
  }

  /** The tenant of the source is all the edges take from it besides its id. */
  lemma RepeatEdges(
    p0: Progress, p: Progress, s0: Progress, q: Progress, source: Source, source': Source, sid: SourceId, rows: map<string, NodeId>,
    again: map<string, NodeId>, batch: seq<Relationship>, at: Time, later: Time)
    requires Faithful(p0, source, rows) && Numbered(p0) && Consistent(p0, rows)
    requires Faithful(s0, source', again) && Numbered(s0) && Consistent(s0, again)
    requires UpsertBatch(p0, source, sid, rows, batch, at) == Success(p)
    requires UpsertBatch(s0, source', sid, again, batch, later) == Success(q)
    requires Cached(p.cache, batch) && Cached(q.cache, batch) && s0.edges == p.edges && s0.edgesCreated == 0 == s0.edgesUpdated
    requires forall rel :: rel in batch ==> TripleOf(p.cache, rel) == TripleOf(q.cache, rel)
    requires UniqueAlong(p0.edges, p.cache, batch)
    ensures SameEdges(p.edges, q.edges) && q.edgesCreated == 0 && q.edgesUpdated == |batch|
  {
    hide UpsertBatch, Faithful, Numbered, Resolved, UniqueAt, Consistent, Last, EdgeAt, Fold, HasBut;
    forall e | e in p.edges ensures HasBut(q.edges, e) {
      RepeatAtTriple(p0, p, s0, q, source, source', sid, rows, again, batch, at, later, TripleAt(e));
      CounterpartAt(p.edges, q.edges, TripleAt(e), e);
    }
    forall e | e in q.edges ensures HasBut(p.edges, e) {
      RepeatAtTriple(p0, p, s0, q, source, source', sid, rows, again, batch, at, later, TripleAt(e));
      CounterpartAt(q.edges, p.edges, TripleAt(e), e);
    }
    forall rel | rel in batch ensures UniqueAt(s0.edges, TripleOf(q.cache, rel)) && EdgeAt(s0.edges, TripleOf(q.cache, rel)).Some? {
      var t := TripleOf(q.cache, rel);
      LastExists(t, p.cache, batch);
      RepeatAtTriple(p0, p, s0, q, source, source', sid, rows, again, batch, at, later, t);
    }
    BatchEdgeCounts(s0, source', sid, again, batch, later);
    BatchCounts(s0, source', sid, again, batch, later);
  }
}
