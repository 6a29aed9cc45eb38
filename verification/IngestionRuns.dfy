/** Legacy batches in every state the control plane can reach: honest counters, and repetition without effect. */
module IngestionRuns {
  import opened Wrappers
  import opened Contracts
  import opened Store
  import opened Ingestion
  import opened IngestionEffects
  import ControlPlane

  /** Whatever an unversioned source owns are legacy rows; a new one has no edges yet. */
  lemma OwnedTripleIsUnique(db: Db, after: Db, sid: SourceId, p: Progress, t: Triple)
    requires ControlPlane.AfterBatch(db, after, sid, p) && t.src in p.nodes && p.nodes[t.src].sourceId == Some(sid)
    requires ControlPlane.Invariant(db)
    ensures UniqueAt(db.accessEdges, t)
  {
    ControlPlane.BatchUnpublished(db, sid);
    var n := t.src;
    if n in db.accessNodes {
      assert ControlPlane.NodeInvariant(db, n);
      ControlPlane.OwnedRowIsAssigned(db, sid, n);
      assert ControlPlane.LegacyRow(db, n);
    } else {
      forall e | e in db.accessEdges ensures !At(e, t) {
        assert ControlPlane.EdgeInvariant(db, e);
      }
      NoEdgeIsUnique(db.accessEdges, t);
    }
  }

  lemma NoEdgeIsUnique(edges: set<AccessEdge>, t: Triple)
    requires forall e :: e in edges ==> !At(e, t)
    ensures UniqueAt(edges, t)
  {
  }

  /** In every reachable state the edge table has at most one edge at each triple a batch writes. */
  lemma BatchTriplesAreUnique(
    db: Db, sid: SourceId, batch: seq<Relationship>, rows: map<string, NodeId>, observedAt: Option<Time>, now: Time, limit: nat)
    returns (p: Progress, after: Db, at: Time)
    requires sid in db.sources && IsLookup(db.accessNodes, db.sources[sid].tenant, rows)
    requires Consistent(Start(db), rows) && Ingest(db, sid, batch, rows, observedAt, now, limit).Success?
    requires ControlPlane.Invariant(db)
    ensures IngestReady(db, sid, rows) && Accepted(db, sid, rows, batch, at, p, after)
    ensures Cached(p.cache, batch) && UniqueAlong(db.accessEdges, p.cache, batch)
    ensures after == Ingest(db, sid, batch, rows, observedAt, now, limit).value.0
    ensures at == (if observedAt.Some? then observedAt.value else now)
    ensures BatchStep(Start(db), p, db.sources[sid], sid, rows, batch)
    ensures sid !in db.states && BatchPermitted(db.sources[sid], batch, limit)
    ensures var s := Ingest(db, sid, batch, rows, observedAt, now, limit).value.1;
            s.nodesCreated == p.nodesCreated && s.edgesCreated == p.edgesCreated && s.edgesUpdated == p.edgesUpdated
  {
    ReadyToIngest(db, sid, rows);
    p, after, at := AcceptedBatch(db, sid, batch, rows, observedAt, now, limit);
    var after', p' := ControlPlane.BatchEffect(db, sid, batch, rows, observedAt, now, limit);
    BatchCounts(Start(db), db.sources[sid], sid, rows, batch, at);
    BatchIsCached(Start(db), p, db.sources[sid], sid, rows, batch);
    forall rel | rel in batch ensures UniqueAt(db.accessEdges, TripleOf(p.cache, rel)) {
      OwnedTripleIsUnique(db, after', sid, p', TripleOf(p.cache, rel));
    }
  }

  /** Over every run: the counters of an accepted batch are the growth of the tables. */
  lemma CountersTellGrowth(
    start: Db, events: seq<ControlPlane.Event>, sid: SourceId, batch: seq<Relationship>, rows: map<string, NodeId>,
    observedAt: Option<Time>, now: Time, limit: nat)
    requires ControlPlane.Initial(start)
    requires var db := ControlPlane.Run(start, events);
             && sid in db.sources && IsLookup(db.accessNodes, db.sources[sid].tenant, rows) && Consistent(Start(db), rows)
             && Ingest(db, sid, batch, rows, observedAt, now, limit).Success?
    ensures var db := ControlPlane.Run(start, events); var (after, s) := Ingest(db, sid, batch, rows, observedAt, now, limit).value;
            && s.relationships == |batch| == s.edgesCreated + s.edgesUpdated
            && s.nodesCreated == |after.accessNodes| - |db.accessNodes|
            && s.edgesCreated == |after.accessEdges| - |db.accessEdges|
  {
    hide ControlPlane.Run, ControlPlane.Initial, ControlPlane.Invariant, UpsertBatch, Faithful, Numbered, Resolved, UniqueAt, IsLookup;
    ControlPlane.InvariantAlways(start, events);
    var db := ControlPlane.Run(start, events);
    var p, after, at := BatchTriplesAreUnique(db, sid, batch, rows, observedAt, now, limit);
    ReadyToIngest(db, sid, rows);
    BatchEdgeCounts(Start(db), db.sources[sid], sid, rows, batch, at);
  }

  /** Over every run: repeating an accepted batch, at whatever later time, is accepted again, creates nothing, updates
      one edge per relationship, and leaves every table as it was but for time stamps. */
  lemma RepeatingIsIdempotent(
    start: Db, events: seq<ControlPlane.Event>, sid: SourceId, batch: seq<Relationship>, rows: map<string, NodeId>,
    observedAt: Option<Time>, now: Time, limit: nat, again: map<string, NodeId>, observedAgain: Option<Time>, later: Time)
    requires ControlPlane.Initial(start)
    requires var db := ControlPlane.Run(start, events);
             && sid in db.sources && IsLookup(db.accessNodes, db.sources[sid].tenant, rows) && Consistent(Start(db), rows)
             && var first := Ingest(db, sid, batch, rows, observedAt, now, limit);
                first.Success? && IsLookup(first.value.0.accessNodes, db.sources[sid].tenant, again) && SameLookup(rows, again)
    requires observedAgain.Some? ==> observedAgain.value <= later
    ensures var after := Ingest(ControlPlane.Run(start, events), sid, batch, rows, observedAt, now, limit).value.0;
            && sid in after.sources && Consistent(Start(after), again)
            && var second := Ingest(after, sid, batch, again, observedAgain, later, limit);
               && second.Success? && SameButStamps(after, second.value.0, sid)
               && second.value.1.nodesCreated == 0 && second.value.1.edgesCreated == 0 && second.value.1.edgesUpdated == |batch|
  {
    hide ControlPlane.Run, ControlPlane.Initial, ControlPlane.Invariant, UpsertBatch, Faithful, Numbered, Resolved, UniqueAt, IsLookup,
         SameNodes, SameEdges, UniqueAlong, Cached, BatchStep, SameLookup;
    ControlPlane.InvariantAlways(start, events);
    var db := ControlPlane.Run(start, events);
    var p, after, at := BatchTriplesAreUnique(db, sid, batch, rows, observedAt, now, limit);
    var time := if observedAgain.Some? then observedAgain.value else later;
    var q := RepeatProgress(db, sid, batch, rows, again, at, time, p, after);
  }
}
