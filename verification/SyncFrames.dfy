/** What one accepted message leaves alone, and what exactly it makes of the graphs. */
module SyncFrames {
  import opened Wrappers
  import opened Contracts
  import opened Store
  import opened Sync

  /** Everything about source `s` except its graph rows is the same in both states. */
  ghost predicate SameSource(db: Db, after: Db, s: SourceId) {
    && (s in db.sources <==> s in after.sources)
    && (s in db.sources ==> after.sources[s] == db.sources[s])
    && (s in db.states <==> s in after.states)
    && (s in db.states ==> after.states[s] == db.states[s])
    && (forall i: nat :: ReceiptId(s, i) in db.receipts <==> ReceiptId(s, i) in after.receipts)
    && (forall i: nat :: ReceiptId(s, i) in db.receipts ==> after.receipts[ReceiptId(s, i)] == db.receipts[ReceiptId(s, i)])
    && (forall g :: Slot(s, g) in db.facts <==> Slot(s, g) in after.facts)
    && (forall g :: db.Facts(s, g) == after.Facts(s, g))
  }

  /** The rows of both graphs that one owner accounts for. */
  datatype Rows = Rows(
    nodes: map<NodeId, AccessNode>, edges: set<AccessEdge>, objects: map<NodeId, ObjectNode>, objectEdges: set<ObjectEdge>)

  function OwnNodes(db: Db, owner: Option<SourceId>): map<NodeId, AccessNode> {
    map n | n in db.accessNodes && db.accessNodes[n].sourceId == owner :: db.accessNodes[n]
  }

  function OwnObjects(db: Db, owner: Option<SourceId>): map<NodeId, ObjectNode> {
    map n | n in db.objectNodes && db.objectNodes[n].owner == owner :: db.objectNodes[n]
  }

  function OwnEdges(db: Db, owner: Option<SourceId>): set<AccessEdge> {
    set e | e in db.accessEdges && e.sourceId == owner
  }

  function OwnObjectEdges(db: Db, owner: Option<SourceId>): set<ObjectEdge> {
    set e | e in db.objectEdges && e.owner == owner
  }

  function OwnRows(db: Db, owner: Option<SourceId>): Rows {
    Rows(OwnNodes(db, owner), OwnEdges(db, owner), OwnObjects(db, owner), OwnObjectEdges(db, owner))
  }

  predicate Publishes(m: SyncMessage) {
    m.operation.Complete? || m.operation.Delta?
  }

  /** How the facts change before they are published. */
  ghost predicate FactsChange(db: Db, sid: SourceId, m: SyncMessage, facts: map<Slot, Generation>)
    requires sid in db.sources
  {
    var tenant := db.sources[sid].tenant;
    match m.operation
    case Begin => facts == db.facts
    case Page =>
      var r := UpsertAll(tenant, db.Facts(sid, m.snapshotId), m.Facts());
      r.Success? && facts == WithFacts(db.facts, Slot(sid, m.snapshotId), r.value)
    case Abort => facts == db.facts - {Slot(sid, m.snapshotId)}
    case Complete => facts == WithFacts(db.facts - {Slot(sid, m.snapshotId)}, Slot(sid, LIVE), db.Facts(sid, m.snapshotId))
    case Delta =>
      var r := UpsertAll(tenant, Without(db.Facts(sid, LIVE), m.tombstones), m.Facts());
      r.Success? && facts == WithFacts(db.facts, Slot(sid, LIVE), r.value)
  }

  /** The facts and state an operation arrives at before it publishes them, if it does. */
  lemma OperateSplits(db: Db, sid: SourceId, m: SyncMessage, now: Time) returns (changed: Db)
    requires sid in db.sources && sid in db.states && Operate(db, sid, db.states[sid], m, now).Success?
    ensures sid in changed.states && changed == db.(facts := changed.facts, states := db.states[sid := changed.states[sid]])
    ensures changed.states[sid].manifest == db.states[sid].manifest && FactsChange(db, sid, m, changed.facts)
    ensures Operate(db, sid, db.states[sid], m, now).value ==
            if Publishes(m) then Publish(changed, sid, db.states[sid].manifest, now) else changed
  {
    hide UpsertAll, WithFacts, Without, Publish, FactsAt;
    var state := db.states[sid];
    var next, tenant := state.(sequence := m.sequence), db.sources[sid].tenant;
    match m.operation {
      case Begin =>
        changed := db.(states := db.states[sid := next.(snapshot := Some(m.snapshotId))]);
      case Page =>
        var gen := UpsertAll(tenant, db.Facts(sid, m.snapshotId), m.Facts()).value;
        changed := db.(states := db.states[sid := next], facts := WithFacts(db.facts, Slot(sid, m.snapshotId), gen));
      case Abort =>
        changed := db.(states := db.states[sid := next.(snapshot := None)], facts := db.facts - {Slot(sid, m.snapshotId)});
      case Complete =>
        changed := db.(states := db.states[sid := next.(snapshot := None, coverage := CompleteCoverage)],
                       facts := WithFacts(db.facts - {Slot(sid, m.snapshotId)}, Slot(sid, LIVE), db.Facts(sid, m.snapshotId)));
      case Delta =>
        var gen := UpsertAll(tenant, Without(db.Facts(sid, LIVE), m.tombstones), m.Facts()).value;
        changed := db.(states := db.states[sid := next], facts := WithFacts(db.facts, Slot(sid, LIVE), gen));
    }
  }

  lemma OperationSplits(db: Db, sid: SourceId, m: SyncMessage, now: Time) returns (changed: Db)
    requires sid in db.sources && Apply(db, sid, m, now).Accepted?
    ensures sid in db.states && sid in changed.states
    ensures changed == db.(facts := changed.facts, states := db.states[sid := changed.states[sid]])
    ensures changed.states[sid].manifest == db.states[sid].manifest
    ensures FactsError(db.sources, sid, db.states[sid].manifest, m.Facts(), now).None? && m.snapshotId != LIVE
    ensures var after, rid := Apply(db, sid, m, now).db, ReceiptId(sid, m.sequence);
            && rid !in db.receipts && rid in after.receipts
            && after == (if Publishes(m) then Publish(changed, sid, db.states[sid].manifest, now) else changed)
                        .(receipts := db.receipts[rid := after.receipts[rid]])
            && after.receipts[rid].digest == m
    ensures FactsChange(db, sid, m, changed.facts)
  {
    changed := OperateSplits(db, sid, m, now);
  }

  lemma OperationShape(db: Db, sid: SourceId, m: SyncMessage, now: Time) returns (changed: Db)
    requires sid in db.sources && Apply(db, sid, m, now).Accepted?
    ensures sid in db.states && sid in changed.states
    ensures changed == db.(facts := changed.facts, states := db.states[sid := changed.states[sid]])
    ensures changed.states[sid].manifest == db.states[sid].manifest
    ensures var after, rid := Apply(db, sid, m, now).db, ReceiptId(sid, m.sequence);
            && rid !in db.receipts && rid in after.receipts
            && after == (if Publishes(m) then Publish(changed, sid, db.states[sid].manifest, now) else changed)
                        .(receipts := db.receipts[rid := after.receipts[rid]])
            && after.receipts[rid].digest == m
  {
    hide *;
    changed := OperationSplits(db, sid, m, now);
  }

  lemma {:induction false} ValidRecordsAreOwn(
    sources: map<SourceId, Source>, sid: SourceId, manifest: Manifest, records: seq<Record>, now: Time, r: Record)
    requires sid in sources && FactsError(sources, sid, manifest, records, now).None? && r in records
    ensures r.ObjectRecord? ==> r.ref.sourceId == sid
  {
    if r == records[|records| - 1] {
      assert FactError(sources, sid, manifest, r, now).None?;
    } else {
      ValidRecordsAreOwn(sources, sid, manifest, records[..|records| - 1], now, r);
    }
  }

  // ------------------------------------------------------------------ Projection is exact

  /** What a projection relies on: canonical rows belong to the source their id names. */
  ghost predicate Projectable(db: Db, sid: SourceId) {
    && sid in db.sources
    && Keyed(db.sources[sid].tenant, sid, db.Facts(sid, LIVE))
    && OwnedNodes(db.accessNodes) && OwnedObjects(db.sources, db.objectNodes)
  }

  /** No insertion of a projection meets an existing row, so no unique constraint is violated. */
  lemma ProjectionNeverCollides(db: Db, sid: SourceId)
    requires Projectable(db, sid)
    ensures Cleared(db, sid).accessNodes.Keys !! ProjectedNodes(db.sources[sid], sid, db.Facts(sid, LIVE)).Keys
    ensures Cleared(db, sid).objectNodes.Keys !! ProjectedObjects(db.sources[sid], sid, db.Facts(sid, LIVE)).Keys
  {
  }

  lemma ObjectsAre(source: Source, sid: SourceId, gen: Generation)
    ensures ProjectedObjects(source, sid, gen).Keys == ObjectIds(gen)
    ensures forall n :: n in ObjectIds(gen) ==>
              && n.Projected? && ObjectKey(n.id) in gen && gen[ObjectKey(n.id)].ObjectRecord?
              && ProjectedObjects(source, sid, gen)[n] == ObjectRow(source, sid, gen[ObjectKey(n.id)])
  {
    hide ObjectRow;
  }

  lemma NodesAre(source: Source, sid: SourceId, gen: Generation)
    ensures ProjectedNodes(source, sid, gen).Keys == AccessIds(gen)
    ensures forall n :: n in AccessIds(gen) ==>
              && n.Projected? && ObjectKey(n.id) in gen && gen[ObjectKey(n.id)].ObjectRecord?
              && ProjectedNodes(source, sid, gen)[n] == AccessRow(source, sid, gen[ObjectKey(n.id)])
  {
    hide AccessRow;
  }

  ghost predicate Constraints(db: Db) {
    UniqueNames(db.accessNodes) && UniqueObjectNames(db.objectNodes)
  }

  lemma TakenObject(db: Db, sid: SourceId, live: Generation, k: FactKey, n: NodeId)
    requires Projectable(db, sid) && Keyed(db.sources[sid].tenant, sid, live) && k in live && live[k].ObjectRecord?
    requires n in Cleared(db, sid).objectNodes && n !in ObjectIds(live)
    requires db.objectNodes[n].kind == live[k].ref.kind && db.objectNodes[n].name == live[k].ref.CanonicalId(db.sources[sid].tenant).Text()
    ensures !UniqueObjectNames(Cleared(db, sid).objectNodes + ProjectedObjects(db.sources[sid], sid, live))
  {
    hide CanonicalId.Text;
    ObjectsAre(db.sources[sid], sid, live);
    assert k == ObjectKey(live[k].ref.CanonicalId(db.sources[sid].tenant));
    var m, after := Projected(k.id), Cleared(db, sid).objectNodes + ProjectedObjects(db.sources[sid], sid, live);
    assert m in ObjectIds(live) && after[m].name == after[n].name && after[m].kind == after[n].kind;
  }

  lemma TakenNode(db: Db, sid: SourceId, live: Generation, k: FactKey, n: NodeId)
    requires Projectable(db, sid) && Keyed(db.sources[sid].tenant, sid, live) && k in live && live[k].ObjectRecord?
    requires live[k].ref.kind in ALLOWED_KINDS
    requires n in Cleared(db, sid).accessNodes && n !in AccessIds(live)
    requires db.accessNodes[n].kind == live[k].ref.kind && db.accessNodes[n].name == live[k].ref.CanonicalId(db.sources[sid].tenant).Text()
    ensures !UniqueNames(Cleared(db, sid).accessNodes + ProjectedNodes(db.sources[sid], sid, live))
  {
    hide CanonicalId.Text, ALLOWED_KINDS;
    NodesAre(db.sources[sid], sid, live);
    assert k == ObjectKey(live[k].ref.CanonicalId(db.sources[sid].tenant));
    var m, after := Projected(k.id), Cleared(db, sid).accessNodes + ProjectedNodes(db.sources[sid], sid, live);
    assert m in AccessIds(live) && after[m].name == after[n].name && after[m].kind == after[n].kind;
  }

  lemma FreeObjects(db: Db, sid: SourceId, live: Generation)
    requires Projectable(db, sid) && Keyed(db.sources[sid].tenant, sid, live) && UniqueObjectNames(db.objectNodes)
    requires !Clashes(db, sid, live)
    ensures UniqueObjectNames(Cleared(db, sid).objectNodes + ProjectedObjects(db.sources[sid], sid, live))
  {
    hide CanonicalId.Text, ALLOWED_KINDS;
    ObjectsAre(db.sources[sid], sid, live);
    var after := Cleared(db, sid).objectNodes + ProjectedObjects(db.sources[sid], sid, live);
    hide ProjectedObjects;
    forall i, j | i in after && j in after && after[i].kind == after[j].kind && after[i].name == after[j].name ensures i == j {
      if i in ObjectIds(live) {
        assert ObjectKey(i.id) in live;
        assert !Bears(Cleared(db, sid).objectNodes, Cleared(db, sid).accessNodes, after[i].kind, after[i].name);
      }
      if j in ObjectIds(live) {
        assert ObjectKey(j.id) in live;
        assert !Bears(Cleared(db, sid).objectNodes, Cleared(db, sid).accessNodes, after[j].kind, after[j].name);
      }
      if i in ObjectIds(live) && j in ObjectIds(live) {
        TextIsInjective(i.id, j.id);
      }
    }
  }

  lemma FreeNodes(db: Db, sid: SourceId, live: Generation)
    requires Projectable(db, sid) && Keyed(db.sources[sid].tenant, sid, live) && UniqueNames(db.accessNodes)
    requires !Clashes(db, sid, live)
    ensures UniqueNames(Cleared(db, sid).accessNodes + ProjectedNodes(db.sources[sid], sid, live))
  {
    hide CanonicalId.Text, ALLOWED_KINDS;
    NodesAre(db.sources[sid], sid, live);
    var after := Cleared(db, sid).accessNodes + ProjectedNodes(db.sources[sid], sid, live);
    hide ProjectedNodes;
    forall i, j | i in after && j in after && after[i].kind == after[j].kind && after[i].name == after[j].name ensures i == j {
      if i in AccessIds(live) {
        assert ObjectKey(i.id) in live;
        assert !Bears(Cleared(db, sid).objectNodes, Cleared(db, sid).accessNodes, after[i].kind, after[i].name);
      }
      if j in AccessIds(live) {
        assert ObjectKey(j.id) in live;
        assert !Bears(Cleared(db, sid).objectNodes, Cleared(db, sid).accessNodes, after[j].kind, after[j].name);
      }
      if i in AccessIds(live) && j in AccessIds(live) {
        TextIsInjective(i.id, j.id);
      }
    }
  }

  /** The rows a projection would leave meet both uniqueness constraints if and only if no row that is not the source's
      own bears the kind and canonical name of an object the source asserts. */
  lemma ConstraintsHoldExactly(db: Db, sid: SourceId, manifest: Manifest)
    requires Projectable(db, sid) && Constraints(db)
    ensures Constraints(Project(db, sid, manifest)) <==> !Clashes(db, sid, db.Facts(sid, LIVE))
  {
    hide CanonicalId.Text, ALLOWED_KINDS, Keyed, OwnedNodes, OwnedObjects, UniqueNames, UniqueObjectNames, ProjectedNodes, ProjectedObjects,
         ProjectedEdges, ProjectedObjectEdges, FactsAt;
    var live := db.Facts(sid, LIVE);
    var source, rest := db.sources[sid], Cleared(db, sid);
    ProjectionNeverCollides(db, sid);
    ObjectsAre(source, sid, live);
    NodesAre(source, sid, live);
    if Clashes(db, sid, live) {
      var k :| k in live && live[k].ObjectRecord? && Bears(rest.objectNodes, rest.accessNodes, live[k].ref.kind, live[k].ref.CanonicalId(source.tenant).Text());
      var kind, name := live[k].ref.kind, live[k].ref.CanonicalId(source.tenant).Text();
      if n :| n in rest.objectNodes && rest.objectNodes[n].kind == kind && rest.objectNodes[n].name == name {
        TakenObject(db, sid, live, k, n);
      } else {
        var n :| n in rest.accessNodes && rest.accessNodes[n].kind == kind && rest.accessNodes[n].name == name;
        TakenNode(db, sid, live, k, n);
      }
    } else {
      FreeObjects(db, sid, live);
      FreeNodes(db, sid, live);
    }
  }

  lemma OwnNodesOfUnion(
    before: map<NodeId, AccessNode>, added: map<NodeId, AccessNode>, sid: SourceId, owner: Option<SourceId>)
    requires forall n :: n in added ==> added[n].sourceId == Some(sid)
    requires (map n | n in before && before[n].sourceId != Some(sid) :: before[n]).Keys !! added.Keys
    ensures var after := (map n | n in before && before[n].sourceId != Some(sid) :: before[n]) + added;
            (map n | n in after && after[n].sourceId == owner :: after[n]) ==
            if owner == Some(sid) then added else map n | n in before && before[n].sourceId == owner :: before[n]
  {
  }

  lemma OwnObjectsOfUnion(
    before: map<NodeId, ObjectNode>, kept: map<NodeId, ObjectNode>, added: map<NodeId, ObjectNode>,
    sid: SourceId, owner: Option<SourceId>)
    requires forall n :: n in added ==> added[n].owner == Some(sid)
    requires kept == map n | n in before && before[n].owner != Some(sid) :: before[n]
    requires kept.Keys !! added.Keys
    ensures var after := kept + added;
            (map n | n in after && after[n].owner == owner :: after[n]) ==
            if owner == Some(sid) then added else map n | n in before && before[n].owner == owner :: before[n]
  {
  }

  /** After a projection the source owns exactly the rows that its live facts and the nodes present
      derive, and every other owner keeps its rows. */
  lemma ProjectionIsExact(db: Db, sid: SourceId, manifest: Manifest, owner: Option<SourceId>)
    requires Projectable(db, sid)
    ensures var source, live, after := db.sources[sid], db.Facts(sid, LIVE), Project(db, sid, manifest);
            OwnRows(after, owner) ==
            if owner == Some(sid) then
              Rows(ProjectedNodes(source, sid, live), ProjectedEdges(source, sid, manifest, live, after.accessNodes),
                   ProjectedObjects(source, sid, live), ProjectedObjectEdges(source, sid, live, after.objectNodes))
            else OwnRows(db, owner)
  {
    hide Project, ProjectedNodes, ProjectedObjects, ProjectedEdges, ProjectedObjectEdges, OwnNodes, OwnObjects, OwnEdges, OwnObjectEdges,
         Keyed, OwnedNodes, OwnedObjects, FactsAt;
    ProjectionNodes(db, sid, manifest, owner);
    ProjectionObjects(db, sid, manifest, owner);
    ProjectionEdges(db, sid, manifest, owner);
  }

  lemma ProjectionNodes(db: Db, sid: SourceId, manifest: Manifest, owner: Option<SourceId>)
    requires Projectable(db, sid)
    ensures OwnNodes(Project(db, sid, manifest), owner) ==
            if owner == Some(sid) then ProjectedNodes(db.sources[sid], sid, db.Facts(sid, LIVE)) else OwnNodes(db, owner)
  {
    ProjectionNeverCollides(db, sid);
    OwnNodesOfUnion(db.accessNodes, ProjectedNodes(db.sources[sid], sid, db.Facts(sid, LIVE)), sid, owner);
    hide ProjectedNodes, ProjectedObjects, ProjectedEdges, ProjectedObjectEdges, Keyed, OwnedNodes, OwnedObjects;
  }

  lemma ProjectionObjects(db: Db, sid: SourceId, manifest: Manifest, owner: Option<SourceId>)
    requires Projectable(db, sid)
    ensures OwnObjects(Project(db, sid, manifest), owner) ==
            if owner == Some(sid) then ProjectedObjects(db.sources[sid], sid, db.Facts(sid, LIVE)) else OwnObjects(db, owner)
  {
    hide ProjectedEdges, ProjectedObjectEdges, ProjectedNodes, AccessRow, CanonicalId.Text, Keyed, OwnedNodes;
    ProjectionNeverCollides(db, sid);
    assert Cleared(db, sid).objectNodes == map n | n in db.objectNodes && db.objectNodes[n].owner != Some(sid) :: db.objectNodes[n];
    OwnObjectsOfUnion(
      db.objectNodes, Cleared(db, sid).objectNodes, ProjectedObjects(db.sources[sid], sid, db.Facts(sid, LIVE)), sid, owner);
    hide ProjectedNodes, ProjectedObjects, ProjectedEdges, ProjectedObjectEdges, Keyed, OwnedNodes, OwnedObjects;
  }

  lemma ProjectionEdges(db: Db, sid: SourceId, manifest: Manifest, owner: Option<SourceId>)
    requires sid in db.sources
    ensures var source, live, after := db.sources[sid], db.Facts(sid, LIVE), Project(db, sid, manifest);
            && OwnEdges(after, owner) == (if owner == Some(sid) then ProjectedEdges(source, sid, manifest, live, after.accessNodes)
                                          else OwnEdges(db, owner))
            && OwnObjectEdges(after, owner) == (if owner == Some(sid) then ProjectedObjectEdges(source, sid, live, after.objectNodes)
                                                else OwnObjectEdges(db, owner))
  {
    var source, live, after := db.sources[sid], db.Facts(sid, LIVE), Project(db, sid, manifest);
    hide ProjectedNodes, ProjectedObjects;
    hide ProjectedEdges, ProjectedObjectEdges;
    OwnObjectEdgesOfUnion(db.objectEdges, ProjectedObjectEdges(source, sid, live, after.objectNodes), sid, owner);
  }

  lemma OwnObjectEdgesOfUnion(edges: set<ObjectEdge>, added: set<ObjectEdge>, sid: SourceId, owner: Option<SourceId>)
    requires forall e :: e in added ==> e.owner == Some(sid)
    ensures (set e | e in (set f | f in edges && f.owner != Some(sid)) + added && e.owner == owner) ==
            if owner == Some(sid) then added else set e | e in edges && e.owner == owner
  {
  }

  // ------------------------------------------------------------------ History independence

  /** Every relationship of the generation stays within the source. */
  ghost predicate InternalOnly(sid: SourceId, live: Generation) {
    forall k :: k in live && live[k].RelationshipRecord? ==> live[k].subject.sourceId == sid && live[k].target.sourceId == sid
  }

  lemma OwnIdsPresent(db: Db, sid: SourceId, manifest: Manifest, n: NodeId)
    requires Projectable(db, sid) && n.Projected? && n.id.ref.sourceId == sid
    ensures n in Project(db, sid, manifest).accessNodes <==> n in AccessIds(db.Facts(sid, LIVE))
    ensures n in Project(db, sid, manifest).objectNodes <==> n in ObjectIds(db.Facts(sid, LIVE))
  {
    hide ProjectedEdges, ProjectedObjectEdges, Keyed, FactsAt;
    assert n in db.accessNodes ==> db.accessNodes[n].sourceId == Some(sid);
    assert n in db.objectNodes ==> n !in Cleared(db, sid).objectNodes;
  }

  /** Two states, with whatever histories, whose live facts agree and stay within the source, project to the
      same rows of that source. */
  lemma ProjectionForgetsHistory(a: Db, b: Db, sid: SourceId, manifest: Manifest)
    requires Projectable(a, sid) && Projectable(b, sid)
    requires a.sources[sid].tenant == b.sources[sid].tenant
    requires a.Facts(sid, LIVE) == b.Facts(sid, LIVE) && InternalOnly(sid, a.Facts(sid, LIVE))
    ensures OwnRows(Project(a, sid, manifest), Some(sid)) == OwnRows(Project(b, sid, manifest), Some(sid))
  {
    var s, t, live := a.sources[sid], b.sources[sid], a.Facts(sid, LIVE);
    var pa, pb := Project(a, sid, manifest), Project(b, sid, manifest);
    ProjectionIsExact(a, sid, manifest, Some(sid));
    ProjectionIsExact(b, sid, manifest, Some(sid));
    SameRowsOfTenant(s, t, sid, live);
    forall k | k in live && live[k].RelationshipRecord?
      ensures SubjectNode(s, live[k]) in pa.accessNodes <==> SubjectNode(t, live[k]) in pb.accessNodes
      ensures TargetNode(s, live[k]) in pa.accessNodes <==> TargetNode(t, live[k]) in pb.accessNodes
      ensures SubjectNode(s, live[k]) in pa.objectNodes <==> SubjectNode(t, live[k]) in pb.objectNodes
      ensures TargetNode(s, live[k]) in pa.objectNodes <==> TargetNode(t, live[k]) in pb.objectNodes
    {
      hide Project, Projectable, FactsAt, OwnRows, ProjectedNodes, ProjectedObjects;
      OwnIdsPresent(a, sid, manifest, SubjectNode(s, live[k]));
      OwnIdsPresent(b, sid, manifest, SubjectNode(t, live[k]));
      OwnIdsPresent(a, sid, manifest, TargetNode(s, live[k]));
      OwnIdsPresent(b, sid, manifest, TargetNode(t, live[k]));
    }
    hide Project, Projectable, FactsAt, OwnRows, ProjectedNodes, ProjectedObjects, InternalOnly;
    SameEdgesOfTenant(s, t, sid, manifest, live, pa, pb);
  }

  lemma SameRowsOfTenant(s: Source, t: Source, sid: SourceId, live: Generation)
    requires s.tenant == t.tenant
    ensures ProjectedNodes(s, sid, live) == ProjectedNodes(t, sid, live)
    ensures ProjectedObjects(s, sid, live) == ProjectedObjects(t, sid, live)
  {
  }

  lemma SameEdgesOfTenant(s: Source, t: Source, sid: SourceId, manifest: Manifest, live: Generation, a: Db, b: Db)
    requires s.tenant == t.tenant
    requires forall k :: k in live && live[k].RelationshipRecord? ==>
               && (SubjectNode(s, live[k]) in a.accessNodes <==> SubjectNode(t, live[k]) in b.accessNodes)
               && (TargetNode(s, live[k]) in a.accessNodes <==> TargetNode(t, live[k]) in b.accessNodes)
               && (SubjectNode(s, live[k]) in a.objectNodes <==> SubjectNode(t, live[k]) in b.objectNodes)
               && (TargetNode(s, live[k]) in a.objectNodes <==> TargetNode(t, live[k]) in b.objectNodes)
    ensures ProjectedEdges(s, sid, manifest, live, a.accessNodes) == ProjectedEdges(t, sid, manifest, live, b.accessNodes)
    ensures ProjectedObjectEdges(s, sid, live, a.objectNodes) == ProjectedObjectEdges(t, sid, live, b.objectNodes)
  {
  }

  // ------------------------------------------------------------------ What an accepted message does

  ghost predicate SameFacts(facts: map<Slot, Generation>, after: map<Slot, Generation>, s: SourceId) {
    && (forall g :: Slot(s, g) in facts <==> Slot(s, g) in after)
    && (forall g :: FactsAt(after, Slot(s, g)) == FactsAt(facts, Slot(s, g)))
  }

  lemma RewriteKeepsOthers(facts: map<Slot, Generation>, slot: Slot, gen: Generation, s: SourceId)
    requires slot.sourceId != s
    ensures SameFacts(facts, WithFacts(facts, slot, gen), s) && SameFacts(facts, facts - {slot}, s)
  {
  }

  lemma ChangedFactsFrame(db: Db, sid: SourceId, m: SyncMessage, now: Time, s: SourceId)
    requires sid in db.sources && Apply(db, sid, m, now).Accepted? && s != sid
    ensures SameFacts(db.facts, Apply(db, sid, m, now).db.facts, s)
  {
    var changed := OperationSplits(db, sid, m, now);
    var tenant, staged, live := db.sources[sid].tenant, Slot(sid, m.snapshotId), Slot(sid, LIVE);
    match m.operation {
      case Begin =>
      case Abort => RewriteKeepsOthers(db.facts, staged, map[], s);
      case Page => RewriteKeepsOthers(db.facts, staged, UpsertAll(tenant, db.Facts(sid, m.snapshotId), m.Facts()).value, s);
      case Complete =>
        RewriteKeepsOthers(db.facts, staged, map[], s);
        RewriteKeepsOthers(db.facts - {staged}, live, db.Facts(sid, m.snapshotId), s);
      case Delta =>
        RewriteKeepsOthers(db.facts, live, UpsertAll(tenant, Without(db.Facts(sid, LIVE), m.tombstones), m.Facts()).value, s);
    }
  }

  /** Other sources keep their facts, state, receipts and registration. */
  lemma AcceptedFrame(db: Db, sid: SourceId, m: SyncMessage, now: Time, s: SourceId)
    requires sid in db.sources && Apply(db, sid, m, now).Accepted? && s != sid
    ensures SameSource(db, Apply(db, sid, m, now).db, s)
  {
    hide Apply, UpsertAll, Without, WithFacts, FactsError, FactsAt, Publish;
    ChangedFactsFrame(db, sid, m, now, s);
    var changed := OperationShape(db, sid, m, now);
  }

  ghost predicate KeyedFacts(sources: map<SourceId, Source>, facts: map<Slot, Generation>) {
    && NoEmptySlots(facts)
    && forall s :: s in facts ==> s.sourceId in sources && Keyed(sources[s.sourceId].tenant, s.sourceId, facts[s])
  }

  lemma KeyedWith(sources: map<SourceId, Source>, facts: map<Slot, Generation>, slot: Slot, gen: Generation)
    requires KeyedFacts(sources, facts) && slot.sourceId in sources && Keyed(sources[slot.sourceId].tenant, slot.sourceId, gen)
    ensures KeyedFacts(sources, WithFacts(facts, slot, gen))
    ensures KeyedFacts(sources, facts - {slot})
    ensures Keyed(sources[slot.sourceId].tenant, slot.sourceId, FactsAt(facts, slot))
  {
  }

  lemma KeyedEmpty(tenant: Tenant, sid: SourceId)
    ensures Keyed(tenant, sid, map[])
  {
  }

  lemma KeyedWithout(tenant: Tenant, sid: SourceId, gen: Generation, keys: seq<FactKey>)
    requires Keyed(tenant, sid, gen)
    ensures Keyed(tenant, sid, Without(gen, keys))
  {
  }

  /** Facts stay keyed by their records through every accepted message. */
  lemma AcceptedStaysKeyed(db: Db, sid: SourceId, m: SyncMessage, now: Time)
    requires sid in db.sources && KeyedFacts(db.sources, db.facts) && Apply(db, sid, m, now).Accepted?
    ensures KeyedFacts(db.sources, Apply(db, sid, m, now).db.facts)
  {
    var changed := OperationSplits(db, sid, m, now);
    var tenant, staged, live := db.sources[sid].tenant, Slot(sid, m.snapshotId), Slot(sid, LIVE);
    KeyedEmpty(tenant, sid);
    KeyedWith(db.sources, db.facts, staged, map[]);
    KeyedWith(db.sources, db.facts, live, map[]);
    hide Apply, KeyedFacts, Keyed, UpsertAll, Without, FactsError;
    match m.operation {
      case Begin =>
      case Abort =>
      case Page =>
        UpsertAllIsKeyed(db.sources, sid, db.states[sid].manifest, FactsAt(db.facts, staged), m.Facts(), now);
        KeyedWith(db.sources, db.facts, staged, FactsAt(changed.facts, staged));
        hide WithFacts;
      case Complete =>
        KeyedWith(db.sources, db.facts - {staged}, live, FactsAt(db.facts, staged));
        hide WithFacts;
      case Delta =>
        KeyedWithout(tenant, sid, FactsAt(db.facts, live), m.tombstones);
        UpsertAllIsKeyed(db.sources, sid, db.states[sid].manifest, Without(FactsAt(db.facts, live), m.tombstones), m.Facts(), now);
        KeyedWith(db.sources, db.facts, live, FactsAt(changed.facts, live));
        hide WithFacts;
    }
  }

  lemma OperateIsFree(db: Db, sid: SourceId, m: SyncMessage, now: Time)
    requires sid in db.sources && sid in db.states && Operate(db, sid, db.states[sid], m, now).Success? && Publishes(m)
    ensures !Clashes(db, sid, Operate(db, sid, db.states[sid], m, now).value.Facts(sid, LIVE))
  {
    hide UpsertAll, WithFacts, Without, Clashes, Publish, FactsAt;
    if m.operation.Delta? {
      WithFactsAt(db.facts, Slot(sid, LIVE), UpsertAll(db.sources[sid].tenant, Without(db.Facts(sid, LIVE), m.tombstones), m.Facts()).value);
    } else {
      WithFactsAt(db.facts - {Slot(sid, m.snapshotId)}, Slot(sid, LIVE), db.Facts(sid, m.snapshotId));
    }
  }

  /** An accepted publication inserted every row it had to. */
  lemma AcceptedIsFree(db: Db, sid: SourceId, m: SyncMessage, now: Time)
    requires sid in db.sources && Apply(db, sid, m, now).Accepted? && Publishes(m)
    ensures !Clashes(db, sid, Apply(db, sid, m, now).db.Facts(sid, LIVE))
  {
    OperateIsFree(db, sid, m, now);
  }

  /** Uniqueness of kind and name survives every accepted message. */
  lemma AcceptedKeepsConstraints(db: Db, sid: SourceId, m: SyncMessage, now: Time)
    requires sid in db.sources && WellFormed(db) && Apply(db, sid, m, now).Accepted? && Constraints(db)
    ensures Constraints(Apply(db, sid, m, now).db)
  {
    hide Apply, Keyed, UpsertAll, Without, FactsError, WithFacts, OwnedNodes, OwnedObjects, FactsAt, KeyedFacts, SomeTaken, UniqueNames,
         UniqueObjectNames;
    var changed := OperationShape(db, sid, m, now);
    if Publishes(m) {
      AcceptedIsKeyed(db, sid, m, now);
      AcceptedIsFree(db, sid, m, now);
      SameClashes(db, changed, sid, changed.Facts(sid, LIVE));
      ConstraintsHoldExactly(changed, sid, db.states[sid].manifest);
      hide Project;
    }
  }

  /** Clashes are a matter of the rows and the tenant alone. */
  lemma SameClashes(db: Db, after: Db, sid: SourceId, live: Generation)
    requires sid in db.sources && sid in after.sources && after.sources[sid].tenant == db.sources[sid].tenant
    requires after.objectNodes == db.objectNodes && after.accessNodes == db.accessNodes
    ensures Clashes(after, sid, live) <==> Clashes(db, sid, live)
  {
    hide SomeTaken;
  }

  /** A begin, page or abort changes no graph row, no live fact and no time stamp. A complete or delta
      leaves the sender owning exactly the rows its new live facts derive, and stamps the time.
      Either way every other owner, and every row without one, is left alone. */
  lemma AcceptedRows(db: Db, sid: SourceId, m: SyncMessage, now: Time, owner: Option<SourceId>)
    requires sid in db.sources && WellFormed(db) && Apply(db, sid, m, now).Accepted?
    ensures var after, source := Apply(db, sid, m, now).db, db.sources[sid];
            var live := after.Facts(sid, LIVE);
            && after.nextRow == db.nextRow
            && (!Publishes(m) ==> live == db.Facts(sid, LIVE))
            && after.sources == (if Publishes(m) then db.sources[sid := source.(lastSyncAt := Some(now))] else db.sources)
            && OwnRows(after, owner) ==
               if Publishes(m) && owner == Some(sid) then
                 Rows(ProjectedNodes(source, sid, live),
                      ProjectedEdges(source, sid, db.states[sid].manifest, live, after.accessNodes),
                      ProjectedObjects(source, sid, live), ProjectedObjectEdges(source, sid, live, after.objectNodes))
               else OwnRows(db, owner)
  {
    hide Apply, Keyed, UpsertAll, Without, FactsError, WithFacts, OwnedNodes, OwnedObjects, FactsAt, KeyedFacts;
    var after := Apply(db, sid, m, now).db;
    var changed := OperationShape(db, sid, m, now);
    if Publishes(m) {
      AcceptedIsKeyed(db, sid, m, now);
      ProjectionIsExact(changed, sid, db.states[sid].manifest, owner);
      hide Project;
    } else {
      QuietLive(db, sid, m, now);
    }
  }

  lemma AcceptedIsKeyed(db: Db, sid: SourceId, m: SyncMessage, now: Time)
    requires sid in db.sources && WellFormed(db) && Apply(db, sid, m, now).Accepted?
    ensures Keyed(db.sources[sid].tenant, sid, Apply(db, sid, m, now).db.Facts(sid, LIVE))
  {
    hide Apply, Keyed, WithFacts;
    AcceptedStaysKeyed(db, sid, m, now);
    KeyedEmpty(db.sources[sid].tenant, sid);
    KeyedWith(db.sources, Apply(db, sid, m, now).db.facts, Slot(sid, LIVE), map[]);
  }

  lemma QuietLive(db: Db, sid: SourceId, m: SyncMessage, now: Time)
    requires sid in db.sources && Apply(db, sid, m, now).Accepted? && !Publishes(m)
    ensures Apply(db, sid, m, now).db.Facts(sid, LIVE) == db.Facts(sid, LIVE)
  {
    hide Apply, UpsertAll, FactsError, Publish;
    var changed := OperationSplits(db, sid, m, now);
    WithFactsAt(db.facts, Slot(sid, m.snapshotId), FactsAt(changed.facts, Slot(sid, m.snapshotId)));
    hide WithFacts;
  }
}
