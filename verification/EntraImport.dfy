/** From a directory's answers to authority: one access edge for each membership. */
module EntraImport {
  import opened Wrappers
  import opened Contracts
  import opened Store
  import opened Sync
  import opened Entra
  import SyncFrames
  import SyncHistory
  import ControlPlane
  import SnapshotImport

  /** What the collector declares. */
  const MANIFEST := Manifest({"user", "group"}, {"member_of"}, {SnapshotCapability}, map[], true)

  /** After an overlay on nothing, each key holds one of the records with that key, and every record's key is held. */
  lemma {:induction false} OverlayHoldsRecords(tenant: Tenant, facts: seq<Record>)
    ensures var live := SyncHistory.Overlay(tenant, map[], facts);
            && (forall k :: k in live ==> live[k] in facts && live[k].Key(tenant) == k)
            && (forall r :: r in facts ==> r.Key(tenant) in live)
  {
    if facts != [] {
      OverlayHoldsRecords(tenant, facts[..|facts| - 1]);
      assert facts == facts[..|facts| - 1] + [facts[|facts| - 1]];
    }
  }

  lemma ScanRecordsArePlain(sid: SourceId, d: Directory, facts: seq<Record>, r: Record)
    requires Finished(sid, d, facts) && r in facts
    ensures r.attributes == NO_ATTRIBUTES && (r.ObjectRecord? ==> r.ref.kind in ALLOWED_KINDS)
  {
    hide Finished, Flat, IsMembership;
    RecordsAreFacts(sid, d, facts, r);
    if r.RelationshipRecord? {
      FinishedIsSound(sid, d, facts);
      var g, row := MembershipHasRow(sid, d, Undated(r));
    }
  }

  /** No relationship of a finished scan is withheld or dropped as unresolved: each key gives its edge. */
  lemma ScanEdges(source: Source, sid: SourceId, d: Directory, facts: seq<Record>, manifest: Manifest, nodes: map<NodeId, AccessNode>)
    requires Finished(sid, d, facts) && manifest.platformRelations
    requires ProjectedNodes(source, sid, SyncHistory.Overlay(source.tenant, map[], facts)).Keys <= nodes.Keys
    ensures var live := SyncHistory.Overlay(source.tenant, map[], facts);
            ProjectedEdges(source, sid, manifest, live, nodes) ==
            set k | k in live && live[k].RelationshipRecord? :: AccessEdgeOf(source, sid, live[k])
  {
    OverlayHoldsRecords(source.tenant, facts);
    var live := SyncHistory.Overlay(source.tenant, map[], facts);
    forall k | k in live && live[k].RelationshipRecord?
      ensures !live[k].attributes.Withholds() && live[k].relation in TRAVERSABLE
      ensures SubjectNode(source, live[k]) in nodes && TargetNode(source, live[k]) in nodes
    {
      ScanRecordsArePlain(sid, d, facts, live[k]);
      FinishedIsSound(sid, d, facts);
      ScanIsClosed(sid, d, facts, live[k]);
    }
  }

  // ------------------------------------------------------------------ Memberships and edges

  ghost function MemberNode(tenant: Tenant, sid: SourceId, row: MemberRow): NodeId {
    Projected(Canonical(tenant, Reference(sid, "entra:" + row.id, if row.kind == UserMember then "user" else "group")))
  }

  ghost function GroupNode(tenant: Tenant, sid: SourceId, group: string): NodeId {
    Projected(Canonical(tenant, Reference(sid, "entra:" + group, "group")))
  }

  /** The directory lists a member that counts, however often, in this group. */
  ghost predicate Joined(d: Directory, tenant: Tenant, sid: SourceId, src: NodeId, dst: NodeId)
    requires Answered(d)
  {
    exists group, row :: Counts(d, group, row) && src == MemberNode(tenant, sid, row) && dst == GroupNode(tenant, sid, group)
  }

  predicate Joins(e: AccessEdge, src: NodeId, dst: NodeId) {
    e.relation == "member_of" && e.src == src && e.dst == dst
  }

  /** Exactly one edge for each membership, and no other. */
  ghost predicate OneEdgeEach(edges: set<AccessEdge>, d: Directory, tenant: Tenant, sid: SourceId)
    requires Answered(d)
  {
    && (forall e :: e in edges ==> Joins(e, e.src, e.dst) && Joined(d, tenant, sid, e.src, e.dst))
    && (forall src, dst :: Joined(d, tenant, sid, src, dst) ==> exists e :: e in edges && Joins(e, src, dst))
    && (forall e, f, src, dst :: e in edges && f in edges && Joins(e, src, dst) && Joins(f, src, dst) ==> e == f)
  }

  lemma EdgeIsMembership(source: Source, sid: SourceId, d: Directory, facts: seq<Record>, r: Record)
    requires Finished(sid, d, facts) && r in facts && r.RelationshipRecord?
    ensures Answered(d) && r.relation == "member_of"
    ensures var e := AccessEdgeOf(source, sid, r); Joined(d, source.tenant, sid, e.src, e.dst)
  {
    hide Finished, IsMembership, Counts, Emitted;
    FinishedIsSound(sid, d, facts);
    ScanIsClosed(sid, d, facts, r);
    var group, row := MembershipHasRow(sid, d, Undated(r));
  }

  /** A membership is stated by some record of the scan. */
  lemma MembershipIsStated(sid: SourceId, d: Directory, facts: seq<Record>, group: string, row: MemberRow) returns (r: Record)
    requires Finished(sid, d, facts) && Answered(d) && Counts(d, group, row)
    ensures r in facts && Undated(r) == Membership(sid, row, group, SOME_TIME)
  {
    hide Flat;
    assert IsMembershipOf(sid, d, group, Membership(sid, row, group, SOME_TIME));
    assert IsMembership(sid, d, Membership(sid, row, group, SOME_TIME));
    assert States(facts, Membership(sid, row, group, SOME_TIME));
    r :| r in facts && Undated(r) == Membership(sid, row, group, SOME_TIME);
  }

  lemma MembershipHasEdge(source: Source, sid: SourceId, d: Directory, facts: seq<Record>, src: NodeId, dst: NodeId) returns (k: FactKey)
    requires Finished(sid, d, facts) && Answered(d) && Joined(d, source.tenant, sid, src, dst)
    ensures var live := SyncHistory.Overlay(source.tenant, map[], facts);
            k in live && live[k].RelationshipRecord? && Joins(AccessEdgeOf(source, sid, live[k]), src, dst)
  {
    hide Finished, Counts, SyncHistory.Overlay, Answered;
    var group, row :| Counts(d, group, row) && src == MemberNode(source.tenant, sid, row) && dst == GroupNode(source.tenant, sid, group);
    var r := MembershipIsStated(sid, d, facts, group, row);
    OverlayHoldsRecords(source.tenant, facts);
    k := r.Key(source.tenant);
    assert k == Undated(r).Key(source.tenant);
  }

  lemma ScanHasOneEdgeEach(source: Source, sid: SourceId, d: Directory, facts: seq<Record>, edges: set<AccessEdge>)
    requires Finished(sid, d, facts) && Answered(d)
    requires var live := SyncHistory.Overlay(source.tenant, map[], facts);
             edges == set k | k in live && live[k].RelationshipRecord? :: AccessEdgeOf(source, sid, live[k])
    ensures OneEdgeEach(edges, d, source.tenant, sid)
  {
    var live := SyncHistory.Overlay(source.tenant, map[], facts);
    OverlayHoldsRecords(source.tenant, facts);
    forall e | e in edges ensures Joins(e, e.src, e.dst) && Joined(d, source.tenant, sid, e.src, e.dst) {
      var k :| k in live && live[k].RelationshipRecord? && e == AccessEdgeOf(source, sid, live[k]);
      EdgeIsMembership(source, sid, d, facts, live[k]);
    }
    forall src, dst | Joined(d, source.tenant, sid, src, dst) ensures exists e :: e in edges && Joins(e, src, dst) {
      var k := MembershipHasEdge(source, sid, d, facts, src, dst);
      assert AccessEdgeOf(source, sid, live[k]) in edges;
    }
    forall e, f, src, dst | e in edges && f in edges && Joins(e, src, dst) && Joins(f, src, dst) ensures e == f {
      var k :| k in live && live[k].RelationshipRecord? && e == AccessEdgeOf(source, sid, live[k]);
      var l :| l in live && live[l].RelationshipRecord? && f == AccessEdgeOf(source, sid, live[l]);
      EdgeIsMembership(source, sid, d, facts, live[k]);
      EdgeIsMembership(source, sid, d, facts, live[l]);
      SameEndsSameEdge(e, f, src, dst);
    }
  }

  lemma SameEndsSameEdge(e: AccessEdge, f: AccessEdge, src: NodeId, dst: NodeId)
    requires Joins(e, src, dst) && Joins(f, src, dst)
    ensures e.src == f.src && e.dst == f.dst
  {
  }

  // ------------------------------------------------------------------ The whole way

  /** The connector sends the pages of the scan. */
  ghost predicate Carries(pages: seq<SnapshotImport.ConnectorPage>, scanned: seq<ScanPage>) {
    && |pages| == |scanned|
    && forall i :: 0 <= i < |pages| ==> pages[i].objects == scanned[i].objects && pages[i].relationships == scanned[i].relationships
  }

  lemma {:induction false} CarriedFacts(pages: seq<SnapshotImport.ConnectorPage>, scanned: seq<ScanPage>, x: Record)
    requires Carries(pages, scanned)
    ensures States(SnapshotImport.AllFacts(pages), x) <==> InPages(scanned, x)
  {
    if pages == [] {
      StatesNothing();
      NoPages();
      assert scanned == [];
    } else {
      var front, last := pages[..|pages| - 1], pages[|pages| - 1];
      CarriedFacts(front, scanned[..|scanned| - 1], x);
      assert scanned == scanned[..|scanned| - 1] + [scanned[|scanned| - 1]];
      InPagesSnoc(scanned[..|scanned| - 1], scanned[|scanned| - 1], x);
    }
  }

  /** What `Snapshot` ensures of the pages it returns. */
  ghost predicate Scanned(sid: SourceId, d: Directory, scanned: seq<ScanPage>) {
    Answered(d) && Scannable(d) && IsScan(sid, d, x => InPages(scanned, x))
  }

  lemma CarriedIsFinished(pages: seq<SnapshotImport.ConnectorPage>, scanned: seq<ScanPage>, sid: SourceId, d: Directory)
    requires Carries(pages, scanned) && Scanned(sid, d, scanned)
    ensures Finished(sid, d, SnapshotImport.AllFacts(pages))
  {
    hide InPages, States, IsUser, IsGroup, IsMembership, Scannable, Answered, Carries, Flat;
    forall x ensures States(SnapshotImport.AllFacts(pages), x) <==> InPages(scanned, x) {
      CarriedFacts(pages, scanned, x);
    }
  }

  /** From the directory's answers to the access graph: once an import of the collector's pages has succeeded, from
      whatever state, the source's access edges are one for each membership that counts, and no others. */
  lemma DirectoryBecomesEdges(
    db: Db, sid: SourceId, request: SnapshotImport.Request, connector: SnapshotImport.Connector, id: SnapshotImport.SnapshotId,
    clock: nat -> Time, after: Db, count: nat, d: Directory, scanned: seq<ScanPage>)
    requires Scanned(sid, d, scanned) && Carries(connector.pages, scanned) && connector.manifest == MANIFEST
    requires SnapshotImport.Import(db, sid, request, connector, id, clock) == Success((after, count))
    requires ControlPlane.Invariant(db)
    ensures OneEdgeEach(SyncFrames.OwnEdges(after, Some(sid)), d, request.tenant, sid)
  {
    hide SnapshotImport.Import, ControlPlane.Invariant, Finished, SyncHistory.Overlay, ProjectedNodes, ProjectedEdges, Carries, Scanned,
         OneEdgeEach, SyncFrames.OwnEdges, SnapshotImport.AllFacts;
    CarriedIsFinished(connector.pages, scanned, sid, d);
    SnapshotImport.ImportPublishesScan(db, sid, request, connector, id, clock, after, count);
    SnapshotImport.ImportProjects(db, sid, request, connector, id, clock, after, count);
    var facts, source := SnapshotImport.AllFacts(connector.pages), after.sources[sid];
    assert SyncFrames.OwnNodes(after, Some(sid)).Keys <= after.accessNodes.Keys;
    FinishedIsSound(sid, d, facts);
    ScanEdges(source, sid, d, facts, MANIFEST, after.accessNodes);
    ScanHasOneEdgeEach(source, sid, d, facts, SyncFrames.OwnEdges(after, Some(sid)));
  }
}
