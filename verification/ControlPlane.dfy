/** The control plane over whole runs: registration, connector synchronisation and legacy ingestion of many
    sources, in any order, with refusals and replays. `Invariant` holds after every run; what a path of
    authority rests on follows from it. */
module ControlPlane {
  import opened Wrappers
  import opened Contracts
  import opened Store
  import opened Sync
  import opened SyncHistory
  import opened SyncFrames
  import Ingestion
  import IngestionEffects
  import AccessGraph

  /** One committed transaction. `SetEnabled` is an operator switching a source on or off. */
  datatype Event =
    | RegisterSource(sid: SourceId, tenant: Tenant, provider: string, namespace: string, enabled: bool)
    | SetEnabled(sid: SourceId, enabled: bool)
    | Manifested(sid: SourceId, manifest: Manifest)
    | Message(sid: SourceId, m: SyncMessage, now: Time)
    | Batch(sid: SourceId, batch: seq<Ingestion.Relationship>, rows: map<string, NodeId>,
            observedAt: Option<Time>, now: Time, limit: nat)

  ghost function Next(db: Db, e: Event): Db {
    match e
    case RegisterSource(sid, tenant, provider, namespace, enabled) =>
      if sid in db.sources then db
      else db.(sources := db.sources[sid := Source(tenant, provider, namespace, enabled, None)])
    case SetEnabled(sid, enabled) =>
      if sid !in db.sources then db else db.(sources := db.sources[sid := db.sources[sid].(enabled := enabled)])
    case Manifested(sid, manifest) =>
      if sid !in db.sources then db
      else
        var r := RegisterManifest(db, sid, manifest);
        if r.None? then db else r.value
    case Message(sid, m, now) =>
      if sid !in db.sources then db else Commit(db, sid, m, now)
    case Batch(sid, batch, rows, observedAt, now, limit) =>
      if sid !in db.sources || !Ingestion.IsLookup(db.accessNodes, db.sources[sid].tenant, rows) then db
      else
        var r := Ingestion.Ingest(db, sid, batch, rows, observedAt, now, limit);
        if r.Failure? then db else r.value.0
  }

  ghost function Run(db: Db, events: seq<Event>): Db {
    if events == [] then db else Next(Run(db, events[..|events| - 1]), events[|events| - 1])
  }

  /** A fresh installation: no sources, and at most seeded rows that no source owns. */
  ghost predicate Initial(db: Db) {
    && db.sources == map[] && db.states == map[] && db.facts == map[] && db.receipts == map[]
    && (forall n :: n in db.accessNodes ==>
          n.Assigned? && n.row < db.nextRow && db.accessNodes[n].sourceId.None?)
    && (forall e :: e in db.accessEdges ==>
          e.sourceId.None? && e.src.Assigned? && e.src.row < db.nextRow && e.dst.Assigned? && e.dst.row < db.nextRow)
    && (forall n :: n in db.objectNodes ==> n.Assigned? && db.objectNodes[n].owner.None?)
    && (forall e :: e in db.objectEdges ==> e.owner.None?)
    && UniqueNames(db.accessNodes) && UniqueObjectNames(db.objectNodes)
  }

  // ------------------------------------------------------------------ The invariant

  /** Some accepted message projected the source's facts. */
  ghost predicate Published(db: Db, sid: SourceId) {
    exists i: nat :: ReceiptId(sid, i) in db.receipts && db.receipts[ReceiptId(sid, i)].digest.operation in {Complete, Delta}
  }

  /** The edge stems from a live relationship, and nothing the source asserts withholds authority. */
  ghost predicate Derived(source: Source, sid: SourceId, manifest: Manifest, live: Generation, e: AccessEdge) {
    && manifest.platformRelations && !Withheld(live)
    && exists k :: k in live && live[k].RelationshipRecord? && live[k].relation in TRAVERSABLE && e == AccessEdgeOf(source, sid, live[k])
  }

  /** Rows with a row number use one that was handed out; owned rows carry the tenant of their source;
      canonical rows exist only where their source has published. */
  ghost predicate NodeInvariant(db: Db, n: NodeId)
    requires n in db.accessNodes
  {
    var row := db.accessNodes[n];
    && (n.Assigned? ==> n.row < db.nextRow)
    && (row.sourceId.Some? ==> row.sourceId.value in db.sources && row.tenant == Some(db.sources[row.sourceId.value].tenant))
    && (n.Projected? ==> Published(db, n.id.ref.sourceId))
  }

  /** An end of an edge of tenant `t`: wherever it leads, it stays in the tenant. */
  ghost predicate EndInTenant(db: Db, n: NodeId, t: Tenant) {
    match n
    case Projected(id) => id.tenant == t
    case Assigned(row) => row < db.nextRow && (n in db.accessNodes ==> db.accessNodes[n].tenant == Some(t) && db.accessNodes[n].sourceId.Some?)
  }

  ghost predicate SeedEnd(db: Db, n: NodeId) {
    n.Assigned? && n.row < db.nextRow && (n in db.accessNodes ==> db.accessNodes[n].sourceId.None?)
  }

  ghost predicate EdgeInvariant(db: Db, e: AccessEdge) {
    match e.sourceId
    case None => SeedEnd(db, e.src) && SeedEnd(db, e.dst)
    case Some(sid) =>
      && sid in db.sources
      && e.tenant == Some(db.sources[sid].tenant)
      && EndInTenant(db, e.src, db.sources[sid].tenant)
      && EndInTenant(db, e.dst, db.sources[sid].tenant)
      && (Published(db, sid) ==>
            sid in db.states && Derived(db.sources[sid], sid, db.states[sid].manifest, db.Facts(sid, LIVE), e))
  }

  /** The nodes of a source that has published are exactly those its live facts derive. */
  ghost predicate NodesMirrorFacts(db: Db, sid: SourceId)
    requires sid in db.sources
  {
    Published(db, sid) ==> OwnNodes(db, Some(sid)) == ProjectedNodes(db.sources[sid], sid, db.Facts(sid, LIVE))
  }

  /** A row that a legacy collector created and a source still owns. */
  ghost predicate LegacyRow(db: Db, n: NodeId) {
    n.Assigned? && n in db.accessNodes && db.accessNodes[n].sourceId.Some?
  }

  /** No two edges join the same nodes by the same relation, where the first of the nodes is a legacy row. */
  ghost predicate UniqueTriples(db: Db) {
    forall t: IngestionEffects.Triple :: LegacyRow(db, t.src) ==> IngestionEffects.UniqueAt(db.accessEdges, t)
  }

  ghost predicate GraphInvariant(db: Db) {
    && Constraints(db) && UniqueTriples(db)
    && (forall sid :: sid in db.sources ==> NodesMirrorFacts(db, sid))
    && (forall n :: n in db.accessNodes ==> NodeInvariant(db, n))
    && (forall e :: e in db.accessEdges ==> EdgeInvariant(db, e))
  }

  /** Every source's tables hold what its log adds up to. */
  ghost predicate LogInvariant(db: Db) {
    && (forall sid :: sid in db.sources ==> Refines(db, sid))
    && (forall sid :: sid !in db.sources ==> Numbered(db, sid))
  }

  ghost predicate Invariant(db: Db) {
    WellFormed(db) && LogInvariant(db) && GraphInvariant(db)
  }

  // ------------------------------------------------------------------ Steps that leave the graph alone

  /** Two states with the same graph, the same live facts and the same published sources. */
  ghost predicate SameGraph(db: Db, after: Db) {
    && after.accessNodes == db.accessNodes && after.accessEdges == db.accessEdges && after.nextRow == db.nextRow
    && after.objectNodes == db.objectNodes && after.objectEdges == db.objectEdges
    && db.sources.Keys <= after.sources.Keys
    && (forall sid :: sid in db.sources ==>
          && after.sources[sid].tenant == db.sources[sid].tenant
          && after.Facts(sid, LIVE) == db.Facts(sid, LIVE)
          && (sid in db.states ==> sid in after.states && after.states[sid].manifest == db.states[sid].manifest))
    && (forall sid :: Published(after, sid) <==> Published(db, sid))
  }

  lemma SameGraphKeepsNode(db: Db, after: Db, n: NodeId)
    requires SameGraph(db, after) && n in db.accessNodes && NodeInvariant(db, n)
    ensures NodeInvariant(after, n)
  {
    hide Published;
  }

  lemma SameGraphKeepsEdge(db: Db, after: Db, e: AccessEdge)
    requires SameGraph(db, after) && e in db.accessEdges && EdgeInvariant(db, e)
    ensures EdgeInvariant(after, e)
  {
  }

  lemma SameGraphKeepsTriples(db: Db, after: Db)
    requires UniqueTriples(db) && after.accessNodes == db.accessNodes && after.accessEdges == db.accessEdges
    ensures UniqueTriples(after)
  {
  }

  lemma SameConstraints(db: Db, after: Db)
    requires Constraints(db) && after.accessNodes == db.accessNodes && after.objectNodes == db.objectNodes
    ensures Constraints(after)
  {
  }

  /** The graph invariant survives any step that leaves the graph alone and adds no source. */
  lemma SameGraphKeeps(db: Db, after: Db)
    requires GraphInvariant(db) && SameGraph(db, after)
    requires forall sid :: sid in after.sources && sid !in db.sources ==> NodesMirrorFacts(after, sid)
    ensures GraphInvariant(after)
  {
    assert after.accessNodes == db.accessNodes && after.accessEdges == db.accessEdges;
    SameGraphKeepsTriples(db, after);
    assert Constraints(after) by { SameConstraints(db, after); }
    forall sid | sid in db.sources ensures NodesMirrorFacts(after, sid) {
    }
    forall n | n in db.accessNodes ensures NodeInvariant(after, n) {
      SameGraphKeepsNode(db, after, n);
    }
    forall e | e in db.accessEdges ensures EdgeInvariant(after, e) {
      SameGraphKeepsEdge(db, after, e);
    }
  }

  // ------------------------------------------------------------------ Administration

  /** Source `s` keeps its tenant, state, receipts and facts. */
  ghost predicate Untouched(db: Db, after: Db, s: SourceId) {
    && (s in db.sources <==> s in after.sources)
    && (s in db.sources ==> after.sources[s].tenant == db.sources[s].tenant)
    && (s in db.states <==> s in after.states)
    && (s in db.states ==> after.states[s] == db.states[s])
    && (forall i: nat :: ReceiptId(s, i) in db.receipts <==> ReceiptId(s, i) in after.receipts)
    && (forall i: nat :: ReceiptId(s, i) in db.receipts ==> after.receipts[ReceiptId(s, i)] == db.receipts[ReceiptId(s, i)])
    && SameFacts(db.facts, after.facts, s)
  }

  lemma RefinesFrame(db: Db, after: Db, s: SourceId)
    requires Untouched(db, after, s) && s in db.sources && Refines(db, s)
    ensures Refines(after, s)
  {
    hide ReferenceLive, ReferenceStaged, ReferenceSnapshot, ReferenceCoverage, FactsAt;
    SumOf(db, s);
    assert Numbered(after, s);
    assert LogOf(after, s) == LogOf(db, s);
    SumMeansRefines(after, s, LogOf(db, s));
  }

  lemma NumberedFrame(db: Db, after: Db, s: SourceId)
    requires Untouched(db, after, s) && Numbered(db, s)
    ensures Numbered(after, s)
  {
  }

  /** All sources but one are untouched, so all logs but one still add up. */
  lemma LogFrame(db: Db, after: Db, sid: SourceId)
    requires LogInvariant(db)
    requires forall s :: s != sid ==> Untouched(db, after, s)
    requires if sid in after.sources then Refines(after, sid) else Numbered(after, sid)
    ensures LogInvariant(after)
  {
    hide Refines, Numbered, Untouched;
    forall s | s in after.sources && s != sid ensures Refines(after, s) {
      assert s in db.sources by { InBoth(db, after, s); }
      RefinesFrame(db, after, s);
    }
    forall s | s !in after.sources && s != sid ensures Numbered(after, s) {
      assert s !in db.sources by { InBoth(db, after, s); }
      NumberedFrame(db, after, s);
    }
  }

  lemma InBoth(db: Db, after: Db, s: SourceId)
    requires Untouched(db, after, s)
    ensures s in db.sources <==> s in after.sources
  {
  }

  lemma EmptyLog(tenant: Tenant)
    ensures ReferenceLive(tenant, []) == map[] && ReferenceSnapshot([]) == None && ReferenceCoverage([]) == PartialCoverage
  {
  }

  lemma LogIsEmpty(db: Db, sid: SourceId)
    requires Numbered(db, sid) && (sid in db.states ==> db.states[sid].sequence == 0)
    ensures LogOf(db, sid) == []
  {
  }

  lemma HoldsNothing(facts: map<Slot, Generation>, sid: SourceId, staged: Generation)
    requires NoEmptySlots(facts)
    ensures Holds(facts, sid, None, map[], staged) <==> forall g :: Slot(sid, g) !in facts
  {
  }

  /** A source without receipts and facts holds what the empty log adds up to. */
  lemma EmptyRefines(db: Db, sid: SourceId)
    requires sid in db.sources && Numbered(db, sid) && NoEmptySlots(db.facts)
    requires sid in db.states ==> db.states[sid].sequence == 0 && db.states[sid].snapshot.None? && db.states[sid].coverage.PartialCoverage?
    requires forall g :: Slot(sid, g) !in db.facts
    ensures Refines(db, sid)
  {
    hide Numbered, LogOf, ReferenceLive, ReferenceSnapshot, ReferenceCoverage, ReferenceStaged, Holds, NoEmptySlots;
    LogIsEmpty(db, sid);
    EmptyLog(db.sources[sid].tenant);
    HoldsNothing(db.facts, sid, ReferenceStaged(db.sources[sid].tenant, []));
    SumMeansRefines(db, sid, []);
  }

  lemma PublishedByReceipts(db: Db, after: Db)
    requires after.receipts == db.receipts
    ensures forall s :: Published(after, s) <==> Published(db, s)
  {
  }

  /** `after` differs from `db` at most in the registration and the state of source `sid`. */
  ghost predicate OnlyRegistration(db: Db, after: Db, sid: SourceId) {
    && after == db.(sources := after.sources, states := after.states)
    && sid in after.sources
    && after.sources == db.sources[sid := after.sources[sid]]
    && (sid in db.sources ==> after.sources[sid].tenant == db.sources[sid].tenant)
    && (after.states == db.states || (sid !in db.states && sid in after.states && after.states == db.states[sid := after.states[sid]]))
  }

  lemma RegistrationKeepsGraph(db: Db, after: Db, sid: SourceId)
    requires OnlyRegistration(db, after, sid) && GraphInvariant(db)
    requires sid in db.sources || NodesMirrorFacts(after, sid)
    ensures GraphInvariant(after)
  {
    hide NodesMirrorFacts, NodeInvariant, EdgeInvariant, Constraints, UniqueTriples, FactsAt;
    assert SameGraph(db, after);
    SameGraphKeeps(db, after);
  }

  lemma RegistrationKeepsForm(db: Db, after: Db, sid: SourceId)
    requires OnlyRegistration(db, after, sid) && WellFormed(db)
    ensures WellFormed(after)
  {
    hide Keyed, OwnedNodes, FactsAt;
  }

  lemma RefinesOf(db: Db, sid: SourceId)
    requires LogInvariant(db)
    ensures if sid in db.sources then Refines(db, sid) else Numbered(db, sid)
  {
  }

  /** Registering a new source, or switching one on or off. */
  lemma RegistrationKeeps(db: Db, after: Db, sid: SourceId)
    requires Invariant(db) && OnlyRegistration(db, after, sid) && after.states == db.states
    ensures Invariant(after)
  {
    RegistrationKeepsForm(db, after, sid);
    RefinesOf(db, sid);
    if sid in db.sources {
      RefinesFrame(db, after, sid);
    } else {
      NewSourceIsEmpty(db, after, sid);
    }
    LogFrame(db, after, sid);
    RegistrationKeepsGraph(db, after, sid);
  }

  lemma NewSourceIsEmpty(db: Db, after: Db, sid: SourceId)
    requires WellFormed(db) && Numbered(db, sid) && sid !in db.sources
    requires OnlyRegistration(db, after, sid) && after.states == db.states
    ensures Refines(after, sid) && NodesMirrorFacts(after, sid)
  {
    assert Numbered(after, sid);
    EmptyRefines(after, sid);
  }

  lemma ManifestKeeps(db: Db, sid: SourceId, manifest: Manifest)
    requires Invariant(db) && sid in db.sources && RegisterManifest(db, sid, manifest).Some?
    ensures Invariant(RegisterManifest(db, sid, manifest).value)
  {
    hide Invariant;
    InitialStateKeeps(db, RegisterManifest(db, sid, manifest).value, sid);
  }

  lemma InitialStateKeeps(db: Db, after: Db, sid: SourceId)
    requires Invariant(db) && sid in db.sources && sid !in db.states && sid in after.states
    requires after == db.(states := db.states[sid := after.states[sid]])
    requires after.states[sid].sequence == 0 && after.states[sid].snapshot.None? && after.states[sid].coverage.PartialCoverage?
    ensures Invariant(after)
  {
    assert after.sources == db.sources[sid := after.sources[sid]];
    assert OnlyRegistration(db, after, sid);
    RegistrationKeepsForm(db, after, sid);
    RefinesOf(db, sid);
    NewStateIsEmpty(db, after, sid);
    LogFrame(db, after, sid);
    RegistrationKeepsGraph(db, after, sid);
  }

  /** A source that was never registered with a manifest has no facts. */
  lemma UnmanifestedIsEmpty(db: Db, sid: SourceId)
    requires sid in db.sources && Refines(db, sid) && sid !in db.states && NoEmptySlots(db.facts)
    ensures forall g :: Slot(sid, g) !in db.facts
  {
    hide Numbered, LogOf, ReferenceLive, ReferenceSnapshot, ReferenceCoverage, ReferenceStaged, Holds, NoEmptySlots;
    SumOf(db, sid);
    LogIsEmpty(db, sid);
    EmptyLog(db.sources[sid].tenant);
    HoldsNothing(db.facts, sid, ReferenceStaged(db.sources[sid].tenant, []));
  }

  lemma NewStateIsEmpty(db: Db, after: Db, sid: SourceId)
    requires WellFormed(db) && sid in db.sources && Refines(db, sid) && sid !in db.states
    requires after == db.(states := after.states) && sid in after.states
    requires after.states[sid].sequence == 0 && after.states[sid].snapshot.None? && after.states[sid].coverage.PartialCoverage?
    ensures Refines(after, sid)
  {
    hide Refines, Keyed, OwnedNodes, OwnedObjects;
    UnmanifestedIsEmpty(db, sid);
    RefinesNumbers(db, sid);
    assert Numbered(after, sid);
    EmptyRefines(after, sid);
  }

  lemma RefinesNumbers(db: Db, sid: SourceId)
    requires sid in db.sources && Refines(db, sid)
    ensures Numbered(db, sid)
  {
  }

  // ------------------------------------------------------------------ Messages

  /** What is known of the state after an accepted message, away from the details of the operation. */
  ghost predicate AfterMessage(db: Db, after: Db, sid: SourceId, m: SyncMessage, now: Time) {
    && sid in db.sources && sid in db.states && sid in after.states
    && after.states[sid].manifest == db.states[sid].manifest
    && after.nextRow == db.nextRow
    && after.sources == (if Publishes(m) then db.sources[sid := db.sources[sid].(lastSyncAt := Some(now))] else db.sources)
    && (!Publishes(m) ==> after.Facts(sid, LIVE) == db.Facts(sid, LIVE))
    && (forall s :: s != sid ==> SameSource(db, after, s))
    && (forall s :: Published(after, s) <==> Published(db, s) || (s == sid && Publishes(m)))
  }

  /** The rows after a message: those the sender projects now, and those that were there before. */
  ghost predicate ProjectedNow(db: Db, after: Db, sid: SourceId, m: SyncMessage, owner: Option<SourceId>)
    requires sid in db.sources && sid in db.states
  {
    var source, live := db.sources[sid], after.Facts(sid, LIVE);
    OwnRows(after, owner) ==
      if Publishes(m) && owner == Some(sid) then
        Rows(ProjectedNodes(source, sid, live),
             ProjectedEdges(source, sid, db.states[sid].manifest, live, after.accessNodes),
             ProjectedObjects(source, sid, live), ProjectedObjectEdges(source, sid, live, after.objectNodes))
      else OwnRows(db, owner)
  }

  lemma MessageEffect(db: Db, sid: SourceId, m: SyncMessage, now: Time) returns (after: Db)
    requires Invariant(db) && sid in db.sources && Apply(db, sid, m, now).Accepted?
    ensures after == Apply(db, sid, m, now).db && AfterMessage(db, after, sid, m, now)
    ensures forall owner :: ProjectedNow(db, after, sid, m, owner)
    ensures Keyed(db.sources[sid].tenant, sid, after.Facts(sid, LIVE))
    ensures KeyedFacts(db.sources, after.facts) && Refines(after, sid)
  {
    hide Apply, LogInvariant, GraphInvariant, Keyed, OwnedNodes, OwnedObjects, KeyedFacts, Refines, FactsError, Published, OwnRows,
         ProjectedNodes, ProjectedEdges, ProjectedObjects, ProjectedObjectEdges, Publish, FactsAt, SameSource, WellFormed;
    after := Apply(db, sid, m, now).db;
    var changed := OperationShape(db, sid, m, now);
    MessageRows(db, sid, m, now);
    forall s | s != sid ensures SameSource(db, after, s) {
      AcceptedFrame(db, sid, m, now, s);
    }
    PublishedGrows(db, after, sid, m);
    RefinesOf(db, sid);
    AcceptedRefines(db, sid, m, now);
    AcceptedIsKeyed(db, sid, m, now);
    KeyedOf(db);
    AcceptedStaysKeyed(db, sid, m, now);
  }

  lemma KeyedOf(db: Db)
    requires WellFormed(db)
    ensures KeyedFacts(db.sources, db.facts)
  {
  }

  lemma MessageRows(db: Db, sid: SourceId, m: SyncMessage, now: Time)
    requires WellFormed(db) && sid in db.sources && sid in db.states && Apply(db, sid, m, now).Accepted?
    ensures var after := Apply(db, sid, m, now).db;
            && after.nextRow == db.nextRow
            && (!Publishes(m) ==> after.Facts(sid, LIVE) == db.Facts(sid, LIVE))
            && after.sources == (if Publishes(m) then db.sources[sid := db.sources[sid].(lastSyncAt := Some(now))] else db.sources)
            && forall owner :: ProjectedNow(db, after, sid, m, owner)
  {
    hide Apply, WellFormed, OwnRows, FactsAt, ProjectedNodes, ProjectedEdges, ProjectedObjects, ProjectedObjectEdges;
    forall owner ensures ProjectedNow(db, Apply(db, sid, m, now).db, sid, m, owner) {
      AcceptedRows(db, sid, m, now, owner);
    }
    AcceptedRows(db, sid, m, now, None);
  }

  lemma PublishedGrows(db: Db, after: Db, sid: SourceId, m: SyncMessage)
    requires ReceiptId(sid, m.sequence) !in db.receipts && ReceiptId(sid, m.sequence) in after.receipts
    requires after.receipts == db.receipts[ReceiptId(sid, m.sequence) := after.receipts[ReceiptId(sid, m.sequence)]]
    requires after.receipts[ReceiptId(sid, m.sequence)].digest == m
    ensures forall s :: Published(after, s) <==> Published(db, s) || (s == sid && Publishes(m))
  {
  }

  /** A node after a message is an old row that did not change, or one the sender projects now. */
  lemma NodeAfter(db: Db, after: Db, sid: SourceId, m: SyncMessage, now: Time, n: NodeId)
    requires AfterMessage(db, after, sid, m, now) && n in after.accessNodes
    requires ProjectedNow(db, after, sid, m, after.accessNodes[n].sourceId)
    ensures || (&& n in db.accessNodes && after.accessNodes[n] == db.accessNodes[n]
                && !(Publishes(m) && db.accessNodes[n].sourceId == Some(sid)))
            || (&& Publishes(m) && n in AccessIds(after.Facts(sid, LIVE))
                && after.accessNodes[n] == AccessRow(db.sources[sid], sid, after.Facts(sid, LIVE)[ObjectKey(n.id)]))
  {
    hide AfterMessage, FactsAt, ProjectedEdges, ProjectedObjects, ProjectedObjectEdges;
    assert n in OwnNodes(after, after.accessNodes[n].sourceId);
  }

  lemma ObjectAfter(db: Db, after: Db, sid: SourceId, m: SyncMessage, now: Time, n: NodeId)
    requires AfterMessage(db, after, sid, m, now) && n in after.objectNodes
    requires ProjectedNow(db, after, sid, m, after.objectNodes[n].owner)
    ensures || (n in db.objectNodes && after.objectNodes[n] == db.objectNodes[n])
            || (&& n in ObjectIds(after.Facts(sid, LIVE))
                && after.objectNodes[n] == ObjectRow(db.sources[sid], sid, after.Facts(sid, LIVE)[ObjectKey(n.id)]))
  {
    hide AfterMessage, FactsAt, ProjectedEdges, ProjectedNodes, ProjectedObjectEdges;
    assert n in OwnObjects(after, after.objectNodes[n].owner);
  }

  lemma EdgeAfter(db: Db, after: Db, sid: SourceId, m: SyncMessage, now: Time, e: AccessEdge)
    requires AfterMessage(db, after, sid, m, now) && e in after.accessEdges
    requires ProjectedNow(db, after, sid, m, e.sourceId)
    ensures || (e in db.accessEdges && !(Publishes(m) && e.sourceId == Some(sid)))
            || (&& Publishes(m) && e.sourceId == Some(sid)
                && e in ProjectedEdges(db.sources[sid], sid, db.states[sid].manifest, after.Facts(sid, LIVE), after.accessNodes))
  {
    hide AfterMessage, FactsAt, ProjectedNodes, ProjectedObjects, ProjectedObjectEdges, ProjectedEdges;
    assert e in OwnEdges(after, e.sourceId);
  }

  lemma NodesStayOwned(db: Db, after: Db, sid: SourceId, m: SyncMessage, now: Time)
    requires WellFormed(db) && AfterMessage(db, after, sid, m, now)
    requires forall owner :: ProjectedNow(db, after, sid, m, owner)
    requires Keyed(db.sources[sid].tenant, sid, after.Facts(sid, LIVE))
    ensures OwnedNodes(after.accessNodes)
  {
    forall n | n in after.accessNodes
      ensures n.Projected? ==>
                var row := after.accessNodes[n];
                row.sourceId == Some(n.id.ref.sourceId) && row.name == n.id.Text() && row.tenant == Some(n.id.tenant)
    {
      NodeAfter(db, after, sid, m, now, n);
      hide Keyed, ProjectedNow, AfterMessage, OwnedObjects, FactsAt, CanonicalId.Text;
    }
    hide Keyed, ProjectedNow, AfterMessage, OwnedObjects, FactsAt, NoEmptySlots, CanonicalId.Text;
  }

  lemma ObjectsStayOwned(db: Db, after: Db, sid: SourceId, m: SyncMessage, now: Time)
    requires WellFormed(db) && AfterMessage(db, after, sid, m, now)
    requires forall owner :: ProjectedNow(db, after, sid, m, owner)
    requires Keyed(db.sources[sid].tenant, sid, after.Facts(sid, LIVE))
    ensures OwnedObjects(after.sources, after.objectNodes)
  {
    forall n | n in after.objectNodes
      ensures match after.objectNodes[n].owner
              case None => n.Assigned?
              case Some(s) =>
                && n.Projected? && n.id.ref.sourceId == s && s in after.sources
                && after.objectNodes[n].tenant == Some(after.sources[s].tenant) && after.objectNodes[n].name == n.id.Text()
    {
      ObjectAfter(db, after, sid, m, now, n);
      hide Keyed, ProjectedNow, OwnedNodes, FactsAt, SameSource, Published;
    }
  }

  lemma MessageKeepsForm(db: Db, after: Db, sid: SourceId, m: SyncMessage, now: Time)
    requires WellFormed(db) && AfterMessage(db, after, sid, m, now)
    requires forall owner :: ProjectedNow(db, after, sid, m, owner)
    requires Keyed(db.sources[sid].tenant, sid, after.Facts(sid, LIVE)) && KeyedFacts(db.sources, after.facts)
    ensures WellFormed(after)
  {
    NodesStayOwned(db, after, sid, m, now);
    ObjectsStayOwned(db, after, sid, m, now);
    hide Keyed, ProjectedNow, OwnedNodes, OwnedObjects, FactsAt, Published;
    forall s | s in after.states ensures s in after.sources {
      assert s != sid ==> SameSource(db, after, s);
    }
  }

  lemma MessageKeepsNode(db: Db, after: Db, sid: SourceId, m: SyncMessage, now: Time, n: NodeId)
    requires AfterMessage(db, after, sid, m, now) && n in after.accessNodes
    requires ProjectedNow(db, after, sid, m, after.accessNodes[n].sourceId)
    requires Keyed(db.sources[sid].tenant, sid, after.Facts(sid, LIVE))
    requires n in db.accessNodes ==> NodeInvariant(db, n)
    ensures NodeInvariant(after, n)
  {
    NodeAfter(db, after, sid, m, now, n);
    hide Keyed, ProjectedNow, FactsAt, SameSource, Published;
  }

  lemma MessageKeepsEnd(db: Db, after: Db, sid: SourceId, m: SyncMessage, now: Time, n: NodeId, t: Tenant)
    requires AfterMessage(db, after, sid, m, now)
    requires n in after.accessNodes ==> ProjectedNow(db, after, sid, m, after.accessNodes[n].sourceId)
    requires Keyed(db.sources[sid].tenant, sid, after.Facts(sid, LIVE))
    ensures EndInTenant(db, n, t) ==> EndInTenant(after, n, t)
    ensures SeedEnd(db, n) ==> SeedEnd(after, n)
  {
    if n in after.accessNodes {
      NodeAfter(db, after, sid, m, now, n);
    }
    hide Keyed, ProjectedNow, FactsAt, SameSource, Published;
  }

  lemma MessageKeepsEdge(db: Db, after: Db, sid: SourceId, m: SyncMessage, now: Time, e: AccessEdge)
    requires AfterMessage(db, after, sid, m, now) && e in after.accessEdges
    requires forall owner :: ProjectedNow(db, after, sid, m, owner)
    requires Keyed(db.sources[sid].tenant, sid, after.Facts(sid, LIVE))
    requires e in db.accessEdges ==> EdgeInvariant(db, e)
    ensures EdgeInvariant(after, e)
  {
    EdgeAfter(db, after, sid, m, now, e);
    if e in db.accessEdges && !(Publishes(m) && e.sourceId == Some(sid)) {
      var t := if e.sourceId.Some? then db.sources[e.sourceId.value].tenant else "";
      MessageKeepsEnd(db, after, sid, m, now, e.src, t);
      MessageKeepsEnd(db, after, sid, m, now, e.dst, t);
      hide ProjectedNow, Keyed, EndInTenant, SeedEnd, ProjectedEdges;
      OldEdgeInvariant(db, after, sid, m, now, e);
    }
  }

  lemma OldEdgeInvariant(db: Db, after: Db, sid: SourceId, m: SyncMessage, now: Time, e: AccessEdge)
    requires AfterMessage(db, after, sid, m, now) && EdgeInvariant(db, e) && !(Publishes(m) && e.sourceId == Some(sid))
    requires match e.sourceId
             case None => SeedEnd(after, e.src) && SeedEnd(after, e.dst)
             case Some(s) => EndInTenant(after, e.src, db.sources[s].tenant) && EndInTenant(after, e.dst, db.sources[s].tenant)
    ensures EdgeInvariant(after, e)
  {
    hide EndInTenant, SeedEnd, Published, FactsAt;
    if e.sourceId.Some? && Published(after, e.sourceId.value) {
      var s := e.sourceId.value;
      assert s != sid ==> SameSource(db, after, s);
    }
  }

  lemma MessageKeepsMirror(db: Db, after: Db, sid: SourceId, m: SyncMessage, now: Time, s: SourceId)
    requires AfterMessage(db, after, sid, m, now) && s in db.sources && NodesMirrorFacts(db, s)
    requires ProjectedNow(db, after, sid, m, Some(s))
    ensures NodesMirrorFacts(after, s)
  {
    assert s != sid ==> SameSource(db, after, s);
    hide ProjectedNodes, ProjectedEdges, ProjectedObjects, ProjectedObjectEdges, FactsAt, Published, OwnNodes;
  }

  /** A publication adds edges only at rows of its own, which are no legacy rows. */
  lemma MessageKeepsTriples(db: Db, after: Db, sid: SourceId, m: SyncMessage, now: Time)
    requires UniqueTriples(db) && AfterMessage(db, after, sid, m, now)
    requires forall owner :: ProjectedNow(db, after, sid, m, owner)
    ensures UniqueTriples(after)
  {
    hide ProjectedNow, AfterMessage, FactsAt;
    forall t: IngestionEffects.Triple | LegacyRow(after, t.src) ensures IngestionEffects.UniqueAt(after.accessEdges, t) {
      NodeAfter(db, after, sid, m, now, t.src);
      assert LegacyRow(db, t.src);
      forall e | e in after.accessEdges && IngestionEffects.At(e, t) ensures e in db.accessEdges {
        EdgeAfter(db, after, sid, m, now, e);
      }
    }
  }

  lemma MessageKeepsGraph(db: Db, after: Db, sid: SourceId, m: SyncMessage, now: Time)
    requires WellFormed(db) && GraphInvariant(db) && AfterMessage(db, after, sid, m, now)
    requires forall owner :: ProjectedNow(db, after, sid, m, owner)
    requires Keyed(db.sources[sid].tenant, sid, after.Facts(sid, LIVE)) && Constraints(after)
    ensures GraphInvariant(after)
  {
    hide ProjectedNow, Keyed, FactsAt, NodeInvariant, EdgeInvariant, NodesMirrorFacts, Constraints, UniqueTriples, WellFormed;
    MessageKeepsTriples(db, after, sid, m, now);
    forall n | n in after.accessNodes ensures NodeInvariant(after, n) {
      MessageKeepsNode(db, after, sid, m, now, n);
    }
    forall e | e in after.accessEdges ensures EdgeInvariant(after, e) {
      MessageKeepsEdge(db, after, sid, m, now, e);
    }
    forall s | s in after.sources ensures NodesMirrorFacts(after, s) {
      MessageKeepsMirror(db, after, sid, m, now, s);
    }
  }

  lemma SameSourceIsUntouched(db: Db, after: Db, s: SourceId)
    requires SameSource(db, after, s)
    ensures Untouched(db, after, s)
  {
    assert forall g :: db.Facts(s, g) == FactsAt(db.facts, Slot(s, g)) && after.Facts(s, g) == FactsAt(after.facts, Slot(s, g));
    hide FactsAt;
  }

  lemma MessageTouchesOne(db: Db, after: Db, sid: SourceId, m: SyncMessage, now: Time)
    requires AfterMessage(db, after, sid, m, now)
    ensures forall s :: s != sid ==> Untouched(db, after, s)
    ensures sid in after.sources
  {
    hide Untouched, SameSource, Published, FactsAt;
    forall s | s != sid ensures Untouched(db, after, s) {
      assert SameSource(db, after, s);
      SameSourceIsUntouched(db, after, s);
    }
  }

  lemma InvariantParts(db: Db)
    ensures Invariant(db) <==> WellFormed(db) && LogInvariant(db) && GraphInvariant(db)
    ensures Invariant(db) ==> Constraints(db) && UniqueNames(db.accessNodes)
  {
  }

  lemma AcceptedKeeps(db: Db, sid: SourceId, m: SyncMessage, now: Time)
    requires Invariant(db) && sid in db.sources && Apply(db, sid, m, now).Accepted?
    ensures Invariant(Apply(db, sid, m, now).db)
  {
    hide *;
    InvariantParts(db);
    var after := MessageEffect(db, sid, m, now);
    MessageTouchesOne(db, after, sid, m, now);
    MessageKeepsForm(db, after, sid, m, now);
    AcceptedKeepsConstraints(db, sid, m, now);
    MessageKeepsGraph(db, after, sid, m, now);
    LogFrame(db, after, sid);
    InvariantParts(after);
  }

  lemma MessageKeeps(db: Db, sid: SourceId, m: SyncMessage, now: Time)
    requires Invariant(db) && sid in db.sources
    ensures Invariant(Commit(db, sid, m, now))
  {
    hide Apply, Invariant;
    if Apply(db, sid, m, now).Accepted? {
      AcceptedKeeps(db, sid, m, now);
    }
  }

  // ------------------------------------------------------------------ Legacy batches

  /** What is known of the state after an accepted batch. */
  ghost predicate AfterBatch(db: Db, after: Db, sid: SourceId, p: Ingestion.Progress) {
    && sid in db.sources && sid !in db.states && sid in after.sources
    && after.sources == db.sources[sid := after.sources[sid]]
    && after.sources[sid].tenant == db.sources[sid].tenant
    && after == db.(accessNodes := p.nodes, accessEdges := p.edges, nextRow := p.nextRow, sources := after.sources)
    && Ingestion.NodesGrown(Ingestion.Start(db), p, db.sources[sid], sid)
    && Ingestion.EdgesGrown(Ingestion.Start(db), p, db.sources[sid], sid)
    && Ingestion.Numbered(p)
    && (forall t: IngestionEffects.Triple :: IngestionEffects.UniqueAt(db.accessEdges, t) ==> IngestionEffects.UniqueAt(p.edges, t))
  }

  lemma BatchEffect(
    db: Db, sid: SourceId, batch: seq<Ingestion.Relationship>, rows: map<string, NodeId>,
    observedAt: Option<Time>, now: Time, limit: nat) returns (after: Db, p: Ingestion.Progress)
    requires Invariant(db) && sid in db.sources && Ingestion.Consistent(Ingestion.Start(db), rows)
    requires Ingestion.IsLookup(db.accessNodes, db.sources[sid].tenant, rows)
    requires Ingestion.Ingest(db, sid, batch, rows, observedAt, now, limit).Success?
    ensures after == Ingestion.Ingest(db, sid, batch, rows, observedAt, now, limit).value.0
    ensures AfterBatch(db, after, sid, p) && UniqueNames(after.accessNodes)
  {
    after := Ingestion.Ingest(db, sid, batch, rows, observedAt, now, limit).value.0;
    var at := if observedAt.Some? then observedAt.value else now;
    p := Ingestion.UpsertBatch(Ingestion.Start(db), db.sources[sid], sid, rows, batch, at).value;
    IngestionEffects.ReadyToIngest(db, sid, rows);
    forall t: IngestionEffects.Triple | IngestionEffects.UniqueAt(db.accessEdges, t) ensures IngestionEffects.UniqueAt(p.edges, t) {
      IngestionEffects.BatchEdges(Ingestion.Start(db), db.sources[sid], sid, rows, batch, at, t);
    }
    Ingestion.BatchGrows(Ingestion.Start(db), db.sources[sid], sid, rows, batch, at);
    Ingestion.BatchKeepsNames(Ingestion.Start(db), db.sources[sid], sid, rows, batch, at);
  }

  lemma BatchUnpublished(db: Db, sid: SourceId)
    requires Invariant(db) && sid in db.sources && sid !in db.states
    ensures !Published(db, sid)
  {
    InvariantParts(db);
    RefinesOf(db, sid);
    RefinesNumbers(db, sid);
  }

  lemma BatchKeepsForm(db: Db, after: Db, sid: SourceId, p: Ingestion.Progress)
    requires WellFormed(db) && AfterBatch(db, after, sid, p)
    ensures WellFormed(after)
  {
  }

  lemma BatchTouchesNone(db: Db, after: Db, sid: SourceId, p: Ingestion.Progress)
    requires AfterBatch(db, after, sid, p)
    ensures forall s :: Untouched(db, after, s)
  {
    hide FactsAt, Ingestion.NodesGrown, Ingestion.EdgesGrown, Ingestion.Numbered;
  }

  lemma BatchKeepsOldEdge(db: Db, after: Db, sid: SourceId, p: Ingestion.Progress, e: AccessEdge)
    requires AfterBatch(db, after, sid, p) && EdgeInvariant(db, e)
    ensures EdgeInvariant(after, e)
  {
    PublishedByReceipts(db, after);
    var t := if e.sourceId.Some? then db.sources[e.sourceId.value].tenant else "";
    hide EndInTenant, SeedEnd, Ingestion.NodesGrown, Ingestion.EdgesGrown, Published, FactsAt;
    if e.sourceId.Some? && Published(db, e.sourceId.value) {
      var s := e.sourceId.value;
    }
  }

  /** A node the source owns before it has published is an assigned row of its tenant. */
  lemma OwnedIsAssigned(after: Db, sid: SourceId, n: NodeId)
    requires sid in after.sources && !Published(after, sid) && OwnedNodes(after.accessNodes)
    requires Ingestion.Owns(after.accessNodes, sid, n) && NodeInvariant(after, n)
    ensures EndInTenant(after, n, after.sources[sid].tenant)
  {
    hide Published;
  }

  /** An old edge between two of the source's nodes already carries its tenant. */
  lemma OldEdgeTenant(db: Db, after: Db, sid: SourceId, p: Ingestion.Progress, f: AccessEdge, n: NodeId)
    requires AfterBatch(db, after, sid, p) && EdgeInvariant(db, f) && f.src == n
    requires Ingestion.Owns(after.accessNodes, sid, n) && n.Assigned?
    requires n in db.accessNodes ==> NodeInvariant(db, n)
    ensures f.tenant == Some(db.sources[sid].tenant)
  {
    hide Published, Ingestion.EdgesGrown, Derived;
  }

  lemma BatchKeepsNewEdge(db: Db, after: Db, sid: SourceId, p: Ingestion.Progress, e: AccessEdge)
    requires AfterBatch(db, after, sid, p) && !Published(after, sid) && OwnedNodes(after.accessNodes)
    requires Ingestion.Written(Ingestion.Start(db), p, db.sources[sid], sid, e)
    requires forall f :: f in db.accessEdges ==> EdgeInvariant(db, f)
    requires forall n :: n in db.accessNodes ==> NodeInvariant(db, n)
    ensures EdgeInvariant(after, e)
  {
    OwnedIsAssigned(after, sid, e.src);
    OwnedIsAssigned(after, sid, e.dst);
    if e.tenant != Some(db.sources[sid].tenant) {
      var f :| f in db.accessEdges && Ingestion.Connects(f, e.src, e.relation, e.dst) && f.tenant == e.tenant;
      OwnedRowIsAssigned(after, sid, e.src);
      OldEdgeTenant(db, after, sid, p, f, e.src);
    }
    EdgeOfUnpublished(after, sid, e);
  }

  lemma OwnedRowIsAssigned(after: Db, sid: SourceId, n: NodeId)
    requires sid in after.sources && !Published(after, sid) && OwnedNodes(after.accessNodes)
    requires Ingestion.Owns(after.accessNodes, sid, n) && NodeInvariant(after, n)
    ensures n.Assigned?
  {
    hide Published;
  }

  lemma EdgeOfUnpublished(after: Db, sid: SourceId, e: AccessEdge)
    requires sid in after.sources && !Published(after, sid) && e.sourceId == Some(sid)
    requires e.tenant == Some(after.sources[sid].tenant)
    requires EndInTenant(after, e.src, after.sources[sid].tenant) && EndInTenant(after, e.dst, after.sources[sid].tenant)
    ensures EdgeInvariant(after, e)
  {
  }

  lemma BatchKeepsMirror(db: Db, after: Db, sid: SourceId, p: Ingestion.Progress, s: SourceId)
    requires AfterBatch(db, after, sid, p) && s in db.sources && NodesMirrorFacts(db, s) && !Published(db, sid)
    ensures NodesMirrorFacts(after, s)
  {
    PublishedByReceipts(db, after);
    if s != sid {
      assert OwnNodes(after, Some(s)) == OwnNodes(db, Some(s)) by {
        hide Published, ProjectedNodes, Ingestion.EdgesGrown, FactsAt;
      }
    }
  }

  /** A new row has no edges yet, since row numbers are not used twice. */
  lemma BatchKeepsTriples(db: Db, after: Db, sid: SourceId, p: Ingestion.Progress)
    requires UniqueTriples(db) && AfterBatch(db, after, sid, p)
    requires forall e :: e in db.accessEdges ==> EdgeInvariant(db, e)
    ensures UniqueTriples(after)
  {
    forall t: IngestionEffects.Triple | LegacyRow(after, t.src) ensures IngestionEffects.UniqueAt(db.accessEdges, t) {
      if t.src !in db.accessNodes {
        forall e | e in db.accessEdges ensures !IngestionEffects.At(e, t) {
          assert EdgeInvariant(db, e);
        }
      } else {
        assert LegacyRow(db, t.src);
      }
    }
  }

  lemma BatchKeepsGraph(db: Db, after: Db, sid: SourceId, p: Ingestion.Progress)
    requires GraphInvariant(db) && AfterBatch(db, after, sid, p) && !Published(db, sid)
    requires UniqueNames(after.accessNodes) && OwnedNodes(after.accessNodes)
    ensures GraphInvariant(after)
  {
    PublishedByReceipts(db, after);
    BatchKeepsTriples(db, after, sid, p);
    forall n | n in after.accessNodes ensures NodeInvariant(after, n) {
    }
    forall e | e in after.accessEdges ensures EdgeInvariant(after, e) {
      if e in db.accessEdges {
        BatchKeepsOldEdge(db, after, sid, p, e);
      } else {
        BatchKeepsNewEdge(db, after, sid, p, e);
      }
    }
    forall s | s in after.sources ensures NodesMirrorFacts(after, s) {
      BatchKeepsMirror(db, after, sid, p, s);
    }
  }

  lemma BatchKeeps(
    db: Db, sid: SourceId, batch: seq<Ingestion.Relationship>, rows: map<string, NodeId>,
    observedAt: Option<Time>, now: Time, limit: nat)
    requires Invariant(db) && sid in db.sources && Ingestion.Consistent(Ingestion.Start(db), rows)
    requires Ingestion.IsLookup(db.accessNodes, db.sources[sid].tenant, rows)
    requires Ingestion.Ingest(db, sid, batch, rows, observedAt, now, limit).Success?
    ensures Invariant(Ingestion.Ingest(db, sid, batch, rows, observedAt, now, limit).value.0)
  {
    InvariantParts(db);
    var after, p := BatchEffect(db, sid, batch, rows, observedAt, now, limit);
    BatchUnpublished(db, sid);
    BatchKeepsForm(db, after, sid, p);
    BatchKeepsGraph(db, after, sid, p);
    BatchTouchesNone(db, after, sid, p);
    RefinesOf(db, sid);
    RefinesFrame(db, after, sid);
    LogFrame(db, after, sid);
    InvariantParts(after);
  }

  // ------------------------------------------------------------------ Whole runs

  lemma NextKeeps(db: Db, e: Event)
    requires Invariant(db)
    ensures Invariant(Next(db, e))
  {
    match e {
      case RegisterSource(sid, tenant, provider, namespace, enabled) =>
        if sid !in db.sources {
          var after := db.(sources := db.sources[sid := Source(tenant, provider, namespace, enabled, None)]);
          assert OnlyRegistration(db, after, sid);
          RegistrationKeeps(db, after, sid);
        }
      case SetEnabled(sid, enabled) =>
        if sid in db.sources {
          var after := db.(sources := db.sources[sid := db.sources[sid].(enabled := enabled)]);
          assert OnlyRegistration(db, after, sid);
          RegistrationKeeps(db, after, sid);
        }
      case Manifested(sid, manifest) =>
        if sid in db.sources && RegisterManifest(db, sid, manifest).Some? {
          ManifestKeeps(db, sid, manifest);
        }
      case Message(sid, m, now) =>
        if sid in db.sources {
          MessageKeeps(db, sid, m, now);
        }
      case Batch(sid, batch, rows, observedAt, now, limit) =>
        if sid in db.sources && Ingestion.IsLookup(db.accessNodes, db.sources[sid].tenant, rows) {
          if Ingestion.Ingest(db, sid, batch, rows, observedAt, now, limit).Success? {
            BatchKeeps(db, sid, batch, rows, observedAt, now, limit);
          }
        }
    }
  }

  /** The invariant holds after every run, whatever was registered, sent, replayed, refused or ingested. */
  lemma {:induction false} InvariantAlways(db: Db, events: seq<Event>)
    requires Initial(db)
    ensures Invariant(Run(db, events))
  {
    if events == [] {
    } else {
      InvariantAlways(db, events[..|events| - 1]);
      NextKeeps(Run(db, events[..|events| - 1]), events[|events| - 1]);
    }
  }
}
