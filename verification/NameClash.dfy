/** When a legacy row keeps a connector from publishing. Names are text under one uniqueness constraint for all tenants,
    so a legacy collector may take the canonical name of another source's object; it can exactly if its namespace
    reaches one. */
module NameClash {
  import opened Wrappers
  import opened Contracts
  import opened Store
  import opened Sync
  import opened SyncFrames
  import opened ControlPlane
  import Ingestion

  /** The canonical name of an object of this kind. */
  ghost predicate Names(kind: string, x: string) {
    exists id: CanonicalId :: id.ref.kind == kind && x == id.Text()
  }

  /** A canonical name lies in the namespace, of a kind that legacy collectors may write. */
  ghost predicate Reaches(namespace: string) {
    exists id: CanonicalId :: id.ref.kind in ALLOWED_KINDS && namespace <= id.Text()
  }

  /** A check by prefixes that is enough: neither is the start of the other. */
  lemma OtherPrefixReachesNothing(namespace: string)
    requires !(namespace <= CANONICAL) && !(CANONICAL <= namespace)
    ensures !Reaches(namespace)
  {
    forall id: CanonicalId ensures !(namespace <= id.Text()) {
      TextIsInjective(id, id);
    }
  }

  /** No row with a row number bears a canonical name of its kind. */
  ghost predicate PlainRows(db: Db) {
    && (forall n :: n in db.accessNodes && n.Assigned? ==> !Names(db.accessNodes[n].kind, db.accessNodes[n].name))
    && (forall n :: n in db.objectNodes && n.Assigned? ==> !Names(db.objectNodes[n].kind, db.objectNodes[n].name))
  }

  // ------------------------------------------------------------------ Sources and the events that registered them

  predicate RegistersAs(e: Event, sid: SourceId, namespace: string) {
    e.RegisterSource? && e.sid == sid && e.namespace == namespace
  }

  ghost predicate Registered(events: seq<Event>, sid: SourceId, namespace: string) {
    exists e :: e in events && RegistersAs(e, sid, namespace)
  }

  /** No source that ingests batches has a namespace that reaches a canonical name. */
  ghost predicate Guarded(events: seq<Event>) {
    forall b, e :: b in events && e in events && b.Batch? && e.RegisterSource? && e.sid == b.sid ==> !Reaches(e.namespace)
  }

  lemma NamespacesKept(db: Db, e: Event, s: SourceId)
    requires s in Next(db, e).sources
    requires Invariant(db)
    ensures var namespace := Next(db, e).sources[s].allowedNamespace;
            if s in db.sources then db.sources[s].allowedNamespace == namespace else RegistersAs(e, s, namespace)
  {
    if e.Message? && e.sid in db.sources && Apply(db, e.sid, e.m, e.now).Accepted? {
      var after := MessageEffect(db, e.sid, e.m, e.now);
      assert Next(db, e) == after;
    } else {
      OtherNamespaces(db, e, s);
    }
  }

  lemma OtherNamespaces(db: Db, e: Event, s: SourceId)
    requires s in Next(db, e).sources
    requires !(e.Message? && e.sid in db.sources && Apply(db, e.sid, e.m, e.now).Accepted?)
    ensures var namespace := Next(db, e).sources[s].allowedNamespace;
            if s in db.sources then db.sources[s].allowedNamespace == namespace else RegistersAs(e, s, namespace)
  {
    hide Apply, Ingestion.UpsertBatch, Ingestion.IsLookup, Ingestion.Consistent;
  }

  lemma {:induction false} SourcesWereRegistered(start: Db, events: seq<Event>, s: SourceId)
    requires Initial(start) && s in Run(start, events).sources
    ensures Registered(events, s, Run(start, events).sources[s].allowedNamespace)
  {
    hide Next, Invariant;
    if events != [] {
      var front, e := events[..|events| - 1], events[|events| - 1];
      InvariantAlways(start, front);
      NamespacesKept(Run(start, front), e, s);
      assert e in events && forall x :: x in front ==> x in events;
      if s in Run(start, front).sources {
        SourcesWereRegistered(start, front, s);
      }
    }
  }

  // ------------------------------------------------------------------ The guard suffices

  lemma MessageKeepsPlain(db: Db, sid: SourceId, m: SyncMessage, now: Time)
    requires PlainRows(db) && sid in db.sources && Apply(db, sid, m, now).Accepted?
    requires Invariant(db)
    ensures PlainRows(Apply(db, sid, m, now).db)
  {
    hide Invariant, Apply, ProjectedNow, Keyed, KeyedFacts, SyncHistory.Refines, FactsAt, Names;
    var after := MessageEffect(db, sid, m, now);
    hide AfterMessage;
    forall n | n in after.accessNodes && n.Assigned? ensures !Names(after.accessNodes[n].kind, after.accessNodes[n].name) {
      NodeAfter(db, after, sid, m, now, n);
    }
    forall n | n in after.objectNodes && n.Assigned? ensures !Names(after.objectNodes[n].kind, after.objectNodes[n].name) {
      ObjectAfter(db, after, sid, m, now, n);
    }
  }

  lemma BatchKeepsPlain(
    db: Db, sid: SourceId, batch: seq<Ingestion.Relationship>, rows: map<string, NodeId>, observedAt: Option<Time>, now: Time, limit: nat)
    requires PlainRows(db) && sid in db.sources && Ingestion.IsLookup(db.accessNodes, db.sources[sid].tenant, rows)
    requires Ingestion.Consistent(Ingestion.Start(db), rows) && Ingestion.Ingest(db, sid, batch, rows, observedAt, now, limit).Success?
    requires !Reaches(db.sources[sid].allowedNamespace)
    requires Invariant(db)
    ensures PlainRows(Ingestion.Ingest(db, sid, batch, rows, observedAt, now, limit).value.0)
  {
    var after, p := BatchEffect(db, sid, batch, rows, observedAt, now, limit);
    forall n | n in after.accessNodes && n.Assigned? ensures !Names(after.accessNodes[n].kind, after.accessNodes[n].name) {
      if n !in db.accessNodes {
        assert Ingestion.RowAdded(p.nodes[n], db.sources[sid], sid);
      }
    }
  }

  lemma NextKeepsPlain(db: Db, e: Event)
    requires PlainRows(db) && (e.Batch? && e.sid in db.sources ==> !Reaches(db.sources[e.sid].allowedNamespace))
    requires Invariant(db)
    ensures PlainRows(Next(db, e))
  {
    match e {
      case Message(sid, m, now) =>
        if sid in db.sources && Apply(db, sid, m, now).Accepted? {
          MessageKeepsPlain(db, sid, m, now);
        }
      case Batch(sid, batch, rows, observedAt, now, limit) =>
        if sid in db.sources && Ingestion.IsLookup(db.accessNodes, db.sources[sid].tenant, rows) {
          if Ingestion.Ingest(db, sid, batch, rows, observedAt, now, limit).Success? {
            BatchKeepsPlain(db, sid, batch, rows, observedAt, now, limit);
          }
        }
      case _ =>
    }
  }

  lemma {:induction false} PlainAlways(start: Db, events: seq<Event>)
    requires Initial(start) && PlainRows(start) && Guarded(events)
    ensures PlainRows(Run(start, events))
  {
    hide Next, PlainRows, Reaches, Invariant;
    if events != [] {
      var front, e := events[..|events| - 1], events[|events| - 1];
      assert e in events && forall x :: x in front ==> x in events;
      PlainAlways(start, front);
      InvariantAlways(start, front);
      if e.Batch? && e.sid in Run(start, front).sources {
        SourcesWereRegistered(start, front, e.sid);
      }
      NextKeepsPlain(Run(start, front), e);
    }
  }

  /** Without such rows nothing a source asserts is taken: other sources' canonical names are different ones. */
  lemma PlainMeansFree(db: Db, sid: SourceId, live: Generation)
    requires PlainRows(db) && sid in db.sources && Keyed(db.sources[sid].tenant, sid, live)
    requires OwnedNodes(db.accessNodes) && OwnedObjects(db.sources, db.objectNodes)
    ensures !Clashes(db, sid, live)
  {
    hide CanonicalId.Text, ALLOWED_KINDS;
    var rest, tenant := Cleared(db, sid), db.sources[sid].tenant;
    forall k | k in live && live[k].ObjectRecord?
      ensures !Bears(rest.objectNodes, rest.accessNodes, live[k].ref.kind, live[k].ref.CanonicalId(tenant).Text())
    {
      var id := live[k].ref.CanonicalId(tenant);
      assert Names(live[k].ref.kind, id.Text());
      forall n | n in rest.objectNodes && rest.objectNodes[n].kind == live[k].ref.kind ensures rest.objectNodes[n].name != id.Text() {
        if n.Projected? {
          TextIsInjective(n.id, id);
        }
      }
      forall n | n in rest.accessNodes && rest.accessNodes[n].kind == live[k].ref.kind ensures rest.accessNodes[n].name != id.Text() {
        if n.Projected? {
          TextIsInjective(n.id, id);
        }
      }
    }
  }

  lemma {:induction false} ValidationNeverViolates(
    sources: map<SourceId, Source>, sid: SourceId, manifest: Manifest, records: seq<Record>, now: Time)
    requires sid in sources
    ensures FactsError(sources, sid, manifest, records, now) != Some(UniqueViolation)
  {
    if records != [] {
      ValidationNeverViolates(sources, sid, manifest, records[..|records| - 1], now);
    }
  }

  lemma {:induction false} UpsertsNeverViolate(tenant: Tenant, gen: Generation, records: seq<Record>)
    ensures UpsertAll(tenant, gen, records) != Failure(UniqueViolation)
  {
    if records != [] {
      UpsertsNeverViolate(tenant, gen, records[..|records| - 1]);
    }
  }

  /** The refusal comes of a clash with the facts that would have been live. */
  lemma ViolationMeansClash(db: Db, sid: SourceId, m: SyncMessage, now: Time) returns (live: Generation)
    requires sid in db.sources && WellFormed(db) && Apply(db, sid, m, now) == Refused(UniqueViolation)
    ensures Keyed(db.sources[sid].tenant, sid, live) && Clashes(db, sid, live)
  {
    var tenant, manifest := db.sources[sid].tenant, db.states[sid].manifest;
    ValidationNeverViolates(db.sources, sid, manifest, m.Facts(), now);
    UpsertsNeverViolate(tenant, db.Facts(sid, m.snapshotId), m.Facts());
    UpsertsNeverViolate(tenant, Without(db.Facts(sid, LIVE), m.tombstones), m.Facts());
    if m.operation.Complete? {
      live := db.Facts(sid, m.snapshotId);
    } else {
      KeyedWithout(tenant, sid, db.Facts(sid, LIVE), m.tombstones);
      UpsertAllIsKeyed(db.sources, sid, manifest, Without(db.Facts(sid, LIVE), m.tombstones), m.Facts(), now);
      live := UpsertAll(tenant, Without(db.Facts(sid, LIVE), m.tombstones), m.Facts()).value;
    }
  }

  /** Where no legacy collector reaches a canonical name, no publication is ever refused for a name. */
  lemma GuardedNeverRefused(start: Db, events: seq<Event>, sid: SourceId, m: SyncMessage, now: Time)
    requires Initial(start) && PlainRows(start) && Guarded(events)
    requires sid in Run(start, events).sources
    ensures Apply(Run(start, events), sid, m, now) != Refused(UniqueViolation)
  {
    hide Run, PlainRows, Guarded, Apply, Clashes, Keyed, OwnedNodes, OwnedObjects, LogInvariant, GraphInvariant;
    var db := Run(start, events);
    PlainAlways(start, events);
    InvariantAlways(start, events);
    if Apply(db, sid, m, now) == Refused(UniqueViolation) {
      var live := ViolationMeansClash(db, sid, m, now);
      PlainMeansFree(db, sid, live);
    }
  }

  // ------------------------------------------------------------------ ... and is needed

  /** The source of `v`'s object, and a legacy collector of some tenant. */
  function Impostors(v: CanonicalId): SourceId {
    v.ref.sourceId + "_"
  }

  function ManifestFor(v: CanonicalId): Manifest {
    Manifest({v.ref.kind}, {}, {ChangesCapability}, map[], true)
  }

  /** The legacy collector names a node of its own after the object. */
  function Impostor(v: CanonicalId): Ingestion.Relationship {
    Ingestion.Relationship(Ingestion.Ref(v.ref.kind, v.Text()), "member_of", Ingestion.Ref("group", v.Text() + "'"), NO_ATTRIBUTES, true)
  }

  function Setting(v: CanonicalId, namespace: string): seq<Event> {
    [RegisterSource(v.ref.sourceId, v.tenant, "aws", "", true), Manifested(v.ref.sourceId, ManifestFor(v)),
     RegisterSource(Impostors(v), "u", "hr", namespace, true)]
  }

  function Trap(v: CanonicalId, namespace: string): seq<Event> {
    Setting(v, namespace) + [Batch(Impostors(v), [Impostor(v)], map[], None, 0, 1)]
  }

  /** What the connector then has to say: one object, in one delta. */
  function Assertion(v: CanonicalId): SyncMessage {
    Envelope(1, Delta, "", [ObjectRecord(v.ref, "one", 0, NO_ATTRIBUTES)], [], [], PartialCoverage, 100)
  }

  const EMPTY := Db(map[], map[], map[], map[], map[], {}, map[], {}, 0)

  function Owner(v: CanonicalId): Source {
    Source(v.tenant, "aws", "", true, None)
  }

  function Prepared(v: CanonicalId, namespace: string): Db {
    EMPTY.(sources := map[v.ref.sourceId := Owner(v), Impostors(v) := Source("u", "hr", namespace, true, None)],
           states := map[v.ref.sourceId := ConnectorState(ManifestFor(v), 0, None, PartialCoverage)])
  }

  lemma TwoSources(v: CanonicalId)
    ensures v.ref.sourceId != Impostors(v) && v.Text() != v.Text() + "'"
  {
    assert |Impostors(v)| != |v.ref.sourceId| && |v.Text() + "'"| != |v.Text()|;
  }

  lemma SettingRuns(v: CanonicalId, namespace: string)
    ensures Run(EMPTY, Setting(v, namespace)) == Prepared(v, namespace)
  {
    TwoSources(v);
    var events, a := Setting(v, namespace), v.ref.sourceId;
    assert events[..2] == [events[0], events[1]] && events[..2][..1] == [events[0]] && events[..2][..1][..0] == [];
    var one := EMPTY.(sources := map[a := Owner(v)]);
    assert Run(EMPTY, []) == EMPTY;
    assert Run(EMPTY, events[..2][..1]) == Next(EMPTY, events[0]) == one;
    var two := one.(states := map[a := ConnectorState(ManifestFor(v), 0, None, PartialCoverage)]);
    assert Run(EMPTY, events[..2]) == Next(one, events[1]) == two;
    assert Run(EMPTY, events) == Next(two, events[2]);
  }

  /** The row of another source that bears the name. */
  ghost predicate Taken(db: Db, v: CanonicalId) {
    && Assigned(0) in db.accessNodes && db.accessNodes[Assigned(0)].kind == v.ref.kind
    && db.accessNodes[Assigned(0)].name == v.Text() && db.accessNodes[Assigned(0)].sourceId == Some(Impostors(v))
  }

  ghost predicate Trapped(db: Db, v: CanonicalId, namespace: string) {
    && db == Prepared(v, namespace).(accessNodes := db.accessNodes, accessEdges := db.accessEdges, nextRow := db.nextRow, sources := db.sources)
    && db.sources.Keys == {v.ref.sourceId, Impostors(v)} && db.sources[v.ref.sourceId] == Owner(v)
    && Taken(db, v)
  }

  /** The batch is accepted, and leaves a row that bears the name. */
  lemma TrapRuns(v: CanonicalId, namespace: string)
    requires v.ref.kind in ALLOWED_KINDS && namespace <= v.Text()
    ensures Trapped(Run(EMPTY, Trap(v, namespace)), v, namespace)
  {
    hide CanonicalId.Text, Next, Trapped;
    SettingRuns(v, namespace);
    var events := Trap(v, namespace);
    assert events[..|events| - 1] == Setting(v, namespace);
    BatchIsAccepted(v, namespace);
  }

  lemma BatchIsAccepted(v: CanonicalId, namespace: string)
    requires v.ref.kind in ALLOWED_KINDS && namespace <= v.Text()
    ensures Trapped(Next(Prepared(v, namespace), Batch(Impostors(v), [Impostor(v)], map[], None, 0, 1)), v, namespace)
  {
    hide CanonicalId.Text, ALLOWED_KINDS, TRAVERSABLE, Ingestion.UpsertEdge, Ingestion.UpsertNode;
    TwoSources(v);
    var db, rel, l := Prepared(v, namespace), Impostor(v), Impostors(v);
    var source, start := db.sources[l], Ingestion.Start(db);
    ImpostorIsPermitted(v, namespace);
    NodesOfTrap(v, start, source);
    var p1 := Ingestion.UpsertNode(start, source, l, map[], rel.subject, 0).value;
    var p2 := Ingestion.UpsertNode(p1, source, l, map[], rel.target, 0).value;
    Ingestion.EdgeLeavesNodes(p2, source, l, p2.cache[rel.subject.id], rel.relation, p2.cache[rel.target.id], rel.attributes, 0);
    assert [rel][..0] == [];
    assert Ingestion.UpsertBatch(start, source, l, map[], [rel][..0], 0) == Success(start);
  }

  lemma ImpostorIsPermitted(v: CanonicalId, namespace: string)
    requires v.ref.kind in ALLOWED_KINDS && namespace <= v.Text()
    ensures Ingestion.BatchPermitted(Source("u", "hr", namespace, true, None), [Impostor(v)], 1)
  {
    hide CanonicalId.Text;
    TextIsInjective(v, v);
    assert namespace <= v.Text() + "'";
  }

  lemma NodesOfTrap(v: CanonicalId, start: Ingestion.Progress, source: Source)
    requires start == Ingestion.Start(EMPTY) && source.tenant == "u"
    ensures var rel, l := Impostor(v), Impostors(v); var r1 := Ingestion.UpsertNode(start, source, l, map[], rel.subject, 0);
            && r1.Success? && Ingestion.Consistent(r1.value, map[])
            && var r2 := Ingestion.UpsertNode(r1.value, source, l, map[], rel.target, 0);
               && r2.Success? && Assigned(0) in r2.value.nodes && r2.value.nodes[Assigned(0)].kind == v.ref.kind
               && r2.value.nodes[Assigned(0)].name == v.Text() && r2.value.nodes[Assigned(0)].sourceId == Some(l)
  {
    hide CanonicalId.Text;
    TwoSources(v);
  }

  /** A reachable run in which a legacy row, of whatever tenant, stops a connector from publishing an object. */
  lemma LegacyRowStopsConnector(v: CanonicalId, namespace: string)
    requires v.ref.kind in ALLOWED_KINDS && namespace <= v.Text()
    ensures Initial(EMPTY) && PlainRows(EMPTY) && v.ref.sourceId in Run(EMPTY, Trap(v, namespace)).sources
    ensures Apply(Run(EMPTY, Trap(v, namespace)), v.ref.sourceId, Assertion(v), 0) == Refused(UniqueViolation)
  {
    hide CanonicalId.Text, Run, FactsError, UpsertAll, Clashes, Replace, Taken;
    TrapRuns(v, namespace);
    var db, m := Run(EMPTY, Trap(v, namespace)), Assertion(v);
    var o := m.objects[0];
    AssertionIsValid(db, v, o);
    assert Without(db.Facts(v.ref.sourceId, LIVE), []) == map[];
    ClashOfTrap(db, v, map[o.Key(v.tenant) := o], o);
  }

  lemma AssertionIsValid(db: Db, v: CanonicalId, o: Record)
    requires v.ref.sourceId in db.sources && db.sources[v.ref.sourceId] == Owner(v) && o == Assertion(v).objects[0]
    ensures FactsError(db.sources, v.ref.sourceId, ManifestFor(v), Assertion(v).Facts(), 0).None?
    ensures UpsertAll(v.tenant, map[], Assertion(v).Facts()) == Success(map[o.Key(v.tenant) := o])
  {
    assert Assertion(v).Facts() == [o] && [o][..0] == [];
  }

  lemma ClashOfTrap(db: Db, v: CanonicalId, live: Generation, o: Record)
    requires v.ref.sourceId in db.sources && db.sources[v.ref.sourceId] == Owner(v)
    requires o == Assertion(v).objects[0] && live == map[o.Key(v.tenant) := o]
    requires v.ref.kind in ALLOWED_KINDS && Taken(db, v)
    ensures Clashes(db, v.ref.sourceId, live)
  {
    hide CanonicalId.Text, ALLOWED_KINDS;
    TwoSources(v);
    var rest := Cleared(db, v.ref.sourceId);
    assert Assigned(0) in rest.accessNodes;
    assert Bears(rest.objectNodes, rest.accessNodes, v.ref.kind, v.Text());
    assert o.Key(v.tenant) in live;
  }

  /** Legacy collectors keep to this namespace and to namespaces that reach no canonical name. */
  ghost predicate KeepsTo(events: seq<Event>, namespace: string) {
    forall b, e :: b in events && e in events && b.Batch? && e.RegisterSource? && e.sid == b.sid ==>
      e.namespace == namespace || !Reaches(e.namespace)
  }

  /** While they do, no publication is ever refused for a name, whatever else happens. */
  ghost predicate NeverRefused(namespace: string) {
    forall start: Db, events: seq<Event>, sid: SourceId, m: SyncMessage, now: Time ::
      Initial(start) && PlainRows(start) && KeepsTo(events, namespace) && sid in Run(start, events).sources ==>
        Apply(Run(start, events), sid, m, now) != Refused(UniqueViolation)
  }

  /** That holds exactly for the namespaces that reach no canonical name. */
  lemma NamespacesDecide(namespace: string)
    ensures NeverRefused(namespace) <==> !Reaches(namespace)
  {
    hide Run, Initial, PlainRows, Apply, CanonicalId.Text, ALLOWED_KINDS;
    if !Reaches(namespace) {
      forall start: Db, events: seq<Event>, sid: SourceId, m: SyncMessage, now: Time |
        Initial(start) && PlainRows(start) && KeepsTo(events, namespace) && sid in Run(start, events).sources
        ensures Apply(Run(start, events), sid, m, now) != Refused(UniqueViolation)
      {
        hide Reaches;
        assert Guarded(events);
        GuardedNeverRefused(start, events, sid, m, now);
      }
    } else {
      var v: CanonicalId :| v.ref.kind in ALLOWED_KINDS && namespace <= v.Text();
      LegacyRowStopsConnector(v, namespace);
      TrapNamespaces(v, namespace);
    }
  }

  lemma TrapNamespaces(v: CanonicalId, namespace: string)
    ensures KeepsTo(Trap(v, namespace), namespace)
  {
    hide Reaches, Impostor, Assertion;
    TwoSources(v);
  }
}
