/** What a path of authority rests on, in every state the control plane can reach. */
module Authority {
  import opened Wrappers
  import opened Contracts
  import opened Store
  import opened Sync
  import opened SyncHistory
  import opened SyncFrames
  import opened ControlPlane
  import opened AccessGraph

  /** The query reads the tables of `db`; the edge table comes in whatever order the database returns it. */
  ghost predicate Reads(q: Query, db: Db) {
    && q.nodes == db.accessNodes && q.sources == db.sources
    && (forall e :: e in q.edges <==> e in db.accessEdges)
  }

  /** The time is not in the future and not longer ago than the age limit. */
  ghost predicate Recent(q: Query, t: Option<Time>) {
    t.Some? && t.value <= q.now && q.now - t.value <= q.maxAge
  }

  /** The source is registered for the tenant, switched on, and synchronised within the age window. */
  ghost predicate CurrentSource(q: Query, sid: Option<SourceId>, tenant: Tenant) {
    && sid.Some? && sid.value in q.sources
    && q.sources[sid.value].tenant == tenant
    && q.sources[sid.value].enabled
    && Recent(q, q.sources[sid.value].lastSyncAt)
  }

  ghost predicate ConfinedNode(q: Query, n: NodeId, tenant: Tenant) {
    && n in q.nodes
    && q.nodes[n].tenant == Some(tenant)
    && CurrentSource(q, q.nodes[n].sourceId, tenant)
    && Recent(q, q.nodes[n].observedAt)
  }

  ghost predicate NothingWithheld(live: Generation) {
    forall k :: k in live && live[k].RelationshipRecord? ==> Unconditional(live[k].attributes)
  }

  /** A hop that stays with current sources of one tenant, none of which withholds authority. */
  ghost predicate ConfinedHop(db: Db, q: Query, e: AccessEdge, tenant: Tenant) {
    && e.tenant == Some(tenant)
    && CurrentSource(q, e.sourceId, tenant)
    && Recent(q, e.observedAt)
    && ConfinedNode(q, e.src, tenant) && ConfinedNode(q, e.dst, tenant)
    && Unconditional(e.attributes)
    && (forall f :: f in db.accessEdges && f.sourceId == e.sourceId ==> Unconditional(f.attributes))
    && (Published(db, e.sourceId.value) ==> NothingWithheld(db.Facts(e.sourceId.value, LIVE)))
  }

  /** The hop is asserted by a live relationship of its source. */
  ghost predicate Asserted(db: Db, sid: SourceId, e: AccessEdge) {
    && sid in db.sources
    && exists k :: k in db.Facts(sid, LIVE) && db.Facts(sid, LIVE)[k].RelationshipRecord?
             && e == AccessEdgeOf(db.sources[sid], sid, db.Facts(sid, LIVE)[k])
  }

  /** The node is asserted by a live object of the source that its id names. */
  ghost predicate Present(db: Db, n: NodeId) {
    && n.Projected?
    && ObjectKey(n.id) in db.Facts(n.id.ref.sourceId, LIVE)
    && db.Facts(n.id.ref.sourceId, LIVE)[ObjectKey(n.id)].ObjectRecord?
  }

  // ------------------------------------------------------------------ Single hops

  /** A canonical row is there only because its source asserts the object now. */
  lemma RowIsPresent(db: Db, n: NodeId)
    requires Invariant(db) && n in db.accessNodes && n.Projected?
    ensures Present(db, n)
  {
    hide LogInvariant, UniqueNames, EdgeInvariant, FactsAt, Published, NoEmptySlots, Keyed;
    var sid := n.id.ref.sourceId;
    assert NodeInvariant(db, n);
    assert NodesMirrorFacts(db, sid);
    assert n in OwnNodes(db, Some(sid));
    assert n in AccessIds(db.Facts(sid, LIVE));
  }

  lemma HopIsBacked(db: Db, q: Query, e: AccessEdge)
    requires Invariant(db) && Reads(q, db) && e in db.accessEdges && q.UsableEdge(e)
    requires e.sourceId.Some? && Published(db, e.sourceId.value)
    ensures Asserted(db, e.sourceId.value, e) && Present(db, e.src) && Present(db, e.dst)
  {
    hide LogInvariant, UniqueNames, Published, FactsAt, WellFormed, NodesMirrorFacts, NodeInvariant, Present;
    assert EdgeInvariant(db, e);
    assert e.src in db.accessNodes && e.dst in db.accessNodes;
    hide Query.UsableEdge;
    RowIsPresent(db, e.src);
    RowIsPresent(db, e.dst);
  }

  // ------------------------------------------------------------------ Whole paths

  lemma HopsAreUsable(
    db: Db, q: Query, matches: (string, string) -> bool, subject: string, action: string, resource: string)
    requires Reads(q, db)
    ensures var r := Answer(q, matches, subject, action, resource);
            r.Some? ==> forall e :: e in r.value.hops ==> e in db.accessEdges && q.UsableEdge(e)
  {
    AnswerIsSound(q, matches, subject, action, resource);
    hide Answer, Query.UsableEdge, NodeNamed, Permits, OpenNode, OpenEdge, End;
    var r := Answer(q, matches, subject, action, resource);
    if r.Some? {
      forall e | e in r.value.hops ensures e in db.accessEdges && q.UsableEdge(e) {
        UsableEdgeExactly(q, e);
      }
    }
  }

  lemma HopIsConfined(db: Db, q: Query, e: AccessEdge, tenant: Tenant)
    requires Invariant(db) && Reads(q, db) && !q.demo && q.tenant == Some(tenant)
    requires e in db.accessEdges && q.UsableEdge(e)
    ensures ConfinedHop(db, q, e, tenant)
  {
    hide LogInvariant, UniqueNames, Published, FactsAt, NodesMirrorFacts, NodeInvariant, UniqueTriples;
    assert EdgeInvariant(db, e);
  }

  /** Outside demonstrations, a path for a tenant rests on current, unrestricted sources of that tenant alone. */
  lemma PathsAreConfined(
    db: Db, q: Query, matches: (string, string) -> bool, subject: string, action: string, resource: string, tenant: Tenant)
    requires Invariant(db) && Reads(q, db) && !q.demo && q.tenant == Some(tenant)
    ensures var r := Answer(q, matches, subject, action, resource);
            r.Some? ==> forall e :: e in r.value.hops ==> ConfinedHop(db, q, e, tenant)
  {
    HopsAreUsable(db, q, matches, subject, action, resource);
    var r := Answer(q, matches, subject, action, resource);
    if r.Some? {
      forall e | e in r.value.hops ensures ConfinedHop(db, q, e, tenant) {
        hide Answer, Invariant, Reads, ConfinedHop, Query.UsableEdge;
        HopIsConfined(db, q, e, tenant);
      }
    }
  }

  /** Neither the hop nor one of its ends belongs to the source. */
  ghost predicate Avoids(q: Query, e: AccessEdge, sid: SourceId) {
    && e.sourceId != Some(sid)
    && e.src in q.nodes && q.nodes[e.src].sourceId != Some(sid)
    && e.dst in q.nodes && q.nodes[e.dst].sourceId != Some(sid)
  }

  /** Switching a source off takes all its authority away at once and silences its connector; switching it on again
      restores everything. */
  lemma SwitchTakesAuthority(
    db: Db, off: Db, sid: SourceId, q: Query, matches: (string, string) -> bool, subject: string, action: string,
    resource: string, tenant: Tenant)
    requires sid in db.sources && off == Next(db, SetEnabled(sid, false))
    requires Reads(q, off) && !q.demo && q.tenant == Some(tenant)
    requires Invariant(db)
    ensures var r := Answer(q, matches, subject, action, resource);
            r.Some? ==> forall e :: e in r.value.hops ==> Avoids(q, e, sid)
    ensures sid in off.sources && forall m, now :: Apply(off, sid, m, now) == Refused(SourceDisabled)
    ensures db.sources[sid].enabled ==> Next(off, SetEnabled(sid, true)) == db
  {
    hide Invariant, Answer, Operate, ScreenError, Published, NothingWithheld;
    NextKeeps(db, SetEnabled(sid, false));
    PathsAreConfined(off, q, matches, subject, action, resource, tenant);
    assert db.sources[sid].enabled ==> db.sources[sid := db.sources[sid].(enabled := false)][sid := db.sources[sid]] == db.sources;
  }

  /** If the hop's source has published: asserted by a live relationship, between live objects. */
  ghost predicate Backed(db: Db, e: AccessEdge) {
    e.sourceId.Some? && Published(db, e.sourceId.value) ==>
      Asserted(db, e.sourceId.value, e) && Present(db, e.src) && Present(db, e.dst)
  }

  /** Every hop of a source that has published is asserted by a live relationship, between live objects. */
  lemma PathsAreBacked(
    db: Db, q: Query, matches: (string, string) -> bool, subject: string, action: string, resource: string)
    requires Invariant(db) && Reads(q, db)
    ensures var r := Answer(q, matches, subject, action, resource);
            r.Some? ==> forall e :: e in r.value.hops ==> Backed(db, e)
  {
    hide Answer, Invariant, Reads, Backed, Query.UsableEdge;
    HopsAreUsable(db, q, matches, subject, action, resource);
    var r := Answer(q, matches, subject, action, resource);
    if r.Some? {
      forall e | e in r.value.hops ensures Backed(db, e) {
        UsableIsBacked(db, q, e);
      }
    }
  }

  lemma UsableIsBacked(db: Db, q: Query, e: AccessEdge)
    requires Invariant(db) && Reads(q, db) && e in db.accessEdges && q.UsableEdge(e)
    ensures Backed(db, e)
  {
    hide Invariant, Reads, Asserted, Present, Query.UsableEdge, Published;
    if e.sourceId.Some? && Published(db, e.sourceId.value) {
      HopIsBacked(db, q, e);
    }
  }

  // ------------------------------------------------------------------ Revocation

  /** The hop is the one the relationship `key` of source `sid` stands for, or it touches the object `key` names. */
  ghost predicate Uses(e: AccessEdge, sid: SourceId, key: FactKey) {
    match key
    case RelationKey(subject, relation, target) =>
      e.sourceId == Some(sid) && e.src == Projected(subject) && e.relation == relation && e.dst == Projected(target)
    case ObjectKey(id) => id.ref.sourceId == sid && (e.src == Projected(id) || e.dst == Projected(id))
    case UnknownKey(_) => false
  }

  /** Once a fact is no longer live, no path uses it: neither the relationship nor, whoever asserted
      the edge, a node that its source no longer asserts. */
  lemma GoneFactsCarryNoAuthority(
    db: Db, q: Query, matches: (string, string) -> bool, subject: string, action: string, resource: string,
    sid: SourceId, key: FactKey)
    requires Invariant(db) && Reads(q, db) && sid in db.sources && Published(db, sid) && key !in db.Facts(sid, LIVE)
    ensures var r := Answer(q, matches, subject, action, resource);
            r.Some? ==> forall e :: e in r.value.hops ==> !Uses(e, sid, key)
  {
    hide Answer, Invariant, Reads, Uses, FactsAt, Published, Query.UsableEdge;
    HopsAreUsable(db, q, matches, subject, action, resource);
    var r := Answer(q, matches, subject, action, resource);
    if r.Some? {
      forall e | e in r.value.hops ensures !Uses(e, sid, key) {
        GoneFactCarriesNoHop(db, q, e, sid, key);
      }
    }
  }

  lemma GoneFactCarriesNoHop(db: Db, q: Query, e: AccessEdge, sid: SourceId, key: FactKey)
    requires Invariant(db) && Reads(q, db) && e in db.accessEdges && q.UsableEdge(e)
    requires Published(db, sid) && key !in db.Facts(sid, LIVE)
    ensures !Uses(e, sid, key)
  {
    if Uses(e, sid, key) {
      if key.RelationKey? {
        UsableIsBacked(db, q, e);
        InvariantParts(db);
        AssertedUnderItsKey(db, sid, e, key);
      } else {
        RowIsPresent(db, Projected(key.id));
      }
    }
  }

  lemma AssertedUnderItsKey(db: Db, sid: SourceId, e: AccessEdge, key: FactKey)
    requires WellFormed(db) && Asserted(db, sid, e) && key.RelationKey? && Uses(e, sid, key)
    ensures key in db.Facts(sid, LIVE)
  {
  }

  lemma {:induction false} OverlaidKeys(tenant: Tenant, gen: Generation, records: seq<Record>, key: FactKey)
    requires key !in gen && forall r :: r in records ==> r.Key(tenant) != key
    ensures key !in Overlay(tenant, gen, records)
  {
    OverlayKeepsRest(tenant, gen, records, key);
  }

  /** The accepted message withdraws a fact: by a tombstone that it does not undo itself, or by completing
      a snapshot that omits the fact. `after` is the state it commits. */
  ghost predicate Withdraws(db: Db, sid: SourceId, m: SyncMessage, now: Time, key: FactKey, after: Db) {
    && sid in db.sources && Apply(db, sid, m, now).Accepted? && after == Apply(db, sid, m, now).db
    && match m.operation
       case Delta => key in m.tombstones && forall r :: r in m.Facts() ==> r.Key(db.sources[sid].tenant) != key
       case Complete => key !in db.Facts(sid, m.snapshotId)
       case _ => false
  }

  lemma MessageRevokes(db: Db, sid: SourceId, m: SyncMessage, now: Time, key: FactKey, after: Db)
    requires Invariant(db) && Withdraws(db, sid, m, now, key, after)
    ensures Invariant(after) && sid in after.sources && Published(after, sid) && key !in after.Facts(sid, LIVE)
  {
    AcceptedKeeps(db, sid, m, now);
    InvariantParts(db);
    RefinesOf(db, sid);
    RefinesNumbers(db, sid);
    var a, log := AcceptedFacts(db, sid, m, now);
    if m.operation.Delta? {
      OverlaidKeys(db.sources[sid].tenant, Without(db.Facts(sid, LIVE), m.tombstones), m.Facts(), key);
      WithFactsAt(db.facts, Slot(sid, LIVE), Overlay(db.sources[sid].tenant, Without(db.Facts(sid, LIVE), m.tombstones), m.Facts()));
    } else {
      WithFactsAt(db.facts - {Slot(sid, m.snapshotId)}, Slot(sid, LIVE), db.Facts(sid, m.snapshotId));
    }
  }

  /** End-to-end revocation: after the message that withdraws a fact, no path in the committed state uses it,
      even where another source's edge still names the withdrawn object. */
  lemma WithdrawnFactsCarryNoAuthority(
    db: Db, sid: SourceId, m: SyncMessage, now: Time, key: FactKey, after: Db,
    q: Query, matches: (string, string) -> bool, subject: string, action: string, resource: string)
    requires Invariant(db) && Withdraws(db, sid, m, now, key, after) && Reads(q, after)
    ensures var r := Answer(q, matches, subject, action, resource);
            r.Some? ==> forall e :: e in r.value.hops ==> !Uses(e, sid, key)
  {
    hide Answer, Invariant, Reads, Uses, FactsAt, Published, Withdraws;
    MessageRevokes(db, sid, m, now, key, after);
    GoneFactsCarryNoAuthority(after, q, matches, subject, action, resource, sid, key);
  }
}
