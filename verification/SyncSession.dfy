/** Synchronisation as the program performs it: a session that rewrites its tables step by step and
    leaves them half-changed when a message is refused, and the caller that rolls back. */
module SyncSession {
  import opened Wrappers
  import opened Contracts
  import opened Store
  import opened Sync
  import SyncFrames
  import SyncVerdicts

  // ------------------------------------------------------------------ Projection grows one fact at a time

  lemma KeyOf(tenant: Tenant, sid: SourceId, gen: Generation, k: FactKey)
    requires Keyed(tenant, sid, gen) && k in gen
    ensures k == gen[k].Key(tenant)
  {
  }

  lemma Moved(live: Generation, rest: set<FactKey>, k: FactKey)
    requires k in rest && k in live
    ensures k !in live - rest && live - (rest - {k}) == (live - rest)[k := live[k]]
  {
  }

  lemma NothingProjected(source: Source, sid: SourceId)
    ensures ProjectedObjects(source, sid, map[]) == map[] && ProjectedNodes(source, sid, map[]) == map[]
  {
  }

  lemma ObjectIdsGrow(gen: Generation, k: FactKey, r: Record, tenant: Tenant)
    requires k !in gen && k == r.Key(tenant)
    ensures ObjectIds(gen[k := r]) == ObjectIds(gen) + if r.ObjectRecord? then {Projected(k.id)} else {}
  {
    forall n ensures n in ObjectIds(gen[k := r]) <==> n in ObjectIds(gen) || (r.ObjectRecord? && n == Projected(k.id)) {
      if n.Projected? {
        assert ObjectKey(n.id) in gen[k := r] <==> ObjectKey(n.id) in gen || k == ObjectKey(n.id);
      }
    }
  }

  lemma ObjectsGrow(
    source: Source, sid: SourceId, gen: Generation, k: FactKey, r: Record, base: map<NodeId, ObjectNode>)
    requires k !in gen && k == r.Key(source.tenant)
    ensures base + ProjectedObjects(source, sid, gen[k := r]) ==
            if r.ObjectRecord? then (base + ProjectedObjects(source, sid, gen))[Projected(k.id) := ObjectRow(source, sid, r)]
            else base + ProjectedObjects(source, sid, gen)
  {
    hide ObjectIds, ObjectRow, ProjectedObjects;
    ObjectIdsGrow(gen, k, r, source.tenant);
    SyncFrames.ObjectsAre(source, sid, gen);
    SyncFrames.ObjectsAre(source, sid, gen[k := r]);
  }

  lemma AccessIdsGrow(gen: Generation, k: FactKey, r: Record, tenant: Tenant)
    requires k !in gen && k == r.Key(tenant)
    ensures AccessIds(gen[k := r]) ==
            AccessIds(gen) + if r.ObjectRecord? && r.ref.kind in ALLOWED_KINDS then {Projected(k.id)} else {}
  {
    hide ALLOWED_KINDS;
    forall n ensures n in AccessIds(gen[k := r]) <==>
                     n in AccessIds(gen) || (r.ObjectRecord? && r.ref.kind in ALLOWED_KINDS && n == Projected(k.id))
    {
      if n.Projected? {
        assert ObjectKey(n.id) in gen[k := r] <==> ObjectKey(n.id) in gen || k == ObjectKey(n.id);
      }
    }
  }

  lemma NodesGrow(
    source: Source, sid: SourceId, gen: Generation, k: FactKey, r: Record, base: map<NodeId, AccessNode>)
    requires k !in gen && k == r.Key(source.tenant)
    ensures base + ProjectedNodes(source, sid, gen[k := r]) ==
            if r.ObjectRecord? && r.ref.kind in ALLOWED_KINDS
            then (base + ProjectedNodes(source, sid, gen))[Projected(k.id) := AccessRow(source, sid, r)]
            else base + ProjectedNodes(source, sid, gen)
  {
    hide ALLOWED_KINDS, AccessIds, AccessRow, ProjectedNodes;
    AccessIdsGrow(gen, k, r, source.tenant);
    SyncFrames.NodesAre(source, sid, gen);
    SyncFrames.NodesAre(source, sid, gen[k := r]);
  }

  /** The rows of a generation's objects on top of those before. */
  ghost predicate Inserted(
    source: Source, sid: SourceId, done: Generation, objects: map<NodeId, ObjectNode>, nodes: map<NodeId, AccessNode>,
    objects': map<NodeId, ObjectNode>, nodes': map<NodeId, AccessNode>)
  {
    objects' == objects + ProjectedObjects(source, sid, done) && nodes' == nodes + ProjectedNodes(source, sid, done)
  }

  /** What is disjoint from all rows to insert is disjoint from those inserted so far. */
  lemma PartIsDisjoint(
    source: Source, sid: SourceId, live: Generation, done: Generation, objects: map<NodeId, ObjectNode>, nodes: map<NodeId, AccessNode>)
    requires Keyed(source.tenant, sid, live) && forall k :: k in done ==> k in live && done[k] == live[k]
    requires objects.Keys !! ProjectedObjects(source, sid, live).Keys && nodes.Keys !! ProjectedNodes(source, sid, live).Keys
    ensures objects.Keys !! ProjectedObjects(source, sid, done).Keys && nodes.Keys !! ProjectedNodes(source, sid, done).Keys
    ensures forall k :: k in done ==> k == done[k].Key(source.tenant)
  {
    hide ProjectedObjects, ProjectedNodes;
    SyncFrames.ObjectsAre(source, sid, live);
    SyncFrames.ObjectsAre(source, sid, done);
    SyncFrames.NodesAre(source, sid, live);
    SyncFrames.NodesAre(source, sid, done);
  }

  /** The rows inserted so far bear none of the names still to come. */
  lemma InsertedBearsNothingNew(
    source: Source, sid: SourceId, done: Generation, objects: map<NodeId, ObjectNode>, nodes: map<NodeId, AccessNode>,
    objects': map<NodeId, ObjectNode>, nodes': map<NodeId, AccessNode>, r: Record)
    requires Inserted(source, sid, done, objects, nodes, objects', nodes') && r.ObjectRecord?
    requires r.Key(source.tenant) !in done
    requires objects.Keys !! ProjectedObjects(source, sid, done).Keys && nodes.Keys !! ProjectedNodes(source, sid, done).Keys
    requires forall k :: k in done ==> k == done[k].Key(source.tenant)
    ensures var name := r.ref.CanonicalId(source.tenant).Text();
            Bears(objects', nodes', r.ref.kind, name) <==> Bears(objects, nodes, r.ref.kind, name)
  {
    hide CanonicalId.Text, ALLOWED_KINDS;
    var id := r.ref.CanonicalId(source.tenant);
    forall n | n in ProjectedObjects(source, sid, done) ensures ProjectedObjects(source, sid, done)[n].name != id.Text() {
      TextIsInjective(n.id, id);
    }
    forall n | n in ProjectedNodes(source, sid, done) ensures ProjectedNodes(source, sid, done)[n].name != id.Text() {
      TextIsInjective(n.id, id);
    }
    hide ProjectedObjects, ProjectedNodes;
  }

  lemma RewritesNothing(facts: map<Slot, Generation>, slot: Slot)
    requires NoEmptySlots(facts)
    ensures facts == WithFacts(facts, slot, FactsAt(facts, slot))
  {
  }

  lemma UpsertedAgain(tenant: Tenant, gen: Generation, r: Record, facts: map<Slot, Generation>, slot: Slot)
    ensures var after := Upsert(tenant, gen, r);
            after.Success? ==> WithFacts(facts, slot, gen)[slot := after.value] == WithFacts(facts, slot, after.value)
  {
  }

  lemma RewrittenTwice(facts: map<Slot, Generation>, slot: Slot, first: Generation, second: Generation)
    ensures WithFacts(WithFacts(facts, slot, first), slot, second) == WithFacts(facts, slot, second)
  {
  }

  lemma StateWrittenTwice(states: map<SourceId, ConnectorState>, sid: SourceId, first: ConnectorState)
    ensures forall second {:trigger states[sid := second]} :: states[sid := first][sid := second] == states[sid := second]
  {
  }

  lemma SourcesStay(db: Db, sid: SourceId)
    requires sid in db.sources
    ensures Cleared(db, sid).sources == db.sources
  {
  }

  /** Moving the sequence number first makes no difference to what an operation does. */
  lemma SequenceMovesFirst(db: Db, sid: SourceId, m: SyncMessage, now: Time)
    requires sid in db.sources && sid in db.states
    ensures var moved := db.states[sid].(sequence := m.sequence);
            Operate(db.(states := db.states[sid := moved]), sid, moved, m, now) == Operate(db, sid, db.states[sid], m, now)
  {
    var moved := db.states[sid].(sequence := m.sequence);
    hide UpsertAll, Sync.Publish, Without, WithFacts, Clashes, FactsError, Replace, FactsAt;
    StateWrittenTwice(db.states, sid, moved);
    forall live ensures Clashes(db.(states := db.states[sid := moved]), sid, live) <==> Clashes(db, sid, live) {
      SyncFrames.SameClashes(db, db.(states := db.states[sid := moved]), sid, live);
    }
  }

  /** A database session. The methods change its tables in place; `Tables` is their joint value. */
  class Session {
    var sources: map<SourceId, Source>
    var states: map<SourceId, ConnectorState>
    var facts: map<Slot, Generation>
    var receipts: map<ReceiptId, Receipt>
    var accessNodes: map<NodeId, AccessNode>
    var accessEdges: set<AccessEdge>
    var objectNodes: map<NodeId, ObjectNode>
    var objectEdges: set<ObjectEdge>
    var nextRow: nat

    function Tables(): Db
      reads this
    {
      Db(sources, states, facts, receipts, accessNodes, accessEdges, objectNodes, objectEdges, nextRow)
    }

    constructor (db: Db)
      ensures Tables() == db
    {
      sources, states, facts, receipts := db.sources, db.states, db.facts, db.receipts;
      accessNodes, accessEdges := db.accessNodes, db.accessEdges;
      objectNodes, objectEdges, nextRow := db.objectNodes, db.objectEdges, db.nextRow;
    }

    method Rollback(db: Db)
      modifies this
      ensures Tables() == db
    {
      sources, states, facts, receipts := db.sources, db.states, db.facts, db.receipts;
      accessNodes, accessEdges := db.accessNodes, db.accessEdges;
      objectNodes, objectEdges, nextRow := db.objectNodes, db.objectEdges, db.nextRow;
    }

    method UpsertFact(sid: SourceId, generation: string, record: Record) returns (error: Option<SyncError>)
      requires sid in sources
      modifies this`facts
      ensures match Upsert(sources[sid].tenant, old(Tables()).Facts(sid, generation), record)
              case Failure(e) => error == Some(e) && facts == old(facts)
              case Success(gen) => error == None && facts == old(facts)[Slot(sid, generation) := gen]
    {
      var slot := Slot(sid, generation);
      var key := record.Key(sources[sid].tenant);
      var gen := if slot in facts then facts[slot] else map[];
      if key in gen {
        if gen[key].observedAt > record.observedAt {
          return Some(OlderEvidence);
        }
      }
      facts := facts[slot := gen[key := record]];
      return None;
    }

    method UpsertFacts(sid: SourceId, generation: string, records: seq<Record>) returns (error: Option<SyncError>)
      requires sid in sources && NoEmptySlots(facts)
      modifies this`facts
      ensures match UpsertAll(sources[sid].tenant, old(Tables()).Facts(sid, generation), records)
              case Failure(e) => error == Some(e)
              case Success(gen) =>
                && error == None
                && Tables().Facts(sid, generation) == gen
                && facts == WithFacts(old(facts), Slot(sid, generation), gen)
      ensures error.None? <==> SyncVerdicts.NoneSuperseded(sources[sid].tenant, old(Tables()).Facts(sid, generation), records)
    {
      hide Upsert, WithFacts, SyncVerdicts.Superseded;
      ghost var tenant, gen := sources[sid].tenant, old(Tables()).Facts(sid, generation);
      SyncVerdicts.UpsertsFailExactly(tenant, gen, records);
      RewritesNothing(facts, Slot(sid, generation));
      for i := 0 to |records|
        invariant UpsertAll(tenant, gen, records[..i]) == Success(Tables().Facts(sid, generation))
        invariant facts == WithFacts(old(facts), Slot(sid, generation), Tables().Facts(sid, generation))
      {
        assert records[..i + 1][..i] == records[..i];
        ghost var before := Tables().Facts(sid, generation);
        error := UpsertFact(sid, generation, records[i]);
        UpsertedAgain(tenant, before, records[i], old(facts), Slot(sid, generation));
        if error.Some? {
          UpsertAllFailsEarly(tenant, gen, records, i + 1);
          return;
        }
      }
      assert records[..|records|] == records;
      return None;
    }

    /** Deletes the object rows the source owns, one by one. */
    method DeleteObjects(sid: SourceId)
      requires sid in sources
      modifies this`objectNodes
      ensures objectNodes == Cleared(old(Tables()), sid).objectNodes
    {
      var rest := objectNodes.Keys;
      while rest != {}
        invariant rest <= objectNodes.Keys <= old(objectNodes).Keys
        invariant forall n :: n in objectNodes ==> objectNodes[n] == old(objectNodes)[n]
        invariant forall n :: n in old(objectNodes) && n !in rest ==>
                    (n in objectNodes <==> n in Cleared(old(Tables()), sid).objectNodes)
        decreases rest
      {
        var n :| n in rest;
        rest := rest - {n};
        if objectNodes[n].tenant == Some(sources[sid].tenant) && objectNodes[n].owner == Some(sid) {
          objectNodes := objectNodes - {n};
        }
      }
    }

    method DeleteObjectEdges(sid: SourceId)
      requires sid in sources
      modifies this`objectEdges
      ensures objectEdges == Cleared(old(Tables()), sid).objectEdges
    {
      var rest := objectEdges;
      while rest != {}
        invariant rest <= objectEdges <= old(objectEdges)
        invariant forall e :: e in old(objectEdges) && e !in rest ==> (e in objectEdges <==> e.owner != Some(sid))
        decreases rest
      {
        var e :| e in rest;
        rest := rest - {e};
        if e.owner == Some(sid) {
          objectEdges := objectEdges - {e};
        }
      }
    }

    /** Inserts the rows of one object, unless their kind and name are taken. */
    method InsertObject(sid: SourceId, o: Record) returns (violation: bool)
      requires sid in sources && o.ObjectRecord?
      modifies this`objectNodes, this`accessNodes
      ensures violation <==> Bears(old(objectNodes), old(accessNodes), o.ref.kind, o.ref.CanonicalId(sources[sid].tenant).Text())
      ensures var id := Projected(o.ref.CanonicalId(sources[sid].tenant));
              !violation ==>
                && objectNodes == old(objectNodes)[id := ObjectRow(sources[sid], sid, o)]
                && accessNodes == if o.ref.kind in ALLOWED_KINDS then old(accessNodes)[id := AccessRow(sources[sid], sid, o)]
                                  else old(accessNodes)
    {
      hide CanonicalId.Text, ALLOWED_KINDS;
      var id := Projected(o.ref.CanonicalId(sources[sid].tenant));
      if Bears(objectNodes, accessNodes, o.ref.kind, id.id.Text()) {
        return true;
      }
      objectNodes := objectNodes[id := ObjectRow(sources[sid], sid, o)];
      if o.ref.kind in ALLOWED_KINDS {
        accessNodes := accessNodes[id := AccessRow(sources[sid], sid, o)];
      }
      return false;
    }

    /** Inserts the rows of all live objects. It stops at the first whose kind and name are taken, which is so exactly
        if some row that was there before takes one of them. */
    method InsertObjects(sid: SourceId, live: Generation) returns (violation: bool)
      requires sid in sources && Keyed(sources[sid].tenant, sid, live)
      requires objectNodes.Keys !! ProjectedObjects(sources[sid], sid, live).Keys
      requires accessNodes.Keys !! ProjectedNodes(sources[sid], sid, live).Keys
      modifies this`objectNodes, this`accessNodes
      ensures violation <==> SomeTaken(old(objectNodes), old(accessNodes), sources[sid].tenant, live)
      ensures !violation ==> Inserted(sources[sid], sid, live, old(objectNodes), old(accessNodes), objectNodes, accessNodes)
    {
      var source := sources[sid];
      ghost var done: Generation := map[];
      hide ProjectedObjects, ProjectedNodes, ObjectRow, AccessRow, Keyed, Bears, CanonicalId.Text;
      NothingProjected(source, sid);
      var rest := live.Keys;
      while rest != {}
        invariant rest <= live.Keys && done == live - rest
        invariant Inserted(source, sid, done, old(objectNodes), old(accessNodes), objectNodes, accessNodes)
        invariant !SomeTaken(old(objectNodes), old(accessNodes), source.tenant, done)
        decreases rest
      {
        var k :| k in rest;
        KeyOf(source.tenant, sid, live, k);
        Moved(live, rest, k);
        ObjectsGrow(source, sid, done, k, live[k], old(objectNodes));
        NodesGrow(source, sid, done, k, live[k], old(accessNodes));
        if live[k].ObjectRecord? {
          PartIsDisjoint(source, sid, live, done, old(objectNodes), old(accessNodes));
          InsertedBearsNothingNew(source, sid, done, old(objectNodes), old(accessNodes), objectNodes, accessNodes, live[k]);
          violation := InsertObject(sid, live[k]);
          if violation {
            return;
          }
        }
        rest := rest - {k};
        done := done[k := live[k]];
      }
      assert done == live;
      return false;
    }

    method InsertObjectEdges(sid: SourceId, live: Generation)
      requires sid in sources
      modifies this`objectEdges
      ensures objectEdges == old(objectEdges) + ProjectedObjectEdges(sources[sid], sid, live, objectNodes)
    {
      var source := sources[sid];
      var rest := live.Keys;
      while rest != {}
        invariant rest <= live.Keys
        invariant objectEdges == old(objectEdges) + set k | k in live && k !in rest
                    && live[k].RelationshipRecord? && live[k].relation !in TRAVERSABLE
                    && SubjectNode(source, live[k]) in objectNodes && TargetNode(source, live[k]) in objectNodes
                    :: ObjectEdgeOf(source, sid, live[k])
        decreases rest
      {
        var k :| k in rest;
        rest := rest - {k};
        if live[k].ObjectRecord? || live[k].relation in TRAVERSABLE {
          continue;
        }
        if SubjectNode(source, live[k]) in objectNodes && TargetNode(source, live[k]) in objectNodes {
          objectEdges := objectEdges + {ObjectEdgeOf(source, sid, live[k])};
        }
      }
    }

    method InsertAccessEdges(sid: SourceId, manifest: Manifest, live: Generation)
      requires sid in sources
      modifies this`accessEdges
      ensures accessEdges == old(accessEdges) + ProjectedEdges(sources[sid], sid, manifest, live, accessNodes)
    {
      hide Withheld;
      if !manifest.platformRelations || Withheld(live) {
        return;
      }
      var source := sources[sid];
      var rest := live.Keys;
      while rest != {}
        invariant rest <= live.Keys
        invariant accessEdges == old(accessEdges) + set k | k in live && k !in rest
                    && live[k].RelationshipRecord? && live[k].relation in TRAVERSABLE
                    && SubjectNode(source, live[k]) in accessNodes && TargetNode(source, live[k]) in accessNodes
                    :: AccessEdgeOf(source, sid, live[k])
        decreases rest
      {
        var k :| k in rest;
        rest := rest - {k};
        if live[k].ObjectRecord? || live[k].relation !in TRAVERSABLE {
          continue;
        }
        if SubjectNode(source, live[k]) in accessNodes && TargetNode(source, live[k]) in accessNodes {
          accessEdges := accessEdges + {AccessEdgeOf(source, sid, live[k])};
        }
      }
    }

    method ClearRows(sid: SourceId)
      requires sid in sources
      modifies this`accessEdges, this`accessNodes, this`objectNodes, this`objectEdges
      ensures Tables() == Cleared(old(Tables()), sid)
    {
      accessEdges := set e | e in accessEdges && e.sourceId != Some(sid);
      accessNodes := map n | n in accessNodes && accessNodes[n].sourceId != Some(sid) :: accessNodes[n];
      DeleteObjects(sid);
      DeleteObjectEdges(sid);
    }

    /** Deletes the source's rows and inserts those of its live facts, unless one violates a uniqueness constraint. */
    method Project(sid: SourceId, manifest: Manifest) returns (violation: bool)
      requires SyncFrames.Projectable(Tables(), sid)
      modifies this`accessEdges, this`accessNodes, this`objectNodes, this`objectEdges
      ensures violation <==> Clashes(old(Tables()), sid, Tables().Facts(sid, LIVE))
      ensures !violation ==> Tables() == Sync.Project(old(Tables()), sid, manifest)
    {
      SyncFrames.ProjectionNeverCollides(Tables(), sid);
      hide ProjectedObjects, ProjectedNodes, Filled, Keyed, OwnedNodes, OwnedObjects, Cleared, SomeTaken;
      var live := Tables().Facts(sid, LIVE);
      ClearRows(sid);
      SourcesStay(old(Tables()), sid);
      violation := Fill(sid, manifest, live);
    }

    method Fill(sid: SourceId, manifest: Manifest, live: Generation) returns (violation: bool)
      requires sid in sources && Keyed(sources[sid].tenant, sid, live)
      requires objectNodes.Keys !! ProjectedObjects(sources[sid], sid, live).Keys
      requires accessNodes.Keys !! ProjectedNodes(sources[sid], sid, live).Keys
      modifies this`accessEdges, this`accessNodes, this`objectNodes, this`objectEdges
      ensures violation <==> SomeTaken(old(objectNodes), old(accessNodes), sources[sid].tenant, live)
      ensures !violation ==> Tables() == Filled(old(Tables()), sid, manifest, live)
    {
      hide ProjectedObjects, ProjectedNodes, ProjectedObjectEdges, ProjectedEdges, Keyed, SomeTaken;
      violation := InsertObjects(sid, live);
      if !violation {
        InsertObjectEdges(sid, live);
        InsertAccessEdges(sid, manifest, live);
      }
    }

    method Publish(sid: SourceId, manifest: Manifest, now: Time) returns (violation: bool)
      requires SyncFrames.Projectable(Tables(), sid)
      modifies this`sources, this`accessEdges, this`accessNodes, this`objectNodes, this`objectEdges
      ensures violation <==> Clashes(old(Tables()), sid, Tables().Facts(sid, LIVE))
      ensures !violation ==> Tables() == Sync.Publish(old(Tables()), sid, manifest, now)
    {
      hide Keyed, Sync.Project, OwnedNodes, OwnedObjects, Clashes;
      violation := Project(sid, manifest);
      if !violation {
        sources := sources[sid := sources[sid].(lastSyncAt := Some(now))];
      }
    }

    method ValidateFacts(sid: SourceId, manifest: Manifest, records: seq<Record>, now: Time) returns (error: Option<SyncError>)
      requires sid in sources
      ensures error == FactsError(sources, sid, manifest, records, now)
      ensures error.None? <==> SyncVerdicts.AllAdmissible(sources, sid, manifest, records, now)
      ensures forall e :: error == Some(e) <==> exists i: nat :: SyncVerdicts.FirstFault(sources, sid, manifest, records, now, i, e)
    {
      hide SyncVerdicts.AllAdmissible, SyncVerdicts.FirstFault;
      SyncVerdicts.FactsErrorExactly(sources, sid, manifest, records, now);
      for i := 0 to |records|
        invariant FactsError(sources, sid, manifest, records[..i], now).None?
      {
        assert records[..i + 1][..i] == records[..i];
        error := FactError(sources, sid, manifest, records[i], now);
        if error.Some? {
          FactsErrorFailsEarly(sources, sid, manifest, records, now, i + 1);
          return;
        }
      }
      assert records[..|records|] == records;
      return None;
    }

    /** Handles one message. After a refusal the tables may be half-changed: the caller rolls back. */
    method ApplyMessage(sid: SourceId, m: SyncMessage, now: Time) returns (r: Response)
      requires sid in sources && WellFormed(Tables())
      modifies this
      ensures match Apply(old(Tables()), sid, m, now)
              case Accepted(after, ack) => r == Acknowledged(ack, false) && Tables() == after
              case Replayed(ack) => r == Acknowledged(ack, true) && Tables() == old(Tables())
              case Refused(e) => r == Rejected(e)
    {
      hide FactsError, Operate, OwnedNodes, OwnedObjects;
      if !sources[sid].enabled {
        return Rejected(SourceDisabled);
      }
      if m.bytes > MAX_MESSAGE_BYTES {
        return Rejected(MessageTooLarge);
      }
      var rid := ReceiptId(sid, m.sequence);
      if rid in receipts {
        if receipts[rid].digest != m {
          return Rejected(SequenceReused);
        }
        return Acknowledged(receipts[rid].result, true);
      }
      if sid !in states {
        return Rejected(NotRegistered);
      }
      var state := states[sid];
      if m.sequence != state.sequence + 1 {
        return Rejected(SequenceGap);
      }
      states := states[sid := state.(sequence := m.sequence)];
      if m.operation.Delta? && ChangesCapability !in state.manifest.capabilities {
        return Rejected(ChangesUnavailable);
      }
      if !m.operation.Delta? && SnapshotCapability !in state.manifest.capabilities {
        return Rejected(SnapshotUnavailable);
      }
      var invalid := ValidateFacts(sid, state.manifest, m.Facts(), now);
      if invalid.Some? {
        return Rejected(invalid.value);
      }
      if m.snapshotId == LIVE {
        return Rejected(ReservedSnapshot);
      }
      assert ScreenError(old(Tables()), sid, state.manifest, m, now).None?;
      SequenceMovesFirst(old(Tables()), sid, m, now);
      var error := Perform(sid, m, now);
      if error.Some? {
        return Rejected(error.value);
      }
      var ack := Ack(sid, m.sequence, m.operation, states[sid].coverage);
      receipts := receipts[rid := Receipt(m, ack)];
      return Acknowledged(ack, false);
    }

    /** The operation proper, once the sequence number is claimed and the facts are valid. */
    method Perform(sid: SourceId, m: SyncMessage, now: Time) returns (error: Option<SyncError>)
      requires sid in sources && sid in states && WellFormed(Tables())
      requires FactsError(sources, sid, states[sid].manifest, m.Facts(), now).None?
      requires states[sid].sequence == m.sequence
      modifies this`sources, this`states, this`facts, this`accessEdges, this`accessNodes, this`objectNodes, this`objectEdges
      ensures match Operate(old(Tables()), sid, old(states)[sid], m, now)
              case Failure(e) => error == Some(e)
              case Success(after) => error == None && Tables() == after
    {
      hide FactsError, UpsertAll, OwnedNodes, OwnedObjects, Without, Sync.Publish, Clashes;
      var state := states[sid];
      match m.operation {
        case Begin =>
          if state.snapshot.Some? {
            return Some(SnapshotActive);
          }
          if Tables().Facts(sid, m.snapshotId) != map[] {
            return Some(GenerationExists);
          }
          states := states[sid := state.(snapshot := Some(m.snapshotId))];
          return None;
        case Page =>
          assert states[sid := state] == states;
          if state.snapshot != Some(m.snapshotId) {
            return Some(SnapshotMismatch);
          }
          error := UpsertFacts(sid, m.snapshotId, m.Facts());
        case Abort =>
          if state.snapshot != Some(m.snapshotId) {
            return Some(SnapshotMismatch);
          }
          facts := facts - {Slot(sid, m.snapshotId)};
          states := states[sid := state.(snapshot := None)];
          return None;
        case Complete =>
          if state.snapshot != Some(m.snapshotId) {
            return Some(SnapshotMismatch);
          }
          if m.coverage != CompleteCoverage {
            return Some(PartialSnapshot);
          }
          var staged := Tables().Facts(sid, m.snapshotId);
          facts := WithFacts(facts - {Slot(sid, m.snapshotId)}, Slot(sid, LIVE), staged);
          states := states[sid := state.(snapshot := None, coverage := CompleteCoverage)];
          SyncFrames.SameClashes(old(Tables()), Tables(), sid, staged);
          var violation := Publish(sid, state.manifest, now);
          return if violation then Some(UniqueViolation) else None;
        case Delta =>
          assert states[sid := state] == states;
          if state.snapshot.Some? {
            return Some(DeltaDuringSnapshot);
          }
          error := PerformDelta(sid, m, now);
      }
    }

    method PerformDelta(sid: SourceId, m: SyncMessage, now: Time) returns (error: Option<SyncError>)
      requires sid in sources && sid in states && WellFormed(Tables())
      requires FactsError(sources, sid, states[sid].manifest, m.Facts(), now).None?
      modifies this`sources, this`facts, this`accessEdges, this`accessNodes, this`objectNodes, this`objectEdges
      ensures match UpsertAll(old(sources)[sid].tenant, Without(old(Tables()).Facts(sid, LIVE), m.tombstones), m.Facts())
              case Failure(e) => error == Some(e)
              case Success(gen) =>
                if Clashes(old(Tables()), sid, gen) then error == Some(UniqueViolation)
                else
                  && error == None
                  && Tables() == Sync.Publish(old(Tables()).(facts := WithFacts(old(facts), Slot(sid, LIVE), gen)),
                                              sid, states[sid].manifest, now)
    {
      hide UpsertAll, FactsError, Sync.Publish, OwnedNodes, OwnedObjects, Clashes;
      ghost var before, tenant := facts, sources[sid].tenant;
      ghost var live := Tables().Facts(sid, LIVE);
      DeleteTombstones(sid, m.tombstones);
      ghost var kept := Tables().Facts(sid, LIVE);
      assert kept == Without(live, m.tombstones);
      error := UpsertFacts(sid, LIVE, m.Facts());
      if error.Some? {
        return;
      }
      RewrittenTwice(before, Slot(sid, LIVE), kept, Tables().Facts(sid, LIVE));
      UpsertAllIsKeyed(sources, sid, states[sid].manifest, kept, m.Facts(), now);
      SyncFrames.SameClashes(old(Tables()), Tables(), sid, Tables().Facts(sid, LIVE));
      var violation := Publish(sid, states[sid].manifest, now);
      return if violation then Some(UniqueViolation) else None;
    }

    method DeleteTombstones(sid: SourceId, tombstones: seq<FactKey>)
      requires NoEmptySlots(facts)
      modifies this`facts
      ensures facts == WithFacts(old(facts), Slot(sid, LIVE), Without(old(Tables()).Facts(sid, LIVE), tombstones))
      ensures NoEmptySlots(facts)
    {
      ghost var live := Tables().Facts(sid, LIVE);
      assert Without(live, tombstones[..0]) == live;
      for i := 0 to |tombstones|
        invariant facts == WithFacts(old(facts), Slot(sid, LIVE), Without(live, tombstones[..i]))
      {
        assert Without(live, tombstones[..i]) - {tombstones[i]} == Without(live, tombstones[..i + 1]);
        facts := WithFacts(facts, Slot(sid, LIVE), Tables().Facts(sid, LIVE) - {tombstones[i]});
      }
      assert tombstones[..|tombstones|] == tombstones;
    }

    /** The endpoint: commits what an accepted message did and rolls everything else back. */
    method SyncConnector(sid: SourceId, authentic: bool, m: SyncMessage, now: Time) returns (r: Response)
      requires WellFormed(Tables())
      modifies this
      ensures sid !in old(sources) || !authentic || !old(sources)[sid].enabled ==>
                r == Rejected(NotAuthorized) && Tables() == old(Tables())
      ensures sid in old(sources) && authentic && old(sources)[sid].enabled ==>
                && Tables() == Commit(old(Tables()), sid, m, now)
                && match Apply(old(Tables()), sid, m, now)
                   case Accepted(_, ack) => r == Acknowledged(ack, false)
                   case Replayed(ack) => r == Acknowledged(ack, true)
                   case Refused(e) => r == Rejected(e)
    {
      if sid !in sources || !authentic || !sources[sid].enabled {
        return Rejected(NotAuthorized);
      }
      var before := Tables();
      r := ApplyMessage(sid, m, now);
      if r.Rejected? {
        Rollback(before);
      }
    }
  }

  /** What the endpoint returns. */
  datatype Response = Acknowledged(ack: Ack, replayed: bool) | Rejected(error: SyncError)

  lemma {:induction false} UpsertAllFailsEarly(tenant: Tenant, gen: Generation, records: seq<Record>, i: nat)
    requires i <= |records| && UpsertAll(tenant, gen, records[..i]).Failure?
    ensures UpsertAll(tenant, gen, records) == UpsertAll(tenant, gen, records[..i])
  {
    if i < |records| {
      assert records[..|records| - 1][..i] == records[..i];
      UpsertAllFailsEarly(tenant, gen, records[..|records| - 1], i);
    } else {
      assert records[..i] == records;
    }
  }
}
