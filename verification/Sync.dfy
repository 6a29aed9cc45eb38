/** The connector protocol as a function of one database state: what each message does,
    when it is refused, and which graph rows a source's live facts give rise to.

    `Apply` is the meaning of one message handled as one transaction: a refusal carries no new
    state because every caller rolls back. */
module Sync {
  import opened Wrappers
  import opened Contracts
  import opened Store

  datatype SyncError =
    | NotAuthorized | SourceDisabled | MessageTooLarge | SequenceReused | NotRegistered | SequenceGap | ConcurrentSync
    | ChangesUnavailable | SnapshotUnavailable
    | FutureEvidence | ForeignObject | RelationNotPermitted | MalformedActions
    | OutsideNamespace | ForeignReferenceNotPermitted
    | ReservedSnapshot | SnapshotActive | GenerationExists | SnapshotMismatch | PartialSnapshot
    | DeltaDuringSnapshot | OlderEvidence | UniqueViolation

  datatype Outcome = Accepted(db: Db, ack: Ack) | Replayed(ack: Ack) | Refused(error: SyncError)

  // ------------------------------------------------------------------ Validation of facts

  /** A reference into the sender's own source: of a declared kind and inside its namespace. */
  predicate OwnReferencePermitted(source: Source, manifest: Manifest, ref: Reference) {
    ref.kind in manifest.objectKinds && source.allowedNamespace <= ref.nativeId
  }

  /** A reference into another source: same tenant, enabled, and approved for this relation. */
  predicate ForeignReferencePermitted(
    sources: map<SourceId, Source>, source: Source, manifest: Manifest, relation: string, ref: Reference)
  {
    && ref.sourceId in sources
    && sources[ref.sourceId].tenant == source.tenant
    && sources[ref.sourceId].enabled
    && ref.sourceId in manifest.foreignReferences
    && relation in manifest.foreignReferences[ref.sourceId]
  }

  function ReferenceError(
    sources: map<SourceId, Source>, sid: SourceId, manifest: Manifest, relation: string, ref: Reference): Option<SyncError>
    requires sid in sources
  {
    if ref.sourceId == sid then
      if OwnReferencePermitted(sources[sid], manifest, ref) then None else Some(OutsideNamespace)
    else
      if ForeignReferencePermitted(sources, sources[sid], manifest, relation, ref) then None
      else Some(ForeignReferenceNotPermitted)
  }

  function FactError(
    sources: map<SourceId, Source>, sid: SourceId, manifest: Manifest, record: Record, now: Time): Option<SyncError>
    requires sid in sources
  {
    if record.observedAt > now then Some(FutureEvidence)
    else match record
      case ObjectRecord(ref, _, _, _) =>
        if ref.sourceId != sid then Some(ForeignObject) else ReferenceError(sources, sid, manifest, "", ref)
      case RelationshipRecord(subject, relation, target, _, attributes) =>
        if relation !in manifest.relations then Some(RelationNotPermitted)
        else if relation == "role_allows" && (!attributes.actionsListed || "" in attributes.actions) then
          Some(MalformedActions)
        else
          var e := ReferenceError(sources, sid, manifest, relation, subject);
          if e.Some? then e else ReferenceError(sources, sid, manifest, relation, target)
  }

  function FactsError(
    sources: map<SourceId, Source>, sid: SourceId, manifest: Manifest, records: seq<Record>, now: Time): Option<SyncError>
    requires sid in sources
  {
    if records == [] then None
    else
      var e := FactsError(sources, sid, manifest, records[..|records| - 1], now);
      if e.Some? then e else FactError(sources, sid, manifest, records[|records| - 1], now)
  }

  // ------------------------------------------------------------------ Upserts

  /** Newer evidence is never replaced by older evidence. */
  function Upsert(tenant: Tenant, gen: Generation, record: Record): Result<Generation, SyncError> {
    var key := record.Key(tenant);
    if key in gen && gen[key].observedAt > record.observedAt then Failure(OlderEvidence)
    else Success(gen[key := record])
  }

  function UpsertAll(tenant: Tenant, gen: Generation, records: seq<Record>): Result<Generation, SyncError> {
    if records == [] then Success(gen)
    else
      var front :- UpsertAll(tenant, gen, records[..|records| - 1]);
      Upsert(tenant, front, records[|records| - 1])
  }

  function Without(gen: Generation, keys: seq<FactKey>): Generation {
    map k | k in gen && k !in keys :: gen[k]
  }

  // ------------------------------------------------------------------ Projection

  function ObjectRow(source: Source, sid: SourceId, o: Record): ObjectNode
    requires o.ObjectRecord?
  {
    ObjectNode(o.ref.kind, o.ref.CanonicalId(source.tenant).Text(), Some(source.tenant), Some(sid),
               o.ref.nativeId, o.displayName, o.observedAt, o.attributes)
  }

  function AccessRow(source: Source, sid: SourceId, o: Record): AccessNode
    requires o.ObjectRecord?
  {
    AccessNode(o.ref.kind, o.ref.CanonicalId(source.tenant).Text(), Some(source.tenant), Some(o.ref.nativeId),
               Some(sid), Some(o.observedAt), o.attributes)
  }

  /** The rows of the objects a generation asserts. */
  function ObjectIds(live: Generation): set<NodeId> {
    set k | k in live && k.ObjectKey? && live[k].ObjectRecord? :: Projected(k.id)
  }

  /** The rows of those objects that can take part in authority. */
  function AccessIds(live: Generation): set<NodeId> {
    set k | k in live && k.ObjectKey? && live[k].ObjectRecord? && live[k].ref.kind in ALLOWED_KINDS :: Projected(k.id)
  }

  function ProjectedObjects(source: Source, sid: SourceId, live: Generation): map<NodeId, ObjectNode> {
    map n | n in ObjectIds(live) :: ObjectRow(source, sid, live[ObjectKey(n.id)])
  }

  function ProjectedNodes(source: Source, sid: SourceId, live: Generation): map<NodeId, AccessNode> {
    map n | n in AccessIds(live) :: AccessRow(source, sid, live[ObjectKey(n.id)])
  }

  function SubjectNode(source: Source, r: Record): NodeId
    requires r.RelationshipRecord?
  {
    Projected(r.subject.CanonicalId(source.tenant))
  }

  function TargetNode(source: Source, r: Record): NodeId
    requires r.RelationshipRecord?
  {
    Projected(r.target.CanonicalId(source.tenant))
  }

  function ObjectEdgeOf(source: Source, sid: SourceId, r: Record): ObjectEdge
    requires r.RelationshipRecord?
  {
    ObjectEdge(SubjectNode(source, r), r.relation, TargetNode(source, r), Some(sid), r.attributes)
  }

  function AccessEdgeOf(source: Source, sid: SourceId, r: Record): AccessEdge
    requires r.RelationshipRecord?
  {
    AccessEdge(SubjectNode(source, r), r.relation, TargetNode(source, r),
               Some(source.tenant), Some(sid), Some(r.observedAt), r.attributes)
  }

  /** Relationships that do not transfer authority, between objects that exist. */
  function ProjectedObjectEdges(
    source: Source, sid: SourceId, live: Generation, objects: map<NodeId, ObjectNode>): set<ObjectEdge>
  {
    set k | k in live && live[k].RelationshipRecord? && live[k].relation !in TRAVERSABLE
         && SubjectNode(source, live[k]) in objects && TargetNode(source, live[k]) in objects
      :: ObjectEdgeOf(source, sid, live[k])
  }

  /** Some live relationship denies, conditions or cannot express an allow. */
  predicate Withheld(live: Generation) {
    exists k :: k in live && live[k].RelationshipRecord? && live[k].attributes.Withholds()
  }

  /** Relationships that transfer authority, between nodes that exist. A single withheld
      relationship refuses them all, and so does a manifest without platform semantics. */
  function ProjectedEdges(
    source: Source, sid: SourceId, manifest: Manifest, live: Generation, nodes: map<NodeId, AccessNode>): set<AccessEdge>
  {
    if !manifest.platformRelations || Withheld(live) then {}
    else
      set k | k in live && live[k].RelationshipRecord? && live[k].relation in TRAVERSABLE
           && SubjectNode(source, live[k]) in nodes && TargetNode(source, live[k]) in nodes
        :: AccessEdgeOf(source, sid, live[k])
  }

  /** Removes every graph row the source owns. */
  function Cleared(db: Db, sid: SourceId): Db
    requires sid in db.sources
  {
    db.(accessEdges := (set e | e in db.accessEdges && e.sourceId != Some(sid)),
        accessNodes := map n | n in db.accessNodes && db.accessNodes[n].sourceId != Some(sid) :: db.accessNodes[n],
        objectNodes := map n | n in db.objectNodes && !(db.objectNodes[n].tenant == Some(db.sources[sid].tenant)
                                                        && db.objectNodes[n].owner == Some(sid)) :: db.objectNodes[n],
        objectEdges := set e | e in db.objectEdges && e.owner != Some(sid))
  }

  /** Some row bears this kind and name already: an object, or an access node if the kind takes part in authority. */
  predicate Bears(objects: map<NodeId, ObjectNode>, nodes: map<NodeId, AccessNode>, kind: string, name: string) {
    || (exists n :: n in objects && objects[n].kind == kind && objects[n].name == name)
    || (kind in ALLOWED_KINDS && exists n :: n in nodes && nodes[n].kind == kind && nodes[n].name == name)
  }

  /** Some object's kind and name are taken among these rows. */
  predicate SomeTaken(objects: map<NodeId, ObjectNode>, nodes: map<NodeId, AccessNode>, tenant: Tenant, live: Generation) {
    exists k :: k in live && live[k].ObjectRecord? && Bears(objects, nodes, live[k].ref.kind, live[k].ref.CanonicalId(tenant).Text())
  }

  /** Among the rows that are not the source's own, one bears the kind and canonical name of an object the source
      asserts, so inserting that object violates a uniqueness constraint. */
  predicate Clashes(db: Db, sid: SourceId, live: Generation)
    requires sid in db.sources
  {
    SomeTaken(Cleared(db, sid).objectNodes, Cleared(db, sid).accessNodes, db.sources[sid].tenant, live)
  }

  /** Replaces the source's graph rows by those its live facts derive. */
  function Project(db: Db, sid: SourceId, manifest: Manifest): Db
    requires sid in db.sources
  {
    Filled(Cleared(db, sid), sid, manifest, db.Facts(sid, LIVE))
  }

  /** Adds the rows that a generation derives. */
  function Filled(base: Db, sid: SourceId, manifest: Manifest, live: Generation): Db
    requires sid in base.sources
  {
    var source := base.sources[sid];
    var nodes := base.accessNodes + ProjectedNodes(source, sid, live);
    var objects := base.objectNodes + ProjectedObjects(source, sid, live);
    base.(accessNodes := nodes,
          objectNodes := objects,
          objectEdges := base.objectEdges + ProjectedObjectEdges(source, sid, live, objects),
          accessEdges := base.accessEdges + ProjectedEdges(source, sid, manifest, live, nodes))
  }

  /** Projection followed by the time stamp that certifies it. */
  function Publish(db: Db, sid: SourceId, manifest: Manifest, now: Time): (r: Db)
    requires sid in db.sources
    ensures r.facts == db.facts && r.states == db.states && r.receipts == db.receipts && r.nextRow == db.nextRow
    ensures r.sources == db.sources[sid := db.sources[sid].(lastSyncAt := Some(now))]
  {
    var p := Project(db, sid, manifest);
    p.(sources := p.sources[sid := p.sources[sid].(lastSyncAt := Some(now))])
  }

  // ------------------------------------------------------------------ Messages

  /** New facts and state, published. */
  function Replace(db: Db, sid: SourceId, state: ConnectorState, facts: map<Slot, Generation>, now: Time): (r: Db)
    requires sid in db.sources
    ensures r.states == db.states[sid := state] && r.receipts == db.receipts
  {
    Publish(db.(states := db.states[sid := state], facts := facts), sid, state.manifest, now)
  }

  /** The effect of an operation on the database, before its receipt is written.
      `state` is the source's state as read before the sequence moved. */
  function Operate(db: Db, sid: SourceId, state: ConnectorState, m: SyncMessage, now: Time): (r: Result<Db, SyncError>)
    requires sid in db.sources
    ensures r.Success? ==> r.value.states.Keys == db.states.Keys + {sid} && r.value.receipts == db.receipts
  {
    var tenant, next := db.sources[sid].tenant, state.(sequence := m.sequence);
    var staged := Slot(sid, m.snapshotId);
    match m.operation
    case Begin =>
      if state.snapshot.Some? then Failure(SnapshotActive)
      else if db.Facts(sid, m.snapshotId) != map[] then Failure(GenerationExists)
      else Success(db.(states := db.states[sid := next.(snapshot := Some(m.snapshotId))]))
    case Page =>
      if state.snapshot != Some(m.snapshotId) then Failure(SnapshotMismatch)
      else
        var gen :- UpsertAll(tenant, db.Facts(sid, m.snapshotId), m.Facts());
        Success(db.(states := db.states[sid := next], facts := WithFacts(db.facts, staged, gen)))
    case Abort =>
      if state.snapshot != Some(m.snapshotId) then Failure(SnapshotMismatch)
      else Success(db.(states := db.states[sid := next.(snapshot := None)], facts := db.facts - {staged}))
    case Complete =>
      if state.snapshot != Some(m.snapshotId) then Failure(SnapshotMismatch)
      else if m.coverage != CompleteCoverage then Failure(PartialSnapshot)
      else
        var renamed := WithFacts(db.facts - {staged}, Slot(sid, LIVE), db.Facts(sid, m.snapshotId));
        if Clashes(db, sid, db.Facts(sid, m.snapshotId)) then Failure(UniqueViolation)
        else Success(Replace(db, sid, next.(snapshot := None, coverage := CompleteCoverage), renamed, now))
    case Delta =>
      if state.snapshot.Some? then Failure(DeltaDuringSnapshot)
      else
        var gen :- UpsertAll(tenant, Without(db.Facts(sid, LIVE), m.tombstones), m.Facts());
        if Clashes(db, sid, gen) then Failure(UniqueViolation)
        else Success(Replace(db, sid, next, WithFacts(db.facts, Slot(sid, LIVE), gen), now))
  }

  /** The checks between claiming the sequence number and acting on the operation. */
  function ScreenError(db: Db, sid: SourceId, manifest: Manifest, m: SyncMessage, now: Time): Option<SyncError>
    requires sid in db.sources
  {
    if m.operation.Delta? && ChangesCapability !in manifest.capabilities then Some(ChangesUnavailable)
    else if !m.operation.Delta? && SnapshotCapability !in manifest.capabilities then Some(SnapshotUnavailable)
    else
      var e := FactsError(db.sources, sid, manifest, m.Facts(), now);
      if e.Some? then e
      else if m.snapshotId == LIVE then Some(ReservedSnapshot)
      else None
  }

  function Apply(db: Db, sid: SourceId, m: SyncMessage, now: Time): Outcome
    requires sid in db.sources
  {
    var rid := ReceiptId(sid, m.sequence);
    if !db.sources[sid].enabled then Refused(SourceDisabled)
    else if m.bytes > MAX_MESSAGE_BYTES then Refused(MessageTooLarge)
    else if rid in db.receipts then
      if db.receipts[rid].digest != m then Refused(SequenceReused) else Replayed(db.receipts[rid].result)
    else if sid !in db.states then Refused(NotRegistered)
    else
      var state := db.states[sid];
      if m.sequence != state.sequence + 1 then Refused(SequenceGap)
      else
        var e := ScreenError(db, sid, state.manifest, m, now);
        if e.Some? then Refused(e.value)
        else
          match Operate(db, sid, state, m, now)
          case Failure(error) => Refused(error)
          case Success(after) =>
            var ack := Ack(sid, m.sequence, m.operation, after.states[sid].coverage);
            Accepted(after.(receipts := after.receipts[rid := Receipt(m, ack)]), ack)
  }

  /** The database a caller commits: the new one, or the old one after a rollback. */
  function Commit(db: Db, sid: SourceId, m: SyncMessage, now: Time): Db
    requires sid in db.sources
  {
    match Apply(db, sid, m, now)
    case Accepted(after, _) => after
    case _ => db
  }

  /** Administrative registration of a source's manifest. Foreign sources must exist in its tenant. */
  function RegisterManifest(db: Db, sid: SourceId, manifest: Manifest): Option<Db>
    requires sid in db.sources
  {
    if sid in db.states then None
    else if exists f :: f in manifest.foreignReferences
                        && (f !in db.sources || db.sources[f].tenant != db.sources[sid].tenant) then None
    else Some(db.(states := db.states[sid := ConnectorState(manifest, 0, None, PartialCoverage)]))
  }

  lemma {:induction false} UpsertAllIsKeyed(
    sources: map<SourceId, Source>, sid: SourceId, manifest: Manifest, gen: Generation, records: seq<Record>, now: Time)
    requires sid in sources && Keyed(sources[sid].tenant, sid, gen)
    requires FactsError(sources, sid, manifest, records, now).None?
    ensures var r := UpsertAll(sources[sid].tenant, gen, records);
            r.Success? ==> Keyed(sources[sid].tenant, sid, r.value)
  {
    if records != [] {
      hide ReferenceError;
      UpsertAllIsKeyed(sources, sid, manifest, gen, records[..|records| - 1], now);
    }
  }

  lemma {:induction false} FactsErrorFailsEarly(
    sources: map<SourceId, Source>, sid: SourceId, manifest: Manifest, records: seq<Record>, now: Time, i: nat)
    requires sid in sources && i <= |records| && FactsError(sources, sid, manifest, records[..i], now).Some?
    ensures FactsError(sources, sid, manifest, records, now) == FactsError(sources, sid, manifest, records[..i], now)
  {
    if i < |records| {
      assert records[..|records| - 1][..i] == records[..i];
      FactsErrorFailsEarly(sources, sid, manifest, records[..|records| - 1], now, i);
    } else {
      assert records[..i] == records;
    }
  }
}
