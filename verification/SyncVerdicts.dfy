/** Exactly which messages are accepted, record by record and in terms of the tables. */
module SyncVerdicts {
  import opened Wrappers
  import opened Contracts
  import opened Store
  import opened Sync
  import SyncHistory

  // ------------------------------------------------------------------ Records

  /** A reference is the sender's own, of a kind it declared and inside its namespace; or it points into another source
      of the tenant that is switched on and that the manifest approves for this relation. */
  ghost predicate ReferenceAdmissible(
    sources: map<SourceId, Source>, sid: SourceId, manifest: Manifest, relation: string, ref: Reference)
    requires sid in sources
  {
    if ref.sourceId == sid then ref.kind in manifest.objectKinds && sources[sid].allowedNamespace <= ref.nativeId
    else
      && ref.sourceId in sources && sources[ref.sourceId].tenant == sources[sid].tenant && sources[ref.sourceId].enabled == true
      && ref.sourceId in manifest.foreignReferences && relation in manifest.foreignReferences[ref.sourceId]
  }

  /** The actions of an edge that allows some are a list of non-empty texts. */
  ghost predicate ActionsAdmissible(relation: string, attributes: Attributes) {
    relation == "role_allows" ==> attributes.actionsListed && forall a :: a in attributes.actions ==> |a| > 0
  }

  /** A record the sender may state: not of the future; an object of its own; or a relationship the manifest declares,
      both of whose ends are admissible. */
  ghost predicate Admissible(sources: map<SourceId, Source>, sid: SourceId, manifest: Manifest, r: Record, now: Time)
    requires sid in sources
  {
    && r.observedAt <= now
    && match r
       case ObjectRecord(ref, _, _, _) =>
         ref.sourceId == sid && ref.kind in manifest.objectKinds && sources[sid].allowedNamespace <= ref.nativeId
       case RelationshipRecord(subject, relation, target, _, attributes) =>
         && relation in manifest.relations && ActionsAdmissible(relation, attributes)
         && ReferenceAdmissible(sources, sid, manifest, relation, subject)
         && ReferenceAdmissible(sources, sid, manifest, relation, target)
  }

  /** The first reference of the record that is not admissible. */
  ghost predicate FirstBadReference(sources: map<SourceId, Source>, sid: SourceId, manifest: Manifest, r: Record, ref: Reference)
    requires sid in sources
  {
    match r
    case ObjectRecord(own, _, _, _) => ref == own && !ReferenceAdmissible(sources, sid, manifest, "", ref)
    case RelationshipRecord(subject, relation, target, _, _) =>
      && !ReferenceAdmissible(sources, sid, manifest, relation, ref)
      && (ref == subject || (ref == target && ReferenceAdmissible(sources, sid, manifest, relation, subject)))
  }

  /** The fault that a record is refused for, where an earlier one hides a later one. */
  ghost predicate IsFault(sources: map<SourceId, Source>, sid: SourceId, manifest: Manifest, r: Record, now: Time, e: SyncError)
    requires sid in sources
  {
    if r.observedAt > now then e == FutureEvidence
    else if r.ObjectRecord? && r.ref.sourceId != sid then e == ForeignObject
    else if r.RelationshipRecord? && r.relation !in manifest.relations then e == RelationNotPermitted
    else if r.RelationshipRecord? && !ActionsAdmissible(r.relation, r.attributes) then e == MalformedActions
    else
      exists ref :: FirstBadReference(sources, sid, manifest, r, ref) &&
                    e == if ref.sourceId == sid then OutsideNamespace else ForeignReferenceNotPermitted
  }

  lemma ReferenceErrorExactly(
    sources: map<SourceId, Source>, sid: SourceId, manifest: Manifest, relation: string, ref: Reference)
    requires sid in sources
    ensures ReferenceError(sources, sid, manifest, relation, ref) ==
            if ReferenceAdmissible(sources, sid, manifest, relation, ref) then None
            else Some(if ref.sourceId == sid then OutsideNamespace else ForeignReferenceNotPermitted)
  {
  }

  /** One record passes exactly if it is admissible, and otherwise fails for its first fault. */
  lemma FactErrorExactly(sources: map<SourceId, Source>, sid: SourceId, manifest: Manifest, r: Record, now: Time)
    requires sid in sources
    ensures FactError(sources, sid, manifest, r, now).None? <==> Admissible(sources, sid, manifest, r, now)
    ensures forall e :: FactError(sources, sid, manifest, r, now) == Some(e) <==>
                        !Admissible(sources, sid, manifest, r, now) && IsFault(sources, sid, manifest, r, now, e)
  {
    hide ReferenceAdmissible, ReferenceError;
    match r {
      case ObjectRecord(ref, _, _, _) =>
        ReferenceErrorExactly(sources, sid, manifest, "", ref);
        OwnReference(sources, sid, manifest, "", ref);
        if !ReferenceAdmissible(sources, sid, manifest, "", ref) {
          assert FirstBadReference(sources, sid, manifest, r, ref);
        }
      case RelationshipRecord(subject, relation, target, _, _) =>
        ReferenceErrorExactly(sources, sid, manifest, relation, subject);
        ReferenceErrorExactly(sources, sid, manifest, relation, target);
        if !ReferenceAdmissible(sources, sid, manifest, relation, subject) {
          assert FirstBadReference(sources, sid, manifest, r, subject);
        } else if !ReferenceAdmissible(sources, sid, manifest, relation, target) {
          assert FirstBadReference(sources, sid, manifest, r, target);
        }
    }
  }

  lemma OwnReference(sources: map<SourceId, Source>, sid: SourceId, manifest: Manifest, relation: string, ref: Reference)
    requires sid in sources
    ensures ref.sourceId == sid ==>
              (ReferenceAdmissible(sources, sid, manifest, relation, ref) <==>
               ref.kind in manifest.objectKinds && sources[sid].allowedNamespace <= ref.nativeId)
  {
  }

  ghost predicate AllAdmissible(sources: map<SourceId, Source>, sid: SourceId, manifest: Manifest, records: seq<Record>, now: Time)
    requires sid in sources
  {
    forall r :: r in records ==> Admissible(sources, sid, manifest, r, now)
  }

  /** The record at `i` is the first that is not admissible, and this is its fault. */
  ghost predicate FirstFault(
    sources: map<SourceId, Source>, sid: SourceId, manifest: Manifest, records: seq<Record>, now: Time, i: nat, e: SyncError)
    requires sid in sources
  {
    && i < |records| && AllAdmissible(sources, sid, manifest, records[..i], now)
    && !Admissible(sources, sid, manifest, records[i], now) && IsFault(sources, sid, manifest, records[i], now, e)
  }

  lemma FirstFaultIsFirst(
    sources: map<SourceId, Source>, sid: SourceId, manifest: Manifest, records: seq<Record>, now: Time, i: nat, e: SyncError, j: nat, f: SyncError)
    requires sid in sources
    requires FirstFault(sources, sid, manifest, records, now, i, e) && FirstFault(sources, sid, manifest, records, now, j, f)
    ensures j <= i
  {
    hide Admissible, IsFault;
    assert forall k: nat :: k < j ==> records[k] in records[..j];
  }

  lemma FirstFaultIsUnique(
    sources: map<SourceId, Source>, sid: SourceId, manifest: Manifest, records: seq<Record>, now: Time, i: nat, e: SyncError, j: nat, f: SyncError)
    requires sid in sources
    requires FirstFault(sources, sid, manifest, records, now, i, e) && FirstFault(sources, sid, manifest, records, now, j, f)
    ensures i == j && e == f
  {
    hide Admissible, IsFault, FactError;
    FirstFaultIsFirst(sources, sid, manifest, records, now, i, e, j, f);
    FirstFaultIsFirst(sources, sid, manifest, records, now, j, f, i, e);
    FactErrorExactly(sources, sid, manifest, records[i], now);
    assert FactError(sources, sid, manifest, records[i], now) == Some(e);
  }

  /** The records of a message pass exactly if each is admissible; otherwise the first that is not decides the refusal. */
  lemma FactsErrorExactly(
    sources: map<SourceId, Source>, sid: SourceId, manifest: Manifest, records: seq<Record>, now: Time)
    requires sid in sources
    ensures FactsError(sources, sid, manifest, records, now).None? <==> AllAdmissible(sources, sid, manifest, records, now)
    ensures forall e :: FactsError(sources, sid, manifest, records, now) == Some(e) <==>
                        exists i: nat :: FirstFault(sources, sid, manifest, records, now, i, e)
  {
    FirstFaultExists(sources, sid, manifest, records, now);
    forall e, i: nat | FirstFault(sources, sid, manifest, records, now, i, e)
      ensures FactsError(sources, sid, manifest, records, now) == Some(e)
    {
      hide Admissible, IsFault, FactError, FactsError;
      assert records[i] in records;
      var f := FactsError(sources, sid, manifest, records, now).value;
      var j: nat :| FirstFault(sources, sid, manifest, records, now, j, f);
      FirstFaultIsUnique(sources, sid, manifest, records, now, i, e, j, f);
    }
  }

  lemma {:induction false} FirstFaultExists(
    sources: map<SourceId, Source>, sid: SourceId, manifest: Manifest, records: seq<Record>, now: Time)
    requires sid in sources
    ensures FactsError(sources, sid, manifest, records, now).None? <==> AllAdmissible(sources, sid, manifest, records, now)
    ensures forall e :: FactsError(sources, sid, manifest, records, now) == Some(e) ==>
                        exists i: nat :: FirstFault(sources, sid, manifest, records, now, i, e)
  {
    hide Admissible, IsFault, FactError;
    if records != [] {
      var front, last := records[..|records| - 1], records[|records| - 1];
      assert records == front + [last];
      FirstFaultExists(sources, sid, manifest, front, now);
      FactErrorExactly(sources, sid, manifest, last, now);
      if FactsError(sources, sid, manifest, front, now).Some? {
        var e := FactsError(sources, sid, manifest, front, now).value;
        var i: nat :| FirstFault(sources, sid, manifest, front, now, i, e);
        assert records[..i] == front[..i];
        assert FirstFault(sources, sid, manifest, records, now, i, e);
      } else if FactError(sources, sid, manifest, last, now).Some? {
        var e := FactError(sources, sid, manifest, last, now).value;
        assert FirstFault(sources, sid, manifest, records, now, |front|, e);
      }
    }
  }

  // ------------------------------------------------------------------ The age of evidence

  /** The record at `i` is older than one with its key that the generation holds or that comes before it. */
  ghost predicate Superseded(tenant: Tenant, gen: Generation, records: seq<Record>, i: nat) {
    && i < |records|
    && var k := records[i].Key(tenant);
       || (k in gen && gen[k].observedAt > records[i].observedAt)
       || exists j :: 0 <= j < i && records[j].Key(tenant) == k && records[j].observedAt > records[i].observedAt
  }

  /** After writes that succeed, each key holds its latest record. */
  ghost predicate HoldsLatest(tenant: Tenant, gen: Generation, records: seq<Record>, after: Generation) {
    && (forall k :: k in gen ==> k in after && gen[k].observedAt <= after[k].observedAt)
    && (forall j :: 0 <= j < |records| ==>
          records[j].Key(tenant) in after && records[j].observedAt <= after[records[j].Key(tenant)].observedAt)
    && (forall k :: k in after ==> (k in gen && after[k] == gen[k]) || exists j :: 0 <= j < |records| && records[j].Key(tenant) == k && records[j] == after[k])
  }

  lemma LatestSnoc(tenant: Tenant, gen: Generation, front: seq<Record>, last: Record, before: Generation)
    requires HoldsLatest(tenant, gen, front, before)
    requires last.Key(tenant) in before ==> before[last.Key(tenant)].observedAt <= last.observedAt
    ensures HoldsLatest(tenant, gen, front + [last], before[last.Key(tenant) := last])
  {
    var longer, after := front + [last], before[last.Key(tenant) := last];
    assert longer[|front|] == last && forall j :: 0 <= j < |front| ==> longer[j] == front[j];
    forall k | k in after
      ensures (k in gen && after[k] == gen[k]) || exists j :: 0 <= j < |longer| && longer[j].Key(tenant) == k && longer[j] == after[k]
    {
      if k == last.Key(tenant) {
        assert longer[|front|] == after[k];
      } else if j :| 0 <= j < |front| && front[j].Key(tenant) == k && front[j] == before[k] {
        assert longer[j] == after[k];
      }
    }
  }

  lemma SupersededSnoc(tenant: Tenant, gen: Generation, front: seq<Record>, last: Record, i: nat)
    requires i < |front|
    ensures Superseded(tenant, gen, front + [last], i) <==> Superseded(tenant, gen, front, i)
  {
    var longer := front + [last];
    assert forall j :: 0 <= j < |front| ==> longer[j] == front[j];
  }

  lemma LastSuperseded(tenant: Tenant, gen: Generation, front: seq<Record>, last: Record, before: Generation)
    requires HoldsLatest(tenant, gen, front, before)
    ensures Superseded(tenant, gen, front + [last], |front|) <==>
            last.Key(tenant) in before && before[last.Key(tenant)].observedAt > last.observedAt
  {
    var longer := front + [last];
    assert longer[|front|] == last && forall j :: 0 <= j < |front| ==> longer[j] == front[j];
    var k := last.Key(tenant);
    if k in before && before[k].observedAt > last.observedAt && !(k in gen && before[k] == gen[k]) {
      var j :| 0 <= j < |front| && front[j].Key(tenant) == k && front[j] == before[k];
      assert longer[j].Key(tenant) == k;
    }
  }

  /** Writing a batch of records is refused, for older evidence, exactly if some record is older than one with its key
      that was there or was written before it. */
  lemma {:induction false} UpsertsFailExactly(tenant: Tenant, gen: Generation, records: seq<Record>)
    ensures UpsertAll(tenant, gen, records).Failure? <==> exists i :: Superseded(tenant, gen, records, i)
    ensures UpsertAll(tenant, gen, records).Failure? ==> UpsertAll(tenant, gen, records).error == OlderEvidence
    ensures UpsertAll(tenant, gen, records).Success? ==> HoldsLatest(tenant, gen, records, UpsertAll(tenant, gen, records).value)
  {
    if records != [] {
      var front, last := records[..|records| - 1], records[|records| - 1];
      assert records == front + [last];
      UpsertsFailExactly(tenant, gen, front);
      hide Superseded, HoldsLatest;
      forall i: nat | i < |front| ensures Superseded(tenant, gen, records, i) <==> Superseded(tenant, gen, front, i) {
        SupersededSnoc(tenant, gen, front, last, i);
      }
      SupersededWithin(tenant, gen, front);
      SupersededWithin(tenant, gen, records);
      if UpsertAll(tenant, gen, front).Success? {
        var before := UpsertAll(tenant, gen, front).value;
        LastSuperseded(tenant, gen, front, last, before);
        if !Superseded(tenant, gen, records, |front|) {
          LatestSnoc(tenant, gen, front, last, before);
        }
      }
    }
  }

  lemma SupersededWithin(tenant: Tenant, gen: Generation, records: seq<Record>)
    ensures forall i: nat :: Superseded(tenant, gen, records, i) ==> i < |records|
  {
  }

  // ------------------------------------------------------------------ Messages

  /** A row of another owner bears the kind and canonical name of one of these objects. */
  ghost predicate TakenByOther(db: Db, sid: SourceId, live: Generation)
    requires sid in db.sources
  {
    exists k :: k in live && live[k].ObjectRecord? &&
                BornByOther(db, sid, live[k].ref.kind, live[k].ref.CanonicalId(db.sources[sid].tenant).Text())
  }

  ghost predicate BornByOther(db: Db, sid: SourceId, kind: string, name: string)
    requires sid in db.sources
  {
    || (exists n :: n in db.objectNodes && db.objectNodes[n].kind == kind && db.objectNodes[n].name == name
                    && !(db.objectNodes[n].owner == Some(sid) && db.objectNodes[n].tenant == Some(db.sources[sid].tenant)))
    || (kind in {"user", "group", "role", "permission_set", "service_account", "account", "asset"}
        && exists n :: n in db.accessNodes && db.accessNodes[n].kind == kind && db.accessNodes[n].name == name
                       && db.accessNodes[n].sourceId != Some(sid))
  }

  lemma ClashesExactly(db: Db, sid: SourceId, live: Generation)
    requires sid in db.sources
    ensures Clashes(db, sid, live) <==> TakenByOther(db, sid, live)
  {
    hide CanonicalId.Text;
    var rest := Cleared(db, sid);
    forall kind, name ensures Bears(rest.objectNodes, rest.accessNodes, kind, name) <==> BornByOther(db, sid, kind, name) {
      BearsExactly(db, sid, kind, name);
    }
    hide Bears, BornByOther;
  }

  lemma BearsExactly(db: Db, sid: SourceId, kind: string, name: string)
    requires sid in db.sources
    ensures Bears(Cleared(db, sid).objectNodes, Cleared(db, sid).accessNodes, kind, name) <==> BornByOther(db, sid, kind, name)
  {
    var rest := Cleared(db, sid);
    assert forall n :: n in rest.objectNodes <==>
                       n in db.objectNodes && !(db.objectNodes[n].owner == Some(sid) && db.objectNodes[n].tenant == Some(db.sources[sid].tenant));
    assert forall n :: n in rest.objectNodes ==> rest.objectNodes[n] == db.objectNodes[n];
    assert forall n :: n in rest.accessNodes <==> n in db.accessNodes && db.accessNodes[n].sourceId != Some(sid);
    assert forall n :: n in rest.accessNodes ==> rest.accessNodes[n] == db.accessNodes[n];
  }

  ghost predicate NoneSuperseded(tenant: Tenant, gen: Generation, records: seq<Record>) {
    forall i: nat :: !Superseded(tenant, gen, records, i)
  }

  /** The operation is one the source's state allows. */
  ghost predicate Allowed(db: Db, sid: SourceId, m: SyncMessage)
    requires sid in db.sources && sid in db.states
  {
    var snapshot, tenant := db.states[sid].snapshot, db.sources[sid].tenant;
    match m.operation
    case Begin => snapshot == None && db.Facts(sid, m.snapshotId) == map[]
    case Page => snapshot == Some(m.snapshotId) && NoneSuperseded(tenant, db.Facts(sid, m.snapshotId), m.Facts())
    case Abort => snapshot == Some(m.snapshotId)
    case Complete =>
      && snapshot == Some(m.snapshotId) && m.coverage == CompleteCoverage
      && !TakenByOther(db, sid, db.Facts(sid, m.snapshotId))
    case Delta =>
      var rest := map k | k in db.Facts(sid, LIVE) && k !in m.tombstones :: db.Facts(sid, LIVE)[k];
      && snapshot == None && NoneSuperseded(tenant, rest, m.Facts())
      && !TakenByOther(db, sid, SyncHistory.Overlay(tenant, rest, m.Facts()))
  }

  lemma OperateExactly(db: Db, sid: SourceId, m: SyncMessage, now: Time)
    requires sid in db.sources && sid in db.states
    ensures Operate(db, sid, db.states[sid], m, now).Success? <==> Allowed(db, sid, m)
  {
    hide Clashes, TakenByOther, UpsertAll, Superseded, Replace, WithFacts, FactsAt;
    var tenant := db.sources[sid].tenant;
    var rest := Without(db.Facts(sid, LIVE), m.tombstones);
    ClashesExactly(db, sid, db.Facts(sid, m.snapshotId));
    UpsertsFailExactly(tenant, db.Facts(sid, m.snapshotId), m.Facts());
    UpsertsFailExactly(tenant, rest, m.Facts());
    assert rest == map k | k in db.Facts(sid, LIVE) && k !in m.tombstones :: db.Facts(sid, LIVE)[k];
    if UpsertAll(tenant, rest, m.Facts()).Success? {
      SyncHistory.UpsertIsOverlay(tenant, rest, m.Facts());
      ClashesExactly(db, sid, UpsertAll(tenant, rest, m.Facts()).value);
    }
  }

  /** A message is accepted exactly if its source is on and registered, the message is of allowed size, new, next in
      sequence and within the connector's capabilities, each of its records is admissible, it does not name the live
      facts as a snapshot, and the state of the source allows its operation. */
  lemma AcceptedExactly(db: Db, sid: SourceId, m: SyncMessage, now: Time)
    requires sid in db.sources
    ensures Apply(db, sid, m, now).Accepted? <==>
            && db.sources[sid].enabled == true && m.bytes <= 2097152
            && ReceiptId(sid, m.sequence) !in db.receipts && sid in db.states && m.sequence == db.states[sid].sequence + 1
            && Screened(db, sid, m, now) && Allowed(db, sid, m)
  {
    hide Operate, Allowed, ScreenError, Screened;
    if sid in db.states {
      OperateExactly(db, sid, m, now);
      ScreenExactly(db, sid, m, now, NotRegistered);
    }
  }

  /** The reason an operation is refused for. */
  ghost predicate IsOperationReason(db: Db, sid: SourceId, m: SyncMessage, e: SyncError)
    requires sid in db.sources && sid in db.states
  {
    var snapshot, tenant := db.states[sid].snapshot, db.sources[sid].tenant;
    match m.operation
    case Begin => if snapshot.Some? then e == SnapshotActive else db.Facts(sid, m.snapshotId) != map[] && e == GenerationExists
    case Page =>
      if snapshot != Some(m.snapshotId) then e == SnapshotMismatch
      else !NoneSuperseded(tenant, db.Facts(sid, m.snapshotId), m.Facts()) && e == OlderEvidence
    case Abort => snapshot != Some(m.snapshotId) && e == SnapshotMismatch
    case Complete =>
      if snapshot != Some(m.snapshotId) then e == SnapshotMismatch
      else if m.coverage.PartialCoverage? then e == PartialSnapshot
      else TakenByOther(db, sid, db.Facts(sid, m.snapshotId)) && e == UniqueViolation
    case Delta =>
      var rest := map k | k in db.Facts(sid, LIVE) && k !in m.tombstones :: db.Facts(sid, LIVE)[k];
      if snapshot.Some? then e == DeltaDuringSnapshot
      else if !NoneSuperseded(tenant, rest, m.Facts()) then e == OlderEvidence
      else TakenByOther(db, sid, SyncHistory.Overlay(tenant, rest, m.Facts())) && e == UniqueViolation
  }

  lemma OperationReasonExactly(db: Db, sid: SourceId, m: SyncMessage, now: Time, e: SyncError)
    requires sid in db.sources && sid in db.states
    ensures Operate(db, sid, db.states[sid], m, now) == Failure(e) <==> IsOperationReason(db, sid, m, e)
  {
    hide Operate, IsOperationReason;
    match m.operation {
      case Complete => CompleteReasonExactly(db, sid, m, now, e);
      case Delta => DeltaReasonExactly(db, sid, m, now, e);
      case _ => StagingReasonExactly(db, sid, m, now, e);
    }
  }

  lemma StagingReasonExactly(db: Db, sid: SourceId, m: SyncMessage, now: Time, e: SyncError)
    requires sid in db.sources && sid in db.states && (m.operation.Begin? || m.operation.Page? || m.operation.Abort?)
    ensures Operate(db, sid, db.states[sid], m, now) == Failure(e) <==> IsOperationReason(db, sid, m, e)
  {
    hide UpsertAll, NoneSuperseded, WithFacts, FactsAt, SyncHistory.Overlay;
    BatchReason(db.sources[sid].tenant, db.Facts(sid, m.snapshotId), m.Facts());
  }

  lemma CompleteReasonExactly(db: Db, sid: SourceId, m: SyncMessage, now: Time, e: SyncError)
    requires sid in db.sources && sid in db.states && m.operation.Complete?
    ensures Operate(db, sid, db.states[sid], m, now) == Failure(e) <==> IsOperationReason(db, sid, m, e)
  {
    hide Clashes, TakenByOther, Replace, WithFacts, FactsAt;
    ClashesExactly(db, sid, db.Facts(sid, m.snapshotId));
  }

  lemma DeltaReasonExactly(db: Db, sid: SourceId, m: SyncMessage, now: Time, e: SyncError)
    requires sid in db.sources && sid in db.states && m.operation.Delta?
    ensures Operate(db, sid, db.states[sid], m, now) == Failure(e) <==> IsOperationReason(db, sid, m, e)
  {
    hide Clashes, TakenByOther, UpsertAll, NoneSuperseded, Replace, WithFacts, FactsAt, SyncHistory.Overlay, Without;
    var tenant, live := db.sources[sid].tenant, db.Facts(sid, LIVE);
    Remaining(live, m.tombstones);
    var rest := Without(live, m.tombstones);
    BatchReason(tenant, rest, m.Facts());
    if UpsertAll(tenant, rest, m.Facts()).Success? {
      ClashesExactly(db, sid, UpsertAll(tenant, rest, m.Facts()).value);
    }
  }

  lemma Remaining(live: Generation, keys: seq<FactKey>)
    ensures Without(live, keys) == map k | k in live && k !in keys :: live[k]
  {
  }

  lemma BatchReason(tenant: Tenant, gen: Generation, records: seq<Record>)
    ensures UpsertAll(tenant, gen, records) ==
            if NoneSuperseded(tenant, gen, records) then Success(SyncHistory.Overlay(tenant, gen, records)) else Failure(OlderEvidence)
  {
    hide Superseded;
    UpsertsFailExactly(tenant, gen, records);
    SyncHistory.UpsertIsOverlay(tenant, gen, records);
  }

  /** The reason a message is refused for: the first of these that is there. */
  ghost predicate IsReason(db: Db, sid: SourceId, m: SyncMessage, now: Time, e: SyncError)
    requires sid in db.sources
  {
    if !db.sources[sid].enabled then e == SourceDisabled
    else if m.bytes > 2097152 then e == MessageTooLarge
    else if ReceiptId(sid, m.sequence) in db.receipts then db.receipts[ReceiptId(sid, m.sequence)].digest != m && e == SequenceReused
    else if sid !in db.states then e == NotRegistered
    else if m.sequence != db.states[sid].sequence + 1 then e == SequenceGap
    else if !Screened(db, sid, m, now) then IsScreenReason(db, sid, m, now, e)
    else IsOperationReason(db, sid, m, e)
  }

  /** The message is within the connector's capabilities, its records are admissible, and it does not name the live facts
      as a snapshot. */
  ghost predicate Screened(db: Db, sid: SourceId, m: SyncMessage, now: Time)
    requires sid in db.sources && sid in db.states
  {
    && (if m.operation == Delta then ChangesCapability in db.states[sid].manifest.capabilities
        else SnapshotCapability in db.states[sid].manifest.capabilities)
    && AllAdmissible(db.sources, sid, db.states[sid].manifest, m.objects + m.relationships, now)
    && m.snapshotId != "live"
  }

  /** The first of these that is missing. */
  ghost predicate IsScreenReason(db: Db, sid: SourceId, m: SyncMessage, now: Time, e: SyncError)
    requires sid in db.sources && sid in db.states
  {
    if m.operation.Delta? && ChangesCapability !in db.states[sid].manifest.capabilities then e == ChangesUnavailable
    else if !m.operation.Delta? && SnapshotCapability !in db.states[sid].manifest.capabilities then e == SnapshotUnavailable
    else if AllAdmissible(db.sources, sid, db.states[sid].manifest, m.objects + m.relationships, now) then e == ReservedSnapshot
    else exists i: nat :: FirstFault(db.sources, sid, db.states[sid].manifest, m.objects + m.relationships, now, i, e)
  }

  lemma ScreenExactly(db: Db, sid: SourceId, m: SyncMessage, now: Time, e: SyncError)
    requires sid in db.sources && sid in db.states
    ensures ScreenError(db, sid, db.states[sid].manifest, m, now).None? <==> Screened(db, sid, m, now)
    ensures ScreenError(db, sid, db.states[sid].manifest, m, now) == Some(e) <==>
            !Screened(db, sid, m, now) && IsScreenReason(db, sid, m, now, e)
  {
    hide FactsError, AllAdmissible, FirstFault;
    FactsErrorExactly(db.sources, sid, db.states[sid].manifest, m.Facts(), now);
    assert FactsError(db.sources, sid, db.states[sid].manifest, m.Facts(), now) == Some(e) <==>
           exists i: nat :: FirstFault(db.sources, sid, db.states[sid].manifest, m.objects + m.relationships, now, i, e);
  }

  /** Every refusal has exactly the reason the tables give, and only a repeated message is replayed. */
  lemma RefusedExactly(db: Db, sid: SourceId, m: SyncMessage, now: Time, e: SyncError)
    requires sid in db.sources
    ensures Apply(db, sid, m, now) == Refused(e) <==> IsReason(db, sid, m, now, e)
    ensures Apply(db, sid, m, now).Replayed? <==>
            && db.sources[sid].enabled && m.bytes <= 2097152
            && ReceiptId(sid, m.sequence) in db.receipts && db.receipts[ReceiptId(sid, m.sequence)].digest == m
  {
    hide Operate, IsOperationReason, ScreenError, IsScreenReason, Screened;
    if sid in db.states {
      OperationReasonExactly(db, sid, m, now, e);
      ScreenExactly(db, sid, m, now, e);
    }
  }

  // ------------------------------------------------------------------ What acceptance leaves behind

  /** The snapshot that is open after the operation. */
  ghost function SnapshotAfter(m: SyncMessage, before: Option<string>): Option<string> {
    match m.operation
    case Begin => Some(m.snapshotId)
    case Page => before
    case Complete => None
    case Abort => None
    case Delta => before
  }

  /** Acceptance moves the source's state on by one message, and answers and records it with the coverage reached. */
  lemma AcknowledgedExactly(db: Db, sid: SourceId, m: SyncMessage, now: Time)
    requires sid in db.sources && sid in db.states && Apply(db, sid, m, now).Accepted?
    ensures var r, state := Apply(db, sid, m, now), db.states[sid];
            var coverage := if m.operation == Complete then CompleteCoverage else state.coverage;
            && r.ack == Ack(sid, m.sequence, m.operation, coverage)
            && r.db.receipts == db.receipts[ReceiptId(sid, m.sequence) := Receipt(m, r.ack)]
            && r.db.states == db.states[sid := ConnectorState(state.manifest, m.sequence, SnapshotAfter(m, state.snapshot), coverage)]
  {
    hide ScreenError, UpsertAll, Clashes, Without, WithFacts, FactsAt, Publish;
  }

  /** A manifest is registered once, and only if every source it refers to exists in the same tenant. */
  lemma RegisteredExactly(db: Db, sid: SourceId, manifest: Manifest)
    requires sid in db.sources
    ensures RegisterManifest(db, sid, manifest) ==
            if sid !in db.states
               && forall f :: f in manifest.foreignReferences ==> f in db.sources && db.sources[f].tenant == db.sources[sid].tenant
            then Some(db.(states := db.states[sid := ConnectorState(manifest, 0, None, PartialCoverage)])) else None
  {
  }

  /** What a message may look like: numbered from 1; a snapshot id unless it is a delta; records in pages and deltas only,
      tombstones in deltas only. */
  lemma ShapeExactly(m: Envelope)
    ensures m.Shape() <==>
            && m.sequence > 0 && (m.snapshotId == "" <==> m.operation == Delta)
            && (forall i :: 0 <= i < |m.objects| ==> m.objects[i].ObjectRecord?)
            && (forall i :: 0 <= i < |m.relationships| ==> m.relationships[i].RelationshipRecord?)
            && (m.objects != [] || m.relationships != [] ==> m.operation == Page || m.operation == Delta)
            && (m.tombstones != [] ==> m.operation == Delta)
  {
  }
}
