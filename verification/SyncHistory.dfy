/** What the accepted messages of a source add up to.

    The receipts of a source are its log. `ReferenceLive` reads the live facts off a log directly: the
    last complete snapshot, changed by the deltas after it. The invariant `Refines` says that the tables
    hold exactly that, and it is kept by every message, accepted, refused or replayed. */
module SyncHistory {
  import opened Wrappers
  import opened Contracts
  import opened Store
  import opened Sync

  type Log = seq<SyncMessage>

  // ------------------------------------------------------------------ The reference model

  /** Writes records one after the other; the last write to a key wins, whatever its age. */
  function Overlay(tenant: Tenant, gen: Generation, records: seq<Record>): Generation {
    if records == [] then gen
    else
      var last := records[|records| - 1];
      Overlay(tenant, gen, records[..|records| - 1])[last.Key(tenant) := last]
  }

  /** The position of the last message with the given operation, or -1. */
  function LastIndex(log: Log, operation: Operation): (i: int)
    ensures -1 <= i < |log|
  {
    if log == [] then -1
    else if log[|log| - 1].operation == operation then |log| - 1
    else LastIndex(log[..|log| - 1], operation)
  }

  /** Each page writes its facts. */
  function ApplyPages(tenant: Tenant, gen: Generation, log: Log): Generation {
    if log == [] then gen
    else
      var before, m := ApplyPages(tenant, gen, log[..|log| - 1]), log[|log| - 1];
      if m.operation.Page? then Overlay(tenant, before, m.Facts()) else before
  }

  /** Each delta removes its tombstones and then writes its facts. */
  function ApplyDeltas(tenant: Tenant, gen: Generation, log: Log): Generation {
    if log == [] then gen
    else
      var before, m := ApplyDeltas(tenant, gen, log[..|log| - 1]), log[|log| - 1];
      if m.operation.Delta? then Overlay(tenant, Without(before, m.tombstones), m.Facts()) else before
  }

  /** The snapshot being collected: the pages since the last begin. */
  function ReferenceStaged(tenant: Tenant, log: Log): Generation {
    ApplyPages(tenant, map[], log[LastIndex(log, Begin) + 1..])
  }

  /** The snapshot that the last complete message published, changed by every later delta. */
  function ReferenceLive(tenant: Tenant, log: Log): Generation {
    var c := LastIndex(log, Complete);
    if c < 0 then ApplyDeltas(tenant, map[], log)
    else ApplyDeltas(tenant, ReferenceStaged(tenant, log[..c]), log[c + 1..])
  }

  /** The snapshot that is open: begun, and neither completed nor aborted since. */
  function ReferenceSnapshot(log: Log): Option<string> {
    var b := LastIndex(log, Begin);
    if b <= LastIndex(log, Complete) || b <= LastIndex(log, Abort) then None else Some(log[b].snapshotId)
  }

  function ReferenceCoverage(log: Log): Coverage {
    if LastIndex(log, Complete) >= 0 then CompleteCoverage else PartialCoverage
  }

  // ------------------------------------------------------------------ The invariant

  /** The receipts of a source are numbered 1 to its sequence number and acknowledge their messages. */
  ghost predicate Numbered(db: Db, sid: SourceId) {
    && (forall i: nat :: ReceiptId(sid, i) in db.receipts <==> sid in db.states && 1 <= i <= db.states[sid].sequence)
    && (forall i: nat :: ReceiptId(sid, i) in db.receipts ==>
          var r := db.receipts[ReceiptId(sid, i)];
          && r.digest.sequence == i && r.digest.bytes <= MAX_MESSAGE_BYTES
          && r.result.sourceId == sid && r.result.sequence == i && r.result.operation == r.digest.operation)
  }

  ghost function LogOf(db: Db, sid: SourceId): Log
    requires Numbered(db, sid)
  {
    if sid !in db.states then []
    else seq(db.states[sid].sequence, i requires 0 <= i < db.states[sid].sequence => db.receipts[ReceiptId(sid, i + 1)].digest)
  }

  /** The facts of one source are its live ones and those of the open snapshot, and no others. */
  ghost predicate Holds(
    facts: map<Slot, Generation>, sid: SourceId, snapshot: Option<string>, live: Generation, staged: Generation)
  {
    && FactsAt(facts, Slot(sid, LIVE)) == live
    && snapshot != Some(LIVE)
    && (snapshot.Some? ==> FactsAt(facts, Slot(sid, snapshot.value)) == staged)
    && (forall g :: Slot(sid, g) in facts ==> g == LIVE || snapshot == Some(g))
  }

  /** `log` lists the messages of the receipts in order. */
  ghost predicate IsLog(db: Db, sid: SourceId, log: Log) {
    && |log| == (if sid in db.states then db.states[sid].sequence else 0)
    && forall i :: 0 <= i < |log| ==> ReceiptId(sid, i + 1) in db.receipts && log[i] == db.receipts[ReceiptId(sid, i + 1)].digest
  }

  lemma LogIsUnique(db: Db, sid: SourceId, log: Log)
    requires Numbered(db, sid)
    ensures IsLog(db, sid, log) <==> log == LogOf(db, sid)
  {
  }

  /** What a log adds up to. */
  datatype Sum = Sum(snapshot: Option<string>, coverage: Coverage, live: Generation, staged: Generation)

  ghost predicate IsSum(tenant: Tenant, log: Log, sum: Sum) {
    sum == Sum(ReferenceSnapshot(log), ReferenceCoverage(log), ReferenceLive(tenant, log), ReferenceStaged(tenant, log))
  }

  /** The tables of the source hold the sum. */
  ghost predicate Stores(db: Db, sid: SourceId, sum: Sum) {
    && Holds(db.facts, sid, sum.snapshot, sum.live, sum.staged)
    && (sid in db.states ==> db.states[sid].snapshot == sum.snapshot && db.states[sid].coverage == sum.coverage)
  }

  ghost predicate AddsUp(db: Db, sid: SourceId, log: Log)
    requires sid in db.sources
  {
    exists sum :: IsSum(db.sources[sid].tenant, log, sum) && Stores(db, sid, sum)
  }

  /** The tables hold what the log of the source adds up to. The triggers keep the sum closed until a proof asks for it. */
  ghost predicate Refines(db: Db, sid: SourceId)
    requires sid in db.sources
  {
    Numbered(db, sid) && forall log {:trigger AddsUp(db, sid, log)} :: IsLog(db, sid, log) ==> AddsUp(db, sid, log)
  }

  lemma SumOf(db: Db, sid: SourceId)
    requires sid in db.sources && Refines(db, sid)
    ensures Numbered(db, sid)
    ensures var tenant, log := db.sources[sid].tenant, LogOf(db, sid);
            Stores(db, sid, Sum(ReferenceSnapshot(log), ReferenceCoverage(log), ReferenceLive(tenant, log), ReferenceStaged(tenant, log)))
  {
    hide Stores, Numbered, LogOf, IsLog, ReferenceSnapshot, ReferenceCoverage, ReferenceLive, ReferenceStaged;
    LogIsUnique(db, sid, LogOf(db, sid));
    assert AddsUp(db, sid, LogOf(db, sid));
  }

  lemma SumMeansRefines(db: Db, sid: SourceId, log: Log)
    requires sid in db.sources && Numbered(db, sid) && LogOf(db, sid) == log
    requires var tenant := db.sources[sid].tenant;
             Stores(db, sid, Sum(ReferenceSnapshot(log), ReferenceCoverage(log), ReferenceLive(tenant, log), ReferenceStaged(tenant, log)))
    ensures Refines(db, sid)
  {
    hide Stores, Numbered, LogOf, IsLog, ReferenceSnapshot, ReferenceCoverage, ReferenceLive, ReferenceStaged;
    var tenant := db.sources[sid].tenant;
    assert IsSum(tenant, log, Sum(ReferenceSnapshot(log), ReferenceCoverage(log), ReferenceLive(tenant, log), ReferenceStaged(tenant, log)));
    assert AddsUp(db, sid, log);
    forall other | IsLog(db, sid, other) ensures AddsUp(db, sid, other) {
      LogIsUnique(db, sid, other);
    }
  }

  // ------------------------------------------------------------------ How the reference model grows

  lemma LastIndexGrows(log: Log, m: SyncMessage, operation: Operation)
    ensures LastIndex(log + [m], operation) == if m.operation == operation then |log| else LastIndex(log, operation)
  {
    assert (log + [m])[..|log|] == log;
  }

  lemma ApplyDeltasGrows(tenant: Tenant, gen: Generation, log: Log, m: SyncMessage)
    ensures ApplyDeltas(tenant, gen, log + [m]) ==
            var before := ApplyDeltas(tenant, gen, log);
            if m.operation.Delta? then Overlay(tenant, Without(before, m.tombstones), m.Facts()) else before
  {
    assert (log + [m])[..|log|] == log;
  }

  lemma {:induction false} OverlayAppend(tenant: Tenant, gen: Generation, first: seq<Record>, second: seq<Record>)
    ensures Overlay(tenant, gen, first + second) == Overlay(tenant, Overlay(tenant, gen, first), second)
  {
    if second == [] {
      assert first + second == first;
    } else {
      var front := second[..|second| - 1];
      OverlayAppend(tenant, gen, first, front);
      assert (first + second)[..|first + second| - 1] == first + front;
    }
  }

  /** Last write wins: a key holds the last record written to it. */
  lemma {:induction false} OverlayIsLastWrite(tenant: Tenant, gen: Generation, records: seq<Record>, i: nat)
    requires i < |records| && forall j :: i < j < |records| ==> records[j].Key(tenant) != records[i].Key(tenant)
    ensures var r := Overlay(tenant, gen, records);
            records[i].Key(tenant) in r && r[records[i].Key(tenant)] == records[i]
  {
    if i < |records| - 1 {
      OverlayIsLastWrite(tenant, gen, records[..|records| - 1], i);
    }
  }

  /** A key that no record writes keeps what it held. */
  lemma {:induction false} OverlayKeepsRest(tenant: Tenant, gen: Generation, records: seq<Record>, k: FactKey)
    requires forall i :: 0 <= i < |records| ==> records[i].Key(tenant) != k
    ensures var r := Overlay(tenant, gen, records);
            (k in r <==> k in gen) && (k in gen ==> r[k] == gen[k])
  {
    if records != [] {
      OverlayKeepsRest(tenant, gen, records[..|records| - 1], k);
    }
  }

  lemma ReferenceStagedGrows(tenant: Tenant, log: Log, m: SyncMessage)
    ensures ReferenceStaged(tenant, log + [m]) ==
            if m.operation.Begin? then map[]
            else if m.operation.Page? then Overlay(tenant, ReferenceStaged(tenant, log), m.Facts())
            else ReferenceStaged(tenant, log)
  {
    LastIndexGrows(log, m, Begin);
    var b := LastIndex(log, Begin);
    if m.operation.Begin? {
      assert (log + [m])[|log| + 1..] == [];
    } else {
      assert (log + [m])[b + 1..] == log[b + 1..] + [m];
    }
  }

  lemma ReferenceLiveGrows(tenant: Tenant, log: Log, m: SyncMessage)
    ensures ReferenceLive(tenant, log + [m]) ==
            var before := ReferenceLive(tenant, log);
            if m.operation.Complete? then ReferenceStaged(tenant, log)
            else if m.operation.Delta? then Overlay(tenant, Without(before, m.tombstones), m.Facts())
            else before
  {
    LastIndexGrows(log, m, Complete);
    var c := LastIndex(log, Complete);
    if m.operation.Complete? {
      assert (log + [m])[..|log|] == log && (log + [m])[|log| + 1..] == [];
    } else if c < 0 {
      ApplyDeltasGrows(tenant, map[], log, m);
    } else {
      assert (log + [m])[..c] == log[..c] && (log + [m])[c + 1..] == log[c + 1..] + [m];
      ApplyDeltasGrows(tenant, ReferenceStaged(tenant, log[..c]), log[c + 1..], m);
    }
  }

  /** Where the age guard lets an upsert through, it is a plain overwrite. */
  lemma {:induction false} UpsertIsOverlay(tenant: Tenant, gen: Generation, records: seq<Record>)
    ensures var r := UpsertAll(tenant, gen, records);
            r.Success? ==> r.value == Overlay(tenant, gen, records)
  {
    if records != [] {
      UpsertIsOverlay(tenant, gen, records[..|records| - 1]);
    }
  }

  // ------------------------------------------------------------------ Steps of the invariant

  lemma LogGrows(db: Db, sid: SourceId, m: SyncMessage, now: Time)
    requires sid in db.sources && Numbered(db, sid) && Apply(db, sid, m, now).Accepted?
    ensures var after := Apply(db, sid, m, now).db;
            Numbered(after, sid) && LogOf(after, sid) == LogOf(db, sid) + [m]
  {
    hide Operate, ScreenError;
    var after := Apply(db, sid, m, now).db;
    OperateStates(db, sid, m, now);
    assert forall i: nat :: ReceiptId(sid, i) in after.receipts <==> ReceiptId(sid, i) in db.receipts || i == m.sequence;
  }

  lemma OperateStates(db: Db, sid: SourceId, m: SyncMessage, now: Time)
    requires sid in db.sources && sid in db.states && Operate(db, sid, db.states[sid], m, now).Success?
    ensures var after := Operate(db, sid, db.states[sid], m, now).value;
            && after.states[sid].sequence == m.sequence
            && after.sources.Keys == db.sources.Keys
            && after.sources[sid].tenant == db.sources[sid].tenant
  {
    hide UpsertAll, Publish, WithFacts;
  }

  /** What an accepted operation does to the sender's facts and state, without the graphs. */
  lemma OperateFacts(db: Db, sid: SourceId, m: SyncMessage, now: Time)
    requires sid in db.sources && sid in db.states && Operate(db, sid, db.states[sid], m, now).Success?
    ensures var after, state := Operate(db, sid, db.states[sid], m, now).value, db.states[sid];
            var tenant, live, staged := db.sources[sid].tenant, db.Facts(sid, LIVE), db.Facts(sid, m.snapshotId);
            match m.operation
            case Begin =>
              state.snapshot.None? && staged == map[] && after.facts == db.facts
              && after.states[sid] == state.(sequence := m.sequence, snapshot := Some(m.snapshotId))
            case Page =>
              state.snapshot == Some(m.snapshotId)
              && after.facts == WithFacts(db.facts, Slot(sid, m.snapshotId), Overlay(tenant, staged, m.Facts()))
              && after.states[sid] == state.(sequence := m.sequence)
            case Abort =>
              state.snapshot == Some(m.snapshotId) && after.facts == db.facts - {Slot(sid, m.snapshotId)}
              && after.states[sid] == state.(sequence := m.sequence, snapshot := None)
            case Complete =>
              state.snapshot == Some(m.snapshotId) && m.coverage == CompleteCoverage
              && after.facts == WithFacts(db.facts - {Slot(sid, m.snapshotId)}, Slot(sid, LIVE), staged)
              && after.states[sid] == state.(sequence := m.sequence, snapshot := None, coverage := CompleteCoverage)
            case Delta =>
              state.snapshot.None?
              && after.facts == WithFacts(db.facts, Slot(sid, LIVE), Overlay(tenant, Without(live, m.tombstones), m.Facts()))
              && after.states[sid] == state.(sequence := m.sequence)
  {
    hide UpsertAll, Overlay, WithFacts, Without, Publish;
    UpsertIsOverlay(db.sources[sid].tenant, db.Facts(sid, m.snapshotId), m.Facts());
    UpsertIsOverlay(db.sources[sid].tenant, Without(db.Facts(sid, LIVE), m.tombstones), m.Facts());
  }

  /** The facts and state of the sender after an accepted message, in terms of the reference model. */
  lemma AcceptedFacts(db: Db, sid: SourceId, m: SyncMessage, now: Time) returns (after: Db, log: Log)
    requires sid in db.sources && Numbered(db, sid) && Apply(db, sid, m, now).Accepted?
    ensures after == Apply(db, sid, m, now).db && log == LogOf(db, sid)
    ensures sid in db.states && sid in after.sources && sid in after.states
    ensures after.sources[sid].tenant == db.sources[sid].tenant
    ensures Numbered(after, sid) && LogOf(after, sid) == log + [m]
    ensures m.snapshotId != LIVE
    ensures var tenant, live, staged := db.sources[sid].tenant, db.Facts(sid, LIVE), db.Facts(sid, m.snapshotId);
            match m.operation
            case Begin => db.states[sid].snapshot.None? && after.facts == db.facts && staged == map[]
            case Page =>
              && db.states[sid].snapshot == Some(m.snapshotId)
              && after.facts == WithFacts(db.facts, Slot(sid, m.snapshotId), Overlay(tenant, staged, m.Facts()))
            case Abort => db.states[sid].snapshot == Some(m.snapshotId) && after.facts == db.facts - {Slot(sid, m.snapshotId)}
            case Complete =>
              && db.states[sid].snapshot == Some(m.snapshotId)
              && after.facts == WithFacts(db.facts - {Slot(sid, m.snapshotId)}, Slot(sid, LIVE), staged)
            case Delta =>
              && db.states[sid].snapshot.None?
              && after.facts == WithFacts(db.facts, Slot(sid, LIVE), Overlay(tenant, Without(live, m.tombstones), m.Facts()))
    ensures after.states[sid].coverage == if m.operation.Complete? then CompleteCoverage else db.states[sid].coverage
    ensures after.states[sid].snapshot ==
              match m.operation
              case Begin => Some(m.snapshotId)
              case Abort => None
              case Complete => None
              case _ => db.states[sid].snapshot
  {
    after, log := Apply(db, sid, m, now).db, LogOf(db, sid);
    LogGrows(db, sid, m, now);
    hide Operate, LogOf, Numbered, FactsError, WithFacts, Overlay, Without, FactsAt;
    OperateStates(db, sid, m, now);
    OperateFacts(db, sid, m, now);
  }

  /** The reference model after one more message. */
  lemma ReferenceGrows(tenant: Tenant, log: Log, m: SyncMessage)
    ensures ReferenceStaged(tenant, log + [m]) ==
            if m.operation.Begin? then map[]
            else if m.operation.Page? then Overlay(tenant, ReferenceStaged(tenant, log), m.Facts())
            else ReferenceStaged(tenant, log)
    ensures ReferenceLive(tenant, log + [m]) ==
            if m.operation.Complete? then ReferenceStaged(tenant, log)
            else if m.operation.Delta? then Overlay(tenant, Without(ReferenceLive(tenant, log), m.tombstones), m.Facts())
            else ReferenceLive(tenant, log)
    ensures ReferenceSnapshot(log + [m]) ==
            match m.operation
            case Begin => Some(m.snapshotId)
            case Complete => None
            case Abort => None
            case _ => ReferenceSnapshot(log)
    ensures ReferenceCoverage(log + [m]) == if m.operation.Complete? then CompleteCoverage else ReferenceCoverage(log)
  {
    ReferenceStagedGrows(tenant, log, m);
    ReferenceLiveGrows(tenant, log, m);
    hide LastIndex, ReferenceLive, ReferenceStaged;
    LastIndexGrows(log, m, Begin);
    LastIndexGrows(log, m, Complete);
    LastIndexGrows(log, m, Abort);
  }

  lemma BeginHolds(facts: map<Slot, Generation>, sid: SourceId, live: Generation, staged: Generation, g: string)
    requires Holds(facts, sid, None, live, staged) && g != LIVE
    ensures Holds(facts, sid, Some(g), live, map[])
  {
  }

  lemma PageHolds(
    facts: map<Slot, Generation>, sid: SourceId, live: Generation, staged: Generation, g: string, next: Generation)
    requires Holds(facts, sid, Some(g), live, staged)
    ensures Holds(WithFacts(facts, Slot(sid, g), next), sid, Some(g), live, next)
  {
  }

  lemma AbortHolds(facts: map<Slot, Generation>, sid: SourceId, live: Generation, staged: Generation, g: string)
    requires Holds(facts, sid, Some(g), live, staged)
    ensures Holds(facts - {Slot(sid, g)}, sid, None, live, staged)
  {
  }

  lemma CompleteHolds(facts: map<Slot, Generation>, sid: SourceId, live: Generation, staged: Generation, g: string)
    requires Holds(facts, sid, Some(g), live, staged)
    ensures Holds(WithFacts(facts - {Slot(sid, g)}, Slot(sid, LIVE), staged), sid, None, staged, staged)
  {
  }

  lemma DeltaHolds(facts: map<Slot, Generation>, sid: SourceId, live: Generation, staged: Generation, next: Generation)
    requires Holds(facts, sid, None, live, staged)
    ensures Holds(WithFacts(facts, Slot(sid, LIVE), next), sid, None, next, staged)
  {
  }

  /** An accepted message keeps the refinement of its sender. */
  lemma AcceptedRefines(db: Db, sid: SourceId, m: SyncMessage, now: Time)
    requires sid in db.sources && Refines(db, sid) && Apply(db, sid, m, now).Accepted?
    ensures sid in Apply(db, sid, m, now).db.sources && Refines(Apply(db, sid, m, now).db, sid)
  {
    SumOf(db, sid);
    var after, log := AcceptedFacts(db, sid, m, now);
    var tenant := db.sources[sid].tenant;
    ReferenceGrows(tenant, log, m);
    var live, staged, g := ReferenceLive(tenant, log), ReferenceStaged(tenant, log), m.snapshotId;
    HeldFacts(db, sid);
    hide Apply, ReferenceLive, ReferenceStaged, ReferenceSnapshot, ReferenceCoverage, Overlay, Without, LogOf,
         Numbered, Holds, WithFacts, Refines;
    match m.operation {
      case Begin => BeginHolds(db.facts, sid, live, staged, g);
      case Page => PageHolds(db.facts, sid, live, staged, g, Overlay(tenant, staged, m.Facts()));
      case Abort => AbortHolds(db.facts, sid, live, staged, g);
      case Complete => CompleteHolds(db.facts, sid, live, staged, g);
      case Delta => DeltaHolds(db.facts, sid, live, staged, Overlay(tenant, Without(live, m.tombstones), m.Facts()));
    }
    SumMeansRefines(after, sid, log + [m]);
  }

  lemma HeldFacts(db: Db, sid: SourceId)
    requires sid in db.sources && Refines(db, sid)
    ensures db.Facts(sid, LIVE) == ReferenceLive(db.sources[sid].tenant, LogOf(db, sid))
    ensures sid in db.states && db.states[sid].snapshot.Some? ==>
              db.Facts(sid, db.states[sid].snapshot.value) == ReferenceStaged(db.sources[sid].tenant, LogOf(db, sid))
  {
    SumOf(db, sid);
    hide ReferenceLive, ReferenceStaged, ReferenceSnapshot, LogOf, Numbered, Refines;
  }

  // ------------------------------------------------------------------ Duplicates and unreachable refusals

  /** A late duplicate of any accepted message is answered from its receipt and changes nothing. */
  lemma DuplicatesReplay(db: Db, sid: SourceId, i: nat, now: Time)
    requires sid in db.sources && Numbered(db, sid) && i < |LogOf(db, sid)|
    ensures var m := LogOf(db, sid)[i];
            && m.sequence == i + 1
            && Commit(db, sid, m, now) == db
            && Apply(db, sid, m, now) ==
               if db.sources[sid].enabled then Replayed(db.receipts[ReceiptId(sid, i + 1)].result) else Refused(SourceDisabled)
  {
    hide Operate, ScreenError;
    assert ReceiptId(sid, i + 1) in db.receipts;
  }

  lemma OnlyLiveWhenClosed(db: Db, sid: SourceId, g: string)
    requires sid in db.sources && sid in db.states && db.states[sid].snapshot.None? && g != LIVE
    requires Refines(db, sid)
    ensures Slot(sid, g) !in db.facts
  {
    hide ReferenceLive, ReferenceStaged, ReferenceSnapshot, ReferenceCoverage, Numbered, LogOf, Refines;
    SumOf(db, sid);
  }

  /** Begin never finds its generation taken: only the live and the open generation exist. */
  lemma GenerationNeverExists(db: Db, sid: SourceId, m: SyncMessage, now: Time)
    requires sid in db.sources && Refines(db, sid) && NoEmptySlots(db.facts)
    ensures Apply(db, sid, m, now) != Refused(GenerationExists)
  {
    hide UpsertAll, Publish, Refines;
    if m.operation.Begin? && sid in db.states && db.states[sid].snapshot.None? && m.snapshotId != LIVE {
      OnlyLiveWhenClosed(db, sid, m.snapshotId);
      assert db.Facts(sid, m.snapshotId) == map[];
    }
    FactErrorsOnly(db.sources, sid, if sid in db.states then db.states[sid].manifest else Manifest({}, {}, {}, map[], false), m.Facts(), now);
    UpsertErrorsOnly(db.sources[sid].tenant, db.Facts(sid, m.snapshotId), m.Facts());
    UpsertErrorsOnly(db.sources[sid].tenant, Without(db.Facts(sid, LIVE), m.tombstones), m.Facts());
    hide FactsError;
  }

  lemma {:induction false} FactErrorsOnly(
    sources: map<SourceId, Source>, sid: SourceId, manifest: Manifest, records: seq<Record>, now: Time)
    requires sid in sources
    ensures FactsError(sources, sid, manifest, records, now) != Some(GenerationExists)
  {
    if records != [] {
      FactErrorsOnly(sources, sid, manifest, records[..|records| - 1], now);
    }
  }

  lemma {:induction false} UpsertErrorsOnly(tenant: Tenant, gen: Generation, records: seq<Record>)
    ensures var r := UpsertAll(tenant, gen, records);
            r.Failure? ==> r.error == OlderEvidence
  {
    if records != [] {
      UpsertErrorsOnly(tenant, gen, records[..|records| - 1]);
    }
  }
}
