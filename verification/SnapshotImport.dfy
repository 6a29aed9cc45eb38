/** Operator-run import of a whole source: abort what an earlier run left open, then one complete snapshot, all in
    one transaction. */
module SnapshotImport {
  import opened Wrappers
  import opened Contracts
  import opened Store
  import opened Sync
  import opened SyncHistory
  import opened ControlPlane
  import Delivery
  import SyncFrames
  import SyncSession

  /** One page of a connector; `bytes` is the length of its message's JSON text. */
  datatype PageData = PageData(objects: seq<Record>, relationships: seq<Record>, bytes: nat)

  type ConnectorPage = p: PageData | (forall r <- p.objects :: r.ObjectRecord?) && (forall r <- p.relationships :: r.RelationshipRecord?)
    witness PageData([], [], 0)

  /** A connector as one scan sees it. `failed` says that the provider raised an error before the scan ended. */
  datatype Connector = Connector(manifest: Manifest, coverageComplete: bool, pages: seq<ConnectorPage>, failed: bool)

  /** Any length far below the message limit will do for messages that carry no facts. */
  const CONTROL_BYTES := 256

  type SnapshotId = s: string | s != "" && s != LIVE witness "s"

  function BeginMessage(id: SnapshotId, sequence: nat): SyncMessage
    requires 1 <= sequence
  {
    Envelope(sequence, Begin, id, [], [], [], PartialCoverage, CONTROL_BYTES)
  }

  function PageMessage(id: SnapshotId, sequence: nat, page: ConnectorPage): SyncMessage
    requires 1 <= sequence
  {
    Envelope(sequence, Page, id, page.objects, page.relationships, [], PartialCoverage, page.bytes)
  }

  function CompleteMessage(id: SnapshotId, sequence: nat): SyncMessage
    requires 1 <= sequence
  {
    Envelope(sequence, Complete, id, [], [], [], CompleteCoverage, CONTROL_BYTES)
  }

  function AbortMessage(id: string, sequence: nat): SyncMessage
    requires 1 <= sequence && id != ""
  {
    Envelope(sequence, Abort, id, [], [], [], PartialCoverage, CONTROL_BYTES)
  }

  /** Begin and the pages, numbered from `first`. */
  function Opening(id: SnapshotId, first: nat, pages: seq<ConnectorPage>): (r: Log)
    requires 1 <= first
    ensures |r| == |pages| + 1
  {
    if pages == [] then [BeginMessage(id, first)]
    else Opening(id, first, pages[..|pages| - 1]) + [PageMessage(id, first + |pages|, pages[|pages| - 1])]
  }

  /** The messages of one scan. A failed scan never gets as far as its complete message. */
  function Snapshot(id: SnapshotId, first: nat, pages: seq<ConnectorPage>): Log
    requires 1 <= first
  {
    Opening(id, first, pages) + [CompleteMessage(id, first + |pages| + 1)]
  }

  /** The scan may start: the provider shows everything and the connector may send snapshots. */
  predicate Starts(connector: Connector) {
    connector.coverageComplete && SnapshotCapability in connector.manifest.capabilities
  }

  predicate Finishes(connector: Connector) {
    Starts(connector) && !connector.failed
  }

  /** The messages that a scan hands over, whether it finishes or breaks off. */
  function Collected(connector: Connector, id: SnapshotId, first: nat): Log
    requires 1 <= first
  {
    if !Starts(connector) then []
    else if connector.failed then Opening(id, first, connector.pages)
    else Snapshot(id, first, connector.pages)
  }

  /** All records of all pages, in order. */
  function AllFacts(pages: seq<ConnectorPage>): seq<Record> {
    if pages == [] then []
    else AllFacts(pages[..|pages| - 1]) + (pages[|pages| - 1].objects + pages[|pages| - 1].relationships)
  }

  /** Applies messages one after the other; `clock(k)` is the time at which message `k` is handled. */
  function ApplyEach(db: Db, sid: SourceId, log: Log, clock: nat -> Time): Option<Db> {
    if log == [] then Some(db)
    else
      var before := ApplyEach(db, sid, log[..|log| - 1], clock);
      if before.None? || sid !in before.value.sources then None
      else
        match Apply(before.value, sid, log[|log| - 1], clock(|log| - 1))
        case Accepted(after, _) => Some(after)
        case Replayed(_) => before
        case Refused(_) => None
  }

  // ------------------------------------------------------------------ What the messages add up to

  lemma {:induction false} OpeningStages(tenant: Tenant, log: Log, id: SnapshotId, first: nat, pages: seq<ConnectorPage>)
    requires 1 <= first
    ensures ReferenceStaged(tenant, log + Opening(id, first, pages)) == Overlay(tenant, map[], AllFacts(pages))
    ensures ReferenceSnapshot(log + Opening(id, first, pages)) == Some(id)
  {
    hide ReferenceStaged, ReferenceSnapshot, ReferenceLive, ReferenceCoverage;
    if pages == [] {
      ReferenceGrows(tenant, log, BeginMessage(id, first));
    } else {
      var front, last := pages[..|pages| - 1], pages[|pages| - 1];
      OpeningStages(tenant, log, id, first, front);
      var m := PageMessage(id, first + |pages|, last);
      assert log + Opening(id, first, pages) == log + Opening(id, first, front) + [m];
      ReferenceGrows(tenant, log + Opening(id, first, front), m);
      OverlayAppend(tenant, map[], AllFacts(front), m.Facts());
    }
  }

  /** After a whole snapshot the live facts are the last record written per key, whatever the log held before. */
  lemma SnapshotPublishes(tenant: Tenant, log: Log, id: SnapshotId, first: nat, pages: seq<ConnectorPage>)
    requires 1 <= first
    ensures ReferenceLive(tenant, log + Snapshot(id, first, pages)) == Overlay(tenant, map[], AllFacts(pages))
    ensures ReferenceSnapshot(log + Snapshot(id, first, pages)) == None
  {
    OpeningStages(tenant, log, id, first, pages);
    hide ReferenceStaged, ReferenceSnapshot, ReferenceLive, ReferenceCoverage, Opening;
    var m := CompleteMessage(id, first + |pages| + 1);
    assert log + Snapshot(id, first, pages) == log + Opening(id, first, pages) + [m];
    ReferenceGrows(tenant, log + Opening(id, first, pages), m);
  }

  lemma {:induction false} OpeningIsNumbered(id: SnapshotId, first: nat, pages: seq<ConnectorPage>, k: nat)
    requires 1 <= first && k <= |pages|
    ensures Opening(id, first, pages)[k].sequence == first + k
  {
    if k < |pages| {
      OpeningIsNumbered(id, first, pages[..|pages| - 1], k);
    }
  }

  lemma SnapshotIsNumbered(base: Log, id: SnapshotId, first: nat, pages: seq<ConnectorPage>)
    requires first == |base| + 1
    ensures Delivery.NumberedOn(base, Snapshot(id, first, pages)) && Delivery.NumberedOn(base, Opening(id, first, pages))
  {
  }

  /** Messages numbered on from the log are never taken for replays: each one that passes extends the log. */
  lemma {:induction false} EachExtends(db: Db, sid: SourceId, base: Log, log: Log, clock: nat -> Time)
    requires Delivery.LogIs(db, sid, base) && Delivery.NumberedOn(base, log)
    requires Invariant(db)
    ensures var r := ApplyEach(db, sid, log, clock);
            r.Some? ==> Invariant(r.value) && Delivery.LogIs(r.value, sid, base + log)
  {
    hide Invariant, Delivery.LogIs, Apply;
    if log == [] {
      assert base + log == base;
    } else if ApplyEach(db, sid, log, clock).Some? {
      var front, m := log[..|log| - 1], log[|log| - 1];
      EachExtends(db, sid, base, front, clock);
      assert base + log == base + front + [m];
      var before := ApplyEach(db, sid, front, clock).value;
      if Apply(before, sid, m, clock(|log| - 1)).Replayed? {
        Delivery.ReplayedWithin(before, sid, base + front, m, clock(|log| - 1));
      } else {
        Delivery.AcceptedExtends(before, sid, base + front, m, clock(|log| - 1));
      }
    }
  }

  // ------------------------------------------------------------------ The import

  datatype ImportError = RegistrationRefused | ConfigurationDiffers | ManifestDiffers | AbortRefused | ScanFailed | MessageRefused

  datatype Request = Request(tenant: Tenant, provider: string, namespace: string)

  /** The source and its manifest are registered on the first run. */
  function Registered(db: Db, sid: SourceId, request: Request, manifest: Manifest): Option<Db> {
    if sid in db.sources then Some(db)
    else RegisterManifest(db.(sources := db.sources[sid := Source(request.tenant, request.provider, request.namespace, true, None)]), sid, manifest)
  }

  predicate Configured(source: Source, request: Request) {
    source.tenant == request.tenant && source.provider == request.provider
    && source.allowedNamespace == request.namespace && source.enabled
  }

  /** A snapshot that an earlier run left open is aborted first. */
  function AbandonedAbort(state: ConnectorState): Log {
    if state.snapshot.Some? && state.snapshot.value != "" then [AbortMessage(state.snapshot.value, state.sequence + 1)] else []
  }

  function Shifted(clock: nat -> Time, n: nat): nat -> Time {
    (i: nat) => clock(i + n)
  }

  function Import(
    db: Db, sid: SourceId, request: Request, connector: Connector, id: SnapshotId, clock: nat -> Time): Result<(Db, nat), ImportError>
  {
    var registered := Registered(db, sid, request, connector.manifest);
    if registered.None? then Failure(RegistrationRefused)
    else
      var start := registered.value;
      if sid !in start.sources || !Configured(start.sources[sid], request) then Failure(ConfigurationDiffers)
      else if sid !in start.states || start.states[sid].manifest != connector.manifest then Failure(ManifestDiffers)
      else
        var abort := AbandonedAbort(start.states[sid]);
        var ready := ApplyEach(start, sid, abort, clock);
        if ready.None? || sid !in ready.value.states then Failure(AbortRefused)
        else
          var messages := Collected(connector, id, ready.value.states[sid].sequence + 1);
          var done := ApplyEach(ready.value, sid, messages, Shifted(clock, |abort|));
          if done.None? then Failure(MessageRefused)
          else if !Finishes(connector) then Failure(ScanFailed)
          else Success((done.value, |done.value.Facts(sid, LIVE)|))
  }

  lemma RegisteredKeeps(db: Db, sid: SourceId, request: Request, manifest: Manifest)
    requires Invariant(db) && Registered(db, sid, request, manifest).Some?
    ensures var r := Registered(db, sid, request, manifest).value;
            Invariant(r) && Numbered(db, sid) && Numbered(r, sid) && LogOf(r, sid) == LogOf(db, sid)
  {
    hide Invariant, Next;
    Delivery.NumberedAlways(db, sid);
    if sid !in db.sources {
      var source := Source(request.tenant, request.provider, request.namespace, true, None);
      var added := db.(sources := db.sources[sid := source]);
      assert OnlyRegistration(db, added, sid);
      RegistrationKeeps(db, added, sid);
      ManifestKeeps(added, sid, manifest);
      var r := RegisterManifest(added, sid, manifest).value;
      Delivery.NumberedAlways(r, sid);
      hide OnlyRegistration;
      Delivery.SameLog(db, r, sid);
    }
  }

  /** The states a scan passes through: `abort` leads from `start` to `ready`, the snapshot on to `after`. */
  ghost predicate Scans(
    start: Db, ready: Db, after: Db, sid: SourceId, abort: Log, id: SnapshotId, pages: seq<ConnectorPage>,
    clock: nat -> Time, later: nat -> Time)
  {
    && sid in ready.states
    && ApplyEach(start, sid, abort, clock) == Some(ready)
    && ApplyEach(ready, sid, Snapshot(id, ready.states[sid].sequence + 1, pages), later) == Some(after)
  }

  /** The source's tables after a complete scan: the last record written per key over all pages, no open
      snapshot, and the given sequence number. */
  ghost predicate Holds(db: Db, sid: SourceId, tenant: Tenant, pages: seq<ConnectorPage>, sequence: nat) {
    && sid in db.sources && sid in db.states
    && db.sources[sid].tenant == tenant
    && db.Facts(sid, LIVE) == Overlay(tenant, map[], AllFacts(pages))
    && db.states[sid].snapshot == None
    && db.states[sid].sequence == sequence
  }

  lemma ImportStages(
    db: Db, sid: SourceId, request: Request, connector: Connector, id: SnapshotId, clock: nat -> Time)
    returns (start: Db, ready: Db, after: Db)
    requires Import(db, sid, request, connector, id, clock).Success?
    ensures Registered(db, sid, request, connector.manifest) == Some(start)
    ensures sid in start.sources && start.sources[sid].tenant == request.tenant && sid in start.states
    ensures Scans(start, ready, after, sid, AbandonedAbort(start.states[sid]), id, connector.pages,
                  clock, Shifted(clock, |AbandonedAbort(start.states[sid])|))
    ensures Import(db, sid, request, connector, id, clock) == Success((after, |after.Facts(sid, LIVE)|))
  {
    hide ApplyEach, Registered, Snapshot, Shifted;
    start := Registered(db, sid, request, connector.manifest).value;
    var abort := AbandonedAbort(start.states[sid]);
    ready := ApplyEach(start, sid, abort, clock).value;
    after := ApplyEach(ready, sid, Snapshot(id, ready.states[sid].sequence + 1, connector.pages), Shifted(clock, |abort|)).value;
  }

  lemma ScanExtends(
    start: Db, ready: Db, after: Db, sid: SourceId, log: Log, abort: Log, id: SnapshotId, pages: seq<ConnectorPage>,
    clock: nat -> Time, later: nat -> Time) returns (first: nat)
    requires Scans(start, ready, after, sid, abort, id, pages, clock, later)
    requires Delivery.LogIs(start, sid, log) && Delivery.NumberedOn(log, abort)
    requires Invariant(start)
    ensures first >= 1 && Delivery.LogIs(after, sid, log + abort + Snapshot(id, first, pages))
    ensures sid in start.sources && sid in after.sources && sid in after.states
    ensures after.sources[sid].tenant == start.sources[sid].tenant
    ensures Invariant(after)
  {
    first := ready.states[sid].sequence + 1;
    EachExtends(start, sid, log, abort, clock);
    LengthOfLog(ready, sid, log + abort);
    SnapshotIsNumbered(log + abort, id, first, pages);
    EachExtends(ready, sid, log + abort, Snapshot(id, first, pages), later);
    EachKeepsTenant(start, sid, abort, clock);
    EachKeepsTenant(ready, sid, Snapshot(id, first, pages), later);
  }

  /** Aborting what was open and sending a whole scan, from any log. */
  lemma ScanPublishes(
    start: Db, ready: Db, after: Db, sid: SourceId, log: Log, abort: Log, id: SnapshotId, pages: seq<ConnectorPage>,
    clock: nat -> Time, later: nat -> Time, tenant: Tenant)
    requires Scans(start, ready, after, sid, abort, id, pages, clock, later)
    requires Delivery.LogIs(start, sid, log) && Delivery.NumberedOn(log, abort)
    requires sid in start.sources && start.sources[sid].tenant == tenant
    requires Invariant(start)
    ensures Invariant(after) && Holds(after, sid, tenant, pages, |log| + |abort| + |pages| + 2)
  {
    var first := ScanExtends(start, ready, after, sid, log, abort, id, pages, clock, later);
    var messages := Snapshot(id, first, pages);
    LengthOfLog(after, sid, log + abort + messages);
    SnapshotPublishes(tenant, log + abort, id, first, pages);
    Delivery.LoggedFacts(after, sid, log + abort + messages);
    LoggedState(after, sid, log + abort + messages);
  }

  lemma LogIsLogOf(db: Db, sid: SourceId)
    requires sid in db.sources && Numbered(db, sid)
    ensures Delivery.LogIs(db, sid, LogOf(db, sid))
  {
  }

  /** Importing a source leaves the last record written per key over all pages, no open snapshot, and the
      sequence number moved on by one per message. What was there before makes no difference. */
  lemma ImportPublishesScan(
    db: Db, sid: SourceId, request: Request, connector: Connector, id: SnapshotId, clock: nat -> Time, after: Db, count: nat)
    requires Import(db, sid, request, connector, id, clock) == Success((after, count))
    requires Invariant(db)
    ensures Invariant(after) && count == |after.Facts(sid, LIVE)|
    ensures Holds(after, sid, request.tenant, connector.pages,
                  (if sid in db.states then db.states[sid].sequence + |AbandonedAbort(db.states[sid])| else 0)
                  + |connector.pages| + 2)
  {
    var start, ready, end := ImportStages(db, sid, request, connector, id, clock);
    RegisteredKeeps(db, sid, request, connector.manifest);
    LogIsLogOf(start, sid);
    var log, abort := LogOf(start, sid), AbandonedAbort(start.states[sid]);
    LengthOfLog(start, sid, log);
    AbortIsNumbered(start, sid, log);
    ScanPublishes(start, ready, end, sid, log, abort, id, connector.pages, clock, Shifted(clock, |abort|), request.tenant);
    LengthBefore(db, sid, request, connector.manifest, start);
  }

  lemma AbortIsNumbered(db: Db, sid: SourceId, log: Log)
    requires sid in db.states && db.states[sid].sequence == |log|
    ensures Delivery.NumberedOn(log, AbandonedAbort(db.states[sid]))
  {
  }

  lemma LengthBefore(db: Db, sid: SourceId, request: Request, manifest: Manifest, start: Db)
    requires Registered(db, sid, request, manifest) == Some(start) && sid in start.states
    requires Invariant(db)
    ensures if sid in db.states then start.states[sid] == db.states[sid] else start.states[sid].sequence == 0 && start.states[sid].snapshot.None?
  {
    hide LogInvariant, GraphInvariant;
  }

  lemma LengthOfLog(db: Db, sid: SourceId, log: Log)
    requires Delivery.LogIs(db, sid, log)
    ensures sid in db.states ==> db.states[sid].sequence == |log|
    ensures sid !in db.states ==> log == []
  {
  }

  lemma LoggedState(db: Db, sid: SourceId, log: Log)
    requires Invariant(db) && Delivery.LogIs(db, sid, log)
    ensures sid in db.states ==> db.states[sid].snapshot == ReferenceSnapshot(log)
  {
    hide Invariant, ReferenceLive, ReferenceSnapshot, ReferenceStaged, Numbered, LogOf;
    InvariantParts(db);
    RefinesOf(db, sid);
    if sid in db.sources {
      SumOf(db, sid);
    }
  }

  lemma {:induction false} EachKeepsTenant(db: Db, sid: SourceId, log: Log, clock: nat -> Time)
    requires sid in db.sources
    ensures var r := ApplyEach(db, sid, log, clock);
            r.Some? ==>
              && sid in r.value.sources && r.value.sources[sid].tenant == db.sources[sid].tenant
              && (sid in db.states ==> sid in r.value.states && r.value.states[sid].manifest == db.states[sid].manifest)
  {
    hide Apply;
    if log != [] && ApplyEach(db, sid, log, clock).Some? {
      var front := log[..|log| - 1];
      EachKeepsTenant(db, sid, front, clock);
      var before := ApplyEach(db, sid, front, clock).value;
      if Apply(before, sid, log[|log| - 1], clock(|log| - 1)).Accepted? {
        var changed := SyncFrames.OperationShape(before, sid, log[|log| - 1], clock(|log| - 1));
      }
    }
  }

  // ------------------------------------------------------------------ What an import leaves in the graph

  /** The source's nodes and access edges are those that its live facts derive under this manifest. */
  ghost predicate Projects(db: Db, sid: SourceId, manifest: Manifest) {
    && sid in db.sources
    && SyncFrames.OwnNodes(db, Some(sid)) == ProjectedNodes(db.sources[sid], sid, db.Facts(sid, LIVE))
    && SyncFrames.OwnEdges(db, Some(sid)) == ProjectedEdges(db.sources[sid], sid, manifest, db.Facts(sid, LIVE), db.accessNodes)
  }

  lemma SyncTimeLeavesRows(a: Source, b: Source, sid: SourceId, manifest: Manifest, live: Generation, nodes: map<NodeId, AccessNode>)
    requires a.tenant == b.tenant
    ensures ProjectedNodes(a, sid, live) == ProjectedNodes(b, sid, live)
    ensures ProjectedEdges(a, sid, manifest, live, nodes) == ProjectedEdges(b, sid, manifest, live, nodes)
  {
  }

  /** Whenever a publishing message is accepted. */
  lemma PublishedProjects(db: Db, sid: SourceId, m: SyncMessage, now: Time)
    requires sid in db.sources && sid in db.states && SyncFrames.Publishes(m) && Apply(db, sid, m, now).Accepted?
    requires WellFormed(db)
    ensures Projects(Apply(db, sid, m, now).db, sid, db.states[sid].manifest)
  {
    hide Apply, WellFormed, ProjectedNodes, ProjectedEdges, ProjectedObjects, ProjectedObjectEdges, SyncFrames.OwnNodes, SyncFrames.OwnEdges;
    var after := Apply(db, sid, m, now).db;
    SyncFrames.AcceptedRows(db, sid, m, now, Some(sid));
    SyncTimeLeavesRows(db.sources[sid], after.sources[sid], sid, db.states[sid].manifest, after.Facts(sid, LIVE), after.accessNodes);
  }

  /** The complete message of a scan is accepted, not replayed. */
  lemma ScanEndsPublished(
    ready: Db, after: Db, sid: SourceId, log: Log, id: SnapshotId, pages: seq<ConnectorPage>, later: nat -> Time)
    requires Delivery.LogIs(ready, sid, log) && sid in ready.states && ready.states[sid].sequence == |log|
    requires ApplyEach(ready, sid, Snapshot(id, |log| + 1, pages), later) == Some(after)
    requires Invariant(ready)
    ensures Projects(after, sid, ready.states[sid].manifest)
  {
    var opening, m := Opening(id, |log| + 1, pages), CompleteMessage(id, |log| + |pages| + 2);
    var t := later(|opening|);
    SnapshotIsNumbered(log, id, |log| + 1, pages);
    EachExtends(ready, sid, log, opening, later);
    EachKeepsTenant(ready, sid, opening, later);
    assert Snapshot(id, |log| + 1, pages)[..|opening|] == opening;
    var before := ApplyEach(ready, sid, opening, later).value;
    if Apply(before, sid, m, t).Replayed? {
      Delivery.ReplayedWithin(before, sid, log + opening, m, t);
    } else {
      assert WellFormed(before) by { InvariantParts(before); }
      PublishedProjects(before, sid, m, t);
    }
  }

  /** An import leaves exactly the rows that the scan derives. */
  lemma ImportProjects(
    db: Db, sid: SourceId, request: Request, connector: Connector, id: SnapshotId, clock: nat -> Time, after: Db, count: nat)
    requires Import(db, sid, request, connector, id, clock) == Success((after, count))
    requires Invariant(db)
    ensures Projects(after, sid, connector.manifest)
  {
    hide Invariant, Registered, Delivery.LogIs, Numbered, LogOf, ApplyEach, Snapshot, Projects, Delivery.NumberedOn, Shifted;
    var start, ready, end := ImportStages(db, sid, request, connector, id, clock);
    RegisteredKeeps(db, sid, request, connector.manifest);
    LogIsLogOf(start, sid);
    var log, abort := LogOf(start, sid), AbandonedAbort(start.states[sid]);
    LengthOfLog(start, sid, log);
    AbortIsNumbered(start, sid, log);
    EachExtends(start, sid, log, abort, clock);
    EachKeepsTenant(start, sid, abort, clock);
    LengthOfLog(ready, sid, log + abort);
    ScanEndsPublished(ready, end, sid, log + abort, id, connector.pages, Shifted(clock, |abort|));
  }

  // ------------------------------------------------------------------ When a scan is accepted

  /** The source can take the next message: it is on, it may send snapshots, and `sequence` comes next. */
  ghost predicate Awaits(db: Db, sid: SourceId, manifest: Manifest, sequence: nat, snapshot: Option<string>) {
    && sid in db.sources && db.sources[sid].enabled
    && sid in db.states && db.states[sid].manifest == manifest && SnapshotCapability in manifest.capabilities
    && db.states[sid].sequence + 1 == sequence && db.states[sid].snapshot == snapshot
    && ReceiptId(sid, sequence) !in db.receipts
  }

  /** Page `k` is small enough and all its facts are valid when it is handled. */
  ghost predicate PageValid(
    sources: map<SourceId, Source>, sid: SourceId, manifest: Manifest, pages: seq<ConnectorPage>, k: nat, clock: nat -> Time)
    requires sid in sources && k < |pages|
  {
    && pages[k].bytes <= MAX_MESSAGE_BYTES
    && FactsError(sources, sid, manifest, pages[k].objects + pages[k].relationships, clock(k + 1)).None?
  }

  /** Every page is valid and no record is older than one written before it under the same key. */
  ghost predicate PagesAcceptable(
    sources: map<SourceId, Source>, sid: SourceId, manifest: Manifest, pages: seq<ConnectorPage>, clock: nat -> Time)
    requires sid in sources
  {
    && (forall k :: 0 <= k < |pages| ==> PageValid(sources, sid, manifest, pages, k, clock))
    && UpsertAll(sources[sid].tenant, map[], AllFacts(pages)).Success?
  }

  lemma {:induction false} UpsertAllAppend(tenant: Tenant, gen: Generation, first: seq<Record>, second: seq<Record>)
    ensures UpsertAll(tenant, gen, first + second) ==
            match UpsertAll(tenant, gen, first)
            case Failure(e) => Failure(e)
            case Success(g) => UpsertAll(tenant, g, second)
  {
    if second == [] {
      assert first + second == first;
    } else {
      UpsertAllAppend(tenant, gen, first, second[..|second| - 1]);
      assert (first + second)[..|first + second| - 1] == first + second[..|second| - 1];
    }
  }

  /** The registrations and the nodes of both graphs are the same. */
  ghost predicate SameRows(db: Db, after: Db) {
    after.sources == db.sources && after.accessNodes == db.accessNodes && after.objectNodes == db.objectNodes
  }

  /** An accepted begin or page leaves the registrations and rows alone and the next sequence number open. */
  lemma AwaitsNext(db: Db, sid: SourceId, manifest: Manifest, id: SnapshotId, m: SyncMessage, now: Time, before: Option<string>)
    requires m.snapshotId == id && (m.operation.Begin? || m.operation.Page?)
    requires Awaits(db, sid, manifest, m.sequence, before) && Numbered(db, sid) && Apply(db, sid, m, now).Accepted?
    ensures var after := Apply(db, sid, m, now).db;
            Awaits(after, sid, manifest, m.sequence + 1, Some(id)) && SameRows(db, after)
  {
  }

  lemma OpenGenerationIsFresh(db: Db, sid: SourceId, id: SnapshotId)
    requires sid in db.sources && sid in db.states && db.states[sid].snapshot == None
    requires Invariant(db)
    ensures db.Facts(sid, id) == map[]
  {
    InvariantParts(db);
    hide Invariant, GraphInvariant, Numbered, LogOf, ReferenceLive, ReferenceSnapshot, ReferenceStaged, ReferenceCoverage,
         LogInvariant;
    RefinesOf(db, sid);
    SumOf(db, sid);
  }

  /** The state after begin and the pages: the snapshot is open, and no registration or row has changed. */
  ghost predicate Opened(db: Db, begun: Db, sid: SourceId, manifest: Manifest, id: SnapshotId, sequence: nat) {
    Awaits(begun, sid, manifest, sequence, Some(id)) && SameRows(db, begun)
  }

  /** Begin and the pages are accepted if and only if every page is acceptable. */
  lemma {:induction false} OpeningSucceeds(
    db: Db, sid: SourceId, manifest: Manifest, id: SnapshotId, first: nat, pages: seq<ConnectorPage>, clock: nat -> Time)
    requires 1 <= first && sid in db.sources && Awaits(db, sid, manifest, first, None)
    requires Invariant(db)
    ensures ApplyEach(db, sid, Opening(id, first, pages), clock).Some? <==> PagesAcceptable(db.sources, sid, manifest, pages, clock)
    ensures var r := ApplyEach(db, sid, Opening(id, first, pages), clock);
            r.Some? ==> Opened(db, r.value, sid, manifest, id, first + |pages| + 1) && Invariant(r.value)
  {
    if pages == [] {
      BeginSucceeds(db, sid, manifest, id, first, clock);
    } else {
      hide *;
      OpeningSucceeds(db, sid, manifest, id, first, pages[..|pages| - 1], clock);
      OpeningSnoc(id, first, pages);
      var m := PageMessage(id, first + |pages|, pages[|pages| - 1]);
      AwaitsSource(db, sid, manifest, first, None);
      FrontAcceptable(db.sources, sid, manifest, pages, clock);
      ApplyEachSnoc(db, sid, Opening(id, first, pages[..|pages| - 1]), m, clock);
      var r := ApplyEach(db, sid, Opening(id, first, pages[..|pages| - 1]), clock);
      if r.Some? {
        OpenedSource(db, r.value, sid, manifest, id, first + |pages|);
        PageStep(db, r.value, sid, manifest, id, first, pages, clock, m);
        OpenedIsNoReplay(db, r.value, sid, manifest, id, first + |pages|, m, clock(|pages|));
        PageOutcomeMeans(db, sid, manifest, id, first, pages, clock, Apply(r.value, sid, m, clock(|pages|)));
      }
    }
  }

  lemma PageOutcomeMeans(
    db: Db, sid: SourceId, manifest: Manifest, id: SnapshotId, first: nat, pages: seq<ConnectorPage>, clock: nat -> Time, r: Outcome)
    requires sid in db.sources && PageOutcome(db, sid, manifest, id, first, pages, clock, r)
    ensures r.Accepted? <==> PagesAcceptable(db.sources, sid, manifest, pages, clock)
    ensures r.Accepted? ==> Opened(db, r.db, sid, manifest, id, first + |pages| + 1) && Invariant(r.db)
  {
    hide Opened, Invariant, PagesAcceptable;
  }

  lemma FrontAcceptable(sources: map<SourceId, Source>, sid: SourceId, manifest: Manifest, pages: seq<ConnectorPage>, clock: nat -> Time)
    requires sid in sources && pages != []
    ensures PagesAcceptable(sources, sid, manifest, pages, clock) ==> PagesAcceptable(sources, sid, manifest, pages[..|pages| - 1], clock)
  {
    hide *;
    AcceptablePages(sources, sid, manifest, pages, clock);
  }

  ghost predicate PageOutcome(
    db: Db, sid: SourceId, manifest: Manifest, id: SnapshotId, first: nat, pages: seq<ConnectorPage>, clock: nat -> Time, r: Outcome)
    requires sid in db.sources
  {
    && (r.Accepted? <==> PagesAcceptable(db.sources, sid, manifest, pages, clock))
    && (r.Accepted? ==> Opened(db, r.db, sid, manifest, id, first + |pages| + 1) && Invariant(r.db))
  }

  lemma PageStep(
    db: Db, begun: Db, sid: SourceId, manifest: Manifest, id: SnapshotId, first: nat, pages: seq<ConnectorPage>,
    clock: nat -> Time, m: SyncMessage)
    requires 1 <= first && sid in db.sources && sid in begun.sources && pages != []
    requires m == PageMessage(id, first + |pages|, pages[|pages| - 1])
    requires Opened(db, begun, sid, manifest, id, first + |pages|)
    requires sid in db.states && db.states[sid].sequence + 1 == first
    requires ApplyEach(db, sid, Opening(id, first, pages[..|pages| - 1]), clock) == Some(begun)
    requires PagesAcceptable(db.sources, sid, manifest, pages[..|pages| - 1], clock)
    requires Invariant(db) && Invariant(begun)
    ensures PageOutcome(db, sid, manifest, id, first, pages, clock, Apply(begun, sid, m, clock(|pages|)))
  {
    Delivery.NumberedAlways(begun, sid);
    OpenedFacts(db, begun, sid, manifest, id, first, pages[..|pages| - 1], clock);
    NextPage(db, begun, sid, manifest, id, first, pages, clock, m);
    AcceptablePages(db.sources, sid, manifest, pages, clock);
    if Apply(begun, sid, m, clock(|pages|)).Accepted? {
      AcceptedKeeps(begun, sid, m, clock(|pages|));
    }
  }

  lemma OpeningSnoc(id: SnapshotId, first: nat, pages: seq<ConnectorPage>)
    requires 1 <= first && pages != []
    ensures Opening(id, first, pages) ==
            Opening(id, first, pages[..|pages| - 1]) + [PageMessage(id, first + |pages|, pages[|pages| - 1])]
    ensures |Opening(id, first, pages[..|pages| - 1])| == |pages|
  {
  }

  lemma OpenedIsNoReplay(db: Db, begun: Db, sid: SourceId, manifest: Manifest, id: SnapshotId, sequence: nat, m: SyncMessage, now: Time)
    requires Opened(db, begun, sid, manifest, id, sequence) && m.sequence == sequence && sid in begun.sources
    ensures !Apply(begun, sid, m, now).Replayed?
  {
  }

  lemma OpenedSource(db: Db, begun: Db, sid: SourceId, manifest: Manifest, id: SnapshotId, sequence: nat)
    requires Opened(db, begun, sid, manifest, id, sequence)
    ensures sid in begun.sources && begun.sources == db.sources
  {
  }

  lemma AwaitsSource(db: Db, sid: SourceId, manifest: Manifest, sequence: nat, snapshot: Option<string>)
    requires Awaits(db, sid, manifest, sequence, snapshot)
    ensures sid in db.sources && sid in db.states && db.states[sid].snapshot == snapshot && db.states[sid].sequence + 1 == sequence
  {
  }

  lemma ApplyEachSnoc(db: Db, sid: SourceId, log: Log, m: SyncMessage, clock: nat -> Time)
    ensures ApplyEach(db, sid, log + [m], clock) ==
            var before := ApplyEach(db, sid, log, clock);
            if before.None? || sid !in before.value.sources then None
            else
              var r := Apply(before.value, sid, m, clock(|log|));
              if r.Accepted? then Some(r.db) else if r.Replayed? then before else None
  {
  }

  lemma AwaitedIsNoReplay(db: Db, sid: SourceId, manifest: Manifest, sequence: nat, snapshot: Option<string>, m: SyncMessage, now: Time)
    requires sid in db.sources && Awaits(db, sid, manifest, sequence, snapshot) && m.sequence == sequence
    ensures !Apply(db, sid, m, now).Replayed?
  {
    hide Operate, ScreenError;
  }

  lemma BeginSucceeds(db: Db, sid: SourceId, manifest: Manifest, id: SnapshotId, first: nat, clock: nat -> Time)
    requires 1 <= first && Awaits(db, sid, manifest, first, None)
    requires Invariant(db)
    ensures sid in db.sources && PagesAcceptable(db.sources, sid, manifest, [], clock)
    ensures var r := ApplyEach(db, sid, Opening(id, first, []), clock);
            r.Some? && Opened(db, r.value, sid, manifest, id, first + 1) && Invariant(r.value)
  {
    AwaitsSource(db, sid, manifest, first, None);
    Delivery.NumberedAlways(db, sid);
    OpenGenerationIsFresh(db, sid, id);
    AwaitsNext(db, sid, manifest, id, BeginMessage(id, first), clock(0), None);
    AcceptedKeeps(db, sid, BeginMessage(id, first), clock(0));
    ApplyEachSnoc(db, sid, [], BeginMessage(id, first), clock);
    assert [] + [BeginMessage(id, first)] == Opening(id, first, []);
  }

  /** Acceptability of the last page, given the earlier ones. */
  lemma AcceptablePages(sources: map<SourceId, Source>, sid: SourceId, manifest: Manifest, pages: seq<ConnectorPage>, clock: nat -> Time)
    requires sid in sources && pages != []
    ensures var front, last, n := pages[..|pages| - 1], pages[|pages| - 1], |pages| - 1;
            PagesAcceptable(sources, sid, manifest, pages, clock) <==>
            && PagesAcceptable(sources, sid, manifest, front, clock)
            && PageValid(sources, sid, manifest, pages, n, clock)
            && UpsertAll(sources[sid].tenant, UpsertAll(sources[sid].tenant, map[], AllFacts(front)).value,
                         last.objects + last.relationships).Success?
  {
    var front, last := pages[..|pages| - 1], pages[|pages| - 1];
    UpsertAllAppend(sources[sid].tenant, map[], AllFacts(front), last.objects + last.relationships);
    forall k | 0 <= k < |front|
      ensures PageValid(sources, sid, manifest, pages, k, clock) <==> PageValid(sources, sid, manifest, front, k, clock)
    {
    }
  }

  /** The last page is accepted if and only if it is valid and fits on top of what the earlier ones staged. */
  lemma NextPage(
    db: Db, begun: Db, sid: SourceId, manifest: Manifest, id: SnapshotId, first: nat, pages: seq<ConnectorPage>,
    clock: nat -> Time, m: SyncMessage)
    requires 1 <= first && sid in db.sources && sid in begun.sources && pages != []
    requires m == PageMessage(id, first + |pages|, pages[|pages| - 1])
    requires Opened(db, begun, sid, manifest, id, first + |pages|) && Numbered(begun, sid)
    requires UpsertAll(db.sources[sid].tenant, map[], AllFacts(pages[..|pages| - 1])) == Success(begun.Facts(sid, id))
    ensures Apply(begun, sid, m, clock(|pages|)).Accepted? <==>
              && PageValid(db.sources, sid, manifest, pages, |pages| - 1, clock)
              && UpsertAll(db.sources[sid].tenant, begun.Facts(sid, id), pages[|pages| - 1].objects + pages[|pages| - 1].relationships).Success?
    ensures Apply(begun, sid, m, clock(|pages|)).Accepted? ==>
              Opened(db, Apply(begun, sid, m, clock(|pages|)).db, sid, manifest, id, first + |pages| + 1)
  {
  }

  /** What an open snapshot has staged is what the upserts of all its pages would leave. */
  lemma OpenedFacts(
    db: Db, begun: Db, sid: SourceId, manifest: Manifest, id: SnapshotId, first: nat, front: seq<ConnectorPage>, clock: nat -> Time)
    requires 1 <= first && sid in db.sources && sid in db.states && db.states[sid].sequence + 1 == first
    requires Opened(db, begun, sid, manifest, id, first + |front| + 1)
    requires ApplyEach(db, sid, Opening(id, first, front), clock) == Some(begun)
    requires UpsertAll(db.sources[sid].tenant, map[], AllFacts(front)).Success?
    requires Invariant(db) && Invariant(begun)
    ensures begun.Facts(sid, id) == UpsertAll(db.sources[sid].tenant, map[], AllFacts(front)).value
  {
    hide Invariant, Awaits, Numbered, UpsertAll, ApplyEach, Opening, AllFacts, LogOf, Delivery.LogIs, ReferenceStaged, Overlay,
         ReferenceSnapshot, Delivery.NumberedOn;
    var tenant := db.sources[sid].tenant;
    AwaitsSource(begun, sid, manifest, first + |front| + 1, Some(id));
    Delivery.NumberedAlways(db, sid);
    LogIsLogOf(db, sid);
    LengthOfLog(db, sid, LogOf(db, sid));
    SnapshotIsNumbered(LogOf(db, sid), id, first, front);
    EachExtends(db, sid, LogOf(db, sid), Opening(id, first, front), clock);
    OpeningStages(tenant, LogOf(db, sid), id, first, front);
    StagedOfLog(begun, sid, LogOf(db, sid) + Opening(id, first, front));
    UpsertIsOverlay(tenant, map[], AllFacts(front));
  }

  lemma StagedOfLog(db: Db, sid: SourceId, log: Log)
    requires sid in db.sources && sid in db.states && db.states[sid].snapshot.Some?
    requires Delivery.LogIs(db, sid, log)
    requires Invariant(db)
    ensures db.Facts(sid, db.states[sid].snapshot.value) == ReferenceStaged(db.sources[sid].tenant, log)
  {
    InvariantParts(db);
    hide Invariant, LogInvariant, GraphInvariant, WellFormed, Refines, Numbered, LogOf, ReferenceStaged, ReferenceLive;
    RefinesOf(db, sid);
    HeldFacts(db, sid);
  }

  /** A whole scan is accepted if and only if every page is acceptable and none of the objects it ends up with has its
      kind and name taken by a row that is not the source's own. */
  lemma ScanSucceedsExactly(
    db: Db, sid: SourceId, manifest: Manifest, id: SnapshotId, first: nat, pages: seq<ConnectorPage>, clock: nat -> Time)
    requires 1 <= first && Awaits(db, sid, manifest, first, None) && sid in db.sources
    requires Invariant(db)
    ensures ApplyEach(db, sid, Snapshot(id, first, pages), clock).Some? <==>
            && PagesAcceptable(db.sources, sid, manifest, pages, clock)
            && !Clashes(db, sid, Overlay(db.sources[sid].tenant, map[], AllFacts(pages)))
  {
    OpeningSucceeds(db, sid, manifest, id, first, pages, clock);
    var opening, m := Opening(id, first, pages), CompleteMessage(id, first + |pages| + 1);
    ApplyEachSnoc(db, sid, opening, m, clock);
    if ApplyEach(db, sid, opening, clock).Some? {
      var begun := ApplyEach(db, sid, opening, clock).value;
      AwaitedIsNoReplay(begun, sid, manifest, first + |pages| + 1, Some(id), m, clock(|opening|));
      StagedScan(db, begun, sid, manifest, id, first, pages, clock);
      SyncFrames.SameClashes(db, begun, sid, begun.Facts(sid, id));
    }
  }

  /** What the open snapshot holds once all pages are in. */
  lemma StagedScan(
    db: Db, begun: Db, sid: SourceId, manifest: Manifest, id: SnapshotId, first: nat, pages: seq<ConnectorPage>, clock: nat -> Time)
    requires 1 <= first && sid in db.sources && Awaits(db, sid, manifest, first, None)
    requires ApplyEach(db, sid, Opening(id, first, pages), clock) == Some(begun)
    requires PagesAcceptable(db.sources, sid, manifest, pages, clock) && Opened(db, begun, sid, manifest, id, first + |pages| + 1)
    requires Invariant(db) && Invariant(begun)
    ensures begun.Facts(sid, id) == Overlay(db.sources[sid].tenant, map[], AllFacts(pages))
  {
    hide Invariant, Opened, ApplyEach, Opening, FactsAt, Overlay, UpsertAll, PageValid;
    OpenedFacts(db, begun, sid, manifest, id, first, pages, clock);
    UpsertIsOverlay(db.sources[sid].tenant, map[], AllFacts(pages));
  }

  // ------------------------------------------------------------------ The import as the program performs it

  /** The messages of a scan, numbered one by one, and whether it came to its end: none at all when visibility is
      partial, no complete message when the provider failed. */
  method CollectSnapshot(connector: Connector, id: SnapshotId, first: nat) returns (log: Log, whole: bool)
    requires 1 <= first
    ensures whole <==>
              connector.coverageComplete && SnapshotCapability in connector.manifest.capabilities && !connector.failed
    ensures log ==
            if whole then Snapshot(id, first, connector.pages)
            else if connector.coverageComplete && SnapshotCapability in connector.manifest.capabilities then
              Opening(id, first, connector.pages)
            else []
  {
    hide PageMessage, BeginMessage, CompleteMessage;
    if !connector.coverageComplete || SnapshotCapability !in connector.manifest.capabilities {
      return [], false;
    }
    var pages, sequence := connector.pages, first;
    log := [BeginMessage(id, sequence)];
    for i := 0 to |pages|
      invariant sequence == first + i && log == Opening(id, first, pages[..i])
    {
      assert pages[..i + 1][..i] == pages[..i];
      sequence := sequence + 1;
      log := log + [PageMessage(id, sequence, pages[i])];
    }
    assert pages[..|pages|] == pages;
    if connector.failed {
      return log, false;
    }
    return log + [CompleteMessage(id, sequence + 1)], true;
  }

  method ApplyAll(s: SyncSession.Session, sid: SourceId, log: Log, clock: nat -> Time) returns (ok: bool)
    requires sid in s.sources && Invariant(s.Tables())
    modifies s
    ensures match ApplyEach(old(s.Tables()), sid, log, clock)
            case None => !ok
            case Some(after) => ok && s.Tables() == after && sid in s.sources && Invariant(s.Tables())
  {
    hide Invariant, Apply;
    ghost var before := s.Tables();
    for i := 0 to |log|
      invariant ApplyEach(before, sid, log[..i], clock) == Some(s.Tables())
      invariant sid in s.sources && Invariant(s.Tables())
    {
      ghost var db := s.Tables();
      ApplyEachSnoc(before, sid, log[..i], log[i], clock);
      assert log[..i] + [log[i]] == log[..i + 1];
      InvariantParts(db);
      var r := s.ApplyMessage(sid, log[i], clock(i));
      if r.Rejected? {
        EachFailsEarly(before, sid, log, clock, i + 1);
        return false;
      }
      if Apply(db, sid, log[i], clock(i)).Accepted? {
        AcceptedKeeps(db, sid, log[i], clock(i));
        Delivery.SourceStays(db, sid, log[i], clock(i));
      }
    }
    assert log[..|log|] == log;
    return true;
  }

  lemma {:induction false} EachFailsEarly(db: Db, sid: SourceId, log: Log, clock: nat -> Time, i: nat)
    requires i <= |log| && ApplyEach(db, sid, log[..i], clock).None?
    ensures ApplyEach(db, sid, log, clock).None?
  {
    hide Apply;
    if i < |log| {
      assert log[..|log| - 1][..i] == log[..i];
      EachFailsEarly(db, sid, log[..|log| - 1], clock, i);
    } else {
      assert log[..i] == log;
    }
  }

  /** Registers the source and its manifest if this is the first run. */
  method Register(s: SyncSession.Session, sid: SourceId, request: Request, manifest: Manifest) returns (ok: bool)
    requires Invariant(s.Tables())
    modifies s`sources, s`states
    ensures match Registered(old(s.Tables()), sid, request, manifest)
            case None => !ok
            case Some(start) => ok && s.Tables() == start && Invariant(s.Tables())
  {
    hide Invariant;
    ghost var before := s.Tables();
    if sid in s.sources {
      return true;
    }
    s.sources := s.sources[sid := Source(request.tenant, request.provider, request.namespace, true, None)];
    if sid in s.states || exists f :: f in manifest.foreignReferences && (f !in s.sources || s.sources[f].tenant != request.tenant) {
      return false;
    }
    s.states := s.states[sid := ConnectorState(manifest, 0, None, PartialCoverage)];
    RegisteredKeeps(before, sid, request, manifest);
    return true;
  }

  /** The import proper. After an error the tables may be half-changed. */
  method RunImport(
    s: SyncSession.Session, sid: SourceId, request: Request, connector: Connector, id: SnapshotId, clock: nat -> Time)
    returns (r: Result<nat, ImportError>)
    requires Invariant(s.Tables())
    modifies s
    ensures match Import(old(s.Tables()), sid, request, connector, id, clock)
            case Failure(e) => r == Failure(e)
            case Success(result) => r == Success(result.1) && s.Tables() == result.0
  {
    hide Invariant, Snapshot, ApplyEach, Registered, FactsAt;
    var ok := Register(s, sid, request, connector.manifest);
    if !ok {
      return Failure(RegistrationRefused);
    }
    if sid !in s.sources || !Configured(s.sources[sid], request) {
      return Failure(ConfigurationDiffers);
    }
    if sid !in s.states || s.states[sid].manifest != connector.manifest {
      return Failure(ManifestDiffers);
    }
    var abort := AbandonedAbort(s.states[sid]);
    ok := ApplyAll(s, sid, abort, clock);
    if !ok || sid !in s.states {
      return Failure(AbortRefused);
    }
    var messages, whole := CollectSnapshot(connector, id, s.states[sid].sequence + 1);
    ok := ApplyAll(s, sid, messages, Shifted(clock, |abort|));
    if !ok {
      return Failure(MessageRefused);
    }
    if !whole {
      return Failure(ScanFailed);
    }
    return Success(|s.Tables().Facts(sid, LIVE)|);
  }

  /** One transaction per source: a failed import leaves the previous inventory intact. */
  method ImportSource(
    s: SyncSession.Session, sid: SourceId, request: Request, connector: Connector, id: SnapshotId, clock: nat -> Time)
    returns (r: Result<nat, ImportError>)
    requires Invariant(s.Tables())
    modifies s
    ensures match Import(old(s.Tables()), sid, request, connector, id, clock)
            case Failure(e) => r == Failure(e) && s.Tables() == old(s.Tables())
            case Success(result) => r == Success(result.1) && s.Tables() == result.0
  {
    hide Invariant, Import;
    var before := s.Tables();
    r := RunImport(s, sid, request, connector, id, clock);
    if r.Failure? {
      s.Rollback(before);
    }
  }
}
