/** Exactly which imports succeed and what the others fail for, in terms of the tables, the connector and its pages. */
module ImportVerdicts {
  import opened Wrappers
  import opened Contracts
  import opened Store
  import opened Sync
  import opened SyncHistory
  import opened ControlPlane
  import opened SyncVerdicts
  import opened SnapshotImport
  import Delivery
  import SyncFrames

  // ------------------------------------------------------------------ The messages of a scan

  /** Begin, each page with its own records, complete; numbered one by one and all under one snapshot. */
  lemma SnapshotMessages(id: SnapshotId, first: nat, pages: seq<ConnectorPage>, k: nat)
    requires 1 <= first && k <= |pages| + 1
    ensures |Snapshot(id, first, pages)| == |pages| + 2
    ensures var m := Snapshot(id, first, pages)[k];
            && m.sequence == first + k && m.snapshotId == id && m.tombstones == []
            && m.operation == (if k == 0 then Begin else if k <= |pages| then Page else Complete)
            && (if 0 < k <= |pages| then
                  m.objects == pages[k - 1].objects && m.relationships == pages[k - 1].relationships && m.bytes == pages[k - 1].bytes
                else m.objects == [] && m.relationships == [] && m.bytes == 256)
            && m.coverage == if k <= |pages| then PartialCoverage else CompleteCoverage
  {
    if k <= |pages| {
      OpeningMessages(id, first, pages, k);
    }
  }

  lemma {:induction false} OpeningMessages(id: SnapshotId, first: nat, pages: seq<ConnectorPage>, k: nat)
    requires 1 <= first && k <= |pages|
    ensures Opening(id, first, pages)[k] ==
            if k == 0 then BeginMessage(id, first) else PageMessage(id, first + k, pages[k - 1])
  {
    if k < |pages| {
      OpeningMessages(id, first, pages[..|pages| - 1], k);
    }
  }

  // ------------------------------------------------------------------ Which scans are accepted

  /** Each page is small enough, each of its records is admissible when the page is handled, and no record is older than
      one written before it under its key. Page `k` is handled at `clock(k + 1)`. */
  ghost predicate PagesAccepted(
    sources: map<SourceId, Source>, sid: SourceId, manifest: Manifest, pages: seq<ConnectorPage>, clock: nat -> Time)
    requires sid in sources
  {
    && (forall k :: 0 <= k < |pages| ==>
          && pages[k].bytes <= 2097152
          && AllAdmissible(sources, sid, manifest, pages[k].objects + pages[k].relationships, clock(k + 1)))
    && NoneSuperseded(sources[sid].tenant, map[], AllFacts(pages))
  }

  lemma PagesExactly(sources: map<SourceId, Source>, sid: SourceId, manifest: Manifest, pages: seq<ConnectorPage>, clock: nat -> Time)
    requires sid in sources
    ensures PagesAcceptable(sources, sid, manifest, pages, clock) <==> PagesAccepted(sources, sid, manifest, pages, clock)
  {
    hide FactsError, AllAdmissible, UpsertAll, Superseded, AllFacts;
    forall k | 0 <= k < |pages|
      ensures PageValid(sources, sid, manifest, pages, k, clock) <==>
                && pages[k].bytes <= 2097152
                && AllAdmissible(sources, sid, manifest, pages[k].objects + pages[k].relationships, clock(k + 1))
    {
      FactsErrorExactly(sources, sid, manifest, pages[k].objects + pages[k].relationships, clock(k + 1));
    }
    UpsertsFailExactly(sources[sid].tenant, map[], AllFacts(pages));
  }

  /** No object that the scan ends up with has its kind and name taken by a row that is not the source's own. */
  ghost predicate NamesFree(db: Db, sid: SourceId, pages: seq<ConnectorPage>)
    requires sid in db.sources
  {
    !TakenByOther(db, sid, Overlay(db.sources[sid].tenant, map[], AllFacts(pages)))
  }

  lemma CollectedSucceeds(db: Db, sid: SourceId, connector: Connector, id: SnapshotId, first: nat, clock: nat -> Time)
    requires 1 <= first && Awaits(db, sid, connector.manifest, first, None) && sid in db.sources && Starts(connector)
    requires Invariant(db)
    ensures ApplyEach(db, sid, Collected(connector, id, first), clock).Some? <==>
            && PagesAccepted(db.sources, sid, connector.manifest, connector.pages, clock)
            && (connector.failed || NamesFree(db, sid, connector.pages))
  {
    hide Awaits, ApplyEach, Snapshot, Opening, PagesAcceptable, PagesAccepted, Clashes, TakenByOther;
    PagesExactly(db.sources, sid, connector.manifest, connector.pages, clock);
    if connector.failed {
      OpeningSucceeds(db, sid, connector.manifest, id, first, connector.pages, clock);
    } else {
      ScanSucceedsExactly(db, sid, connector.manifest, id, first, connector.pages, clock);
      ClashesExactly(db, sid, Overlay(db.sources[sid].tenant, map[], AllFacts(connector.pages)));
    }
  }

  // ------------------------------------------------------------------ Which imports succeed

  /** The registrations with the source entered, if it was not there. */
  ghost function Entered(db: Db, sid: SourceId, request: Request): (r: Db)
    ensures sid in r.sources
  {
    if sid in db.sources then db
    else db.(sources := db.sources[sid := Source(request.tenant, request.provider, request.namespace, true, None)])
  }

  /** An earlier run left a snapshot open. */
  ghost predicate LeftOpen(db: Db, sid: SourceId) {
    sid in db.states && db.states[sid].snapshot.Some? && db.states[sid].snapshot.value != ""
  }

  /** The reason an import fails for: the first of these that is there. */
  ghost predicate IsImportReason(
    db: Db, sid: SourceId, request: Request, connector: Connector, clock: nat -> Time, e: ImportError)
  {
    var entered := Entered(db, sid, request);
    var source, manifest := entered.sources[sid], connector.manifest;
    if sid !in db.sources
       && exists f :: f in manifest.foreignReferences && (f !in entered.sources || entered.sources[f].tenant != request.tenant) then
      e == RegistrationRefused
    else if source.tenant != request.tenant || source.provider != request.provider
            || source.allowedNamespace != request.namespace || source.enabled == false then
      e == ConfigurationDiffers
    else if sid in db.sources && (sid !in db.states || db.states[sid].manifest != manifest) then e == ManifestDiffers
    else if SnapshotCapability !in manifest.capabilities then e == if LeftOpen(db, sid) then AbortRefused else ScanFailed
    else if connector.coverageComplete == false then e == ScanFailed
    else if !PagesAccepted(entered.sources, sid, manifest, connector.pages, Shifted(clock, if LeftOpen(db, sid) then 1 else 0)) then
      e == MessageRefused
    else if connector.failed == true then e == ScanFailed
    else !NamesFree(entered, sid, connector.pages) && e == MessageRefused
  }

  lemma {:induction false} OpenHasName(log: Log)
    ensures ReferenceSnapshot(log) != Some("")
  {
    if log != [] {
      OpenHasName(log[..|log| - 1]);
    }
  }

  lemma OpenIsNamed(db: Db, sid: SourceId)
    requires sid in db.sources && sid in db.states
    requires Invariant(db)
    ensures db.states[sid].snapshot != Some(LIVE) && db.states[sid].snapshot != Some("")
  {
    InvariantParts(db);
    hide Invariant, GraphInvariant, Numbered, LogOf, ReferenceLive, ReferenceSnapshot, ReferenceStaged, ReferenceCoverage,
         LogInvariant;
    RefinesOf(db, sid);
    SumOf(db, sid);
    OpenHasName(LogOf(db, sid));
  }

  /** The source as it is when its scan begins: nothing open, rows and registrations as `start` had them. */
  ghost predicate Ready(start: Db, ready: Db, sid: SourceId, manifest: Manifest) {
    && SameRows(start, ready) && sid in start.sources && sid in ready.states
    && Awaits(ready, sid, manifest, ready.states[sid].sequence + 1, None) && Invariant(ready)
  }

  /** What an earlier run left open is aborted if and only if the connector may send snapshots at all. */
  lemma AbortExactly(start: Db, sid: SourceId, manifest: Manifest, clock: nat -> Time)
    requires sid in start.sources && start.sources[sid].enabled && sid in start.states && start.states[sid].manifest == manifest
    requires Invariant(start)
    ensures var r := ApplyEach(start, sid, AbandonedAbort(start.states[sid]), clock);
            && (r.Some? <==> !LeftOpen(start, sid) || SnapshotCapability in manifest.capabilities)
            && (r.Some? ==> sid in r.value.states)
            && (r.Some? && SnapshotCapability in manifest.capabilities ==> Ready(start, r.value, sid, manifest))
  {
    hide Invariant, Apply, Ready, Numbered, ApplyEach, WellFormed, LogInvariant, GraphInvariant, LogOf, Operate;
    OpenIsNamed(start, sid);
    Delivery.NumberedAlways(start, sid);
    if LeftOpen(start, sid) {
      var m := AbortMessage(start.states[sid].snapshot.value, start.states[sid].sequence + 1);
      OnlyMessage(start, sid, m, clock);
      AbortStep(start, sid, manifest, m, clock(0));
    } else {
      NothingToApply(start, sid, clock);
      NothingOpen(start, sid, manifest);
    }
  }

  lemma OnlyMessage(db: Db, sid: SourceId, m: SyncMessage, clock: nat -> Time)
    requires sid in db.sources
    ensures ApplyEach(db, sid, [m], clock) ==
            var r := Apply(db, sid, m, clock(0));
            if r.Accepted? then Some(r.db) else if r.Replayed? then Some(db) else None
  {
    hide Apply;
    assert [m][..0] == [];
  }

  lemma NothingOpen(start: Db, sid: SourceId, manifest: Manifest)
    requires sid in start.sources && start.sources[sid].enabled && sid in start.states && start.states[sid].manifest == manifest
    requires Numbered(start, sid) && start.states[sid].snapshot == None
    requires Invariant(start)
    ensures SnapshotCapability in manifest.capabilities ==> Ready(start, start, sid, manifest)
  {
    hide Invariant;
  }

  lemma AbortStep(start: Db, sid: SourceId, manifest: Manifest, m: SyncMessage, now: Time)
    requires sid in start.sources && start.sources[sid].enabled && sid in start.states && start.states[sid].manifest == manifest
    requires LeftOpen(start, sid) && start.states[sid].snapshot != Some(LIVE) && Numbered(start, sid)
    requires m == AbortMessage(start.states[sid].snapshot.value, start.states[sid].sequence + 1)
    requires Invariant(start)
    ensures var r := Apply(start, sid, m, now);
            && !r.Replayed? && (r.Accepted? <==> SnapshotCapability in manifest.capabilities)
            && (r.Accepted? ==> sid in r.db.states && Ready(start, r.db, sid, manifest))
  {
    hide Invariant;
    if Apply(start, sid, m, now).Accepted? {
      AcceptedKeeps(start, sid, m, now);
    }
  }

  lemma ReadySucceeds(start: Db, ready: Db, sid: SourceId, connector: Connector, id: SnapshotId, clock: nat -> Time)
    requires Ready(start, ready, sid, connector.manifest) && Starts(connector)
    ensures sid in ready.states
    ensures ApplyEach(ready, sid, Collected(connector, id, ready.states[sid].sequence + 1), clock).Some? <==>
            && PagesAccepted(start.sources, sid, connector.manifest, connector.pages, clock)
            && (connector.failed || NamesFree(start, sid, connector.pages))
  {
    hide ApplyEach, Collected, PagesAccepted, TakenByOther, Clashes, Invariant;
    CollectedSucceeds(ready, sid, connector, id, ready.states[sid].sequence + 1, clock);
    var live := Overlay(start.sources[sid].tenant, map[], AllFacts(connector.pages));
    SyncFrames.SameClashes(start, ready, sid, live);
    ClashesExactly(start, sid, live);
    ClashesExactly(ready, sid, live);
  }

  /** From the checks of the registration on. */
  lemma StartedExactly(
    db: Db, start: Db, sid: SourceId, request: Request, connector: Connector, id: SnapshotId, clock: nat -> Time, e: ImportError)
    requires Registered(db, sid, request, connector.manifest) == Some(start) && sid in start.sources
    requires sid in start.states && start.states[sid].manifest == connector.manifest && Configured(start.sources[sid], request)
    requires Invariant(start)
    ensures Import(db, sid, request, connector, id, clock) == Failure(e) <==>
            if SnapshotCapability !in connector.manifest.capabilities then e == if LeftOpen(start, sid) then AbortRefused else ScanFailed
            else if connector.coverageComplete == false then e == ScanFailed
            else if !PagesAccepted(start.sources, sid, connector.manifest, connector.pages,
                                   Shifted(clock, if LeftOpen(start, sid) then 1 else 0)) then
              e == MessageRefused
            else if connector.failed == true then e == ScanFailed
            else !NamesFree(start, sid, connector.pages) && e == MessageRefused
  {
    hide ApplyEach, Registered, PagesAccepted, NamesFree, Shifted, Invariant, Ready, Snapshot, Opening;
    AbortExactly(start, sid, connector.manifest, clock);
    var abort := AbandonedAbort(start.states[sid]);
    assert |abort| == if LeftOpen(start, sid) then 1 else 0;
    var r := ApplyEach(start, sid, abort, clock);
    if r.Some? && Starts(connector) {
      ReadySucceeds(start, r.value, sid, connector, id, Shifted(clock, |abort|));
    } else if r.Some? {
      NothingToApply(r.value, sid, Shifted(clock, |abort|));
    }
  }

  lemma NothingToApply(db: Db, sid: SourceId, clock: nat -> Time)
    ensures ApplyEach(db, sid, [], clock) == Some(db)
  {
  }

  /** The source is entered and its manifest registered exactly if every source that the manifest refers to is there, in
      the tenant. */
  lemma EnteredExactly(db: Db, sid: SourceId, request: Request, manifest: Manifest)
    requires Invariant(db)
    ensures var entered, r := Entered(db, sid, request), Registered(db, sid, request, manifest);
            if sid in db.sources then r == Some(db)
            else
              && (r.None? <==> exists f :: f in manifest.foreignReferences
                                           && (f !in entered.sources || entered.sources[f].tenant != request.tenant))
              && (r.Some? ==>
                    && SameRows(entered, r.value) && !LeftOpen(r.value, sid) && !LeftOpen(db, sid)
                    && sid in r.value.states && r.value.states[sid].manifest == manifest)
  {
    hide LogInvariant, GraphInvariant;
  }

  lemma SameNames(db: Db, after: Db, sid: SourceId, pages: seq<ConnectorPage>)
    requires sid in db.sources && SameRows(db, after)
    ensures NamesFree(db, sid, pages) <==> NamesFree(after, sid, pages)
  {
    hide Clashes, TakenByOther, Overlay, AllFacts;
    var live := Overlay(db.sources[sid].tenant, map[], AllFacts(pages));
    SyncFrames.SameClashes(db, after, sid, live);
    ClashesExactly(db, sid, live);
    ClashesExactly(after, sid, live);
  }

  /** An import that gets no further than the registration. */
  lemma NotStarted(
    db: Db, sid: SourceId, request: Request, connector: Connector, id: SnapshotId, clock: nat -> Time, e: ImportError)
    requires var r := Registered(db, sid, request, connector.manifest);
             r.Some? ==> sid in r.value.sources && !(&& Configured(r.value.sources[sid], request) && sid in r.value.states
                                                     && r.value.states[sid].manifest == connector.manifest)
    ensures Import(db, sid, request, connector, id, clock) == Failure(e) <==>
            var r := Registered(db, sid, request, connector.manifest);
            e == if r.None? then RegistrationRefused
                 else if Configured(r.value.sources[sid], request) then ManifestDiffers
                 else ConfigurationDiffers
  {
    hide ApplyEach, Collected, Shifted, Registered, AbandonedAbort, Starts, Finishes;
  }

  /** From every reachable state, an import fails for exactly the reason that the tables, the connector and its pages
      give, and succeeds if there is none. */
  lemma ImportExactly(
    db: Db, sid: SourceId, request: Request, connector: Connector, id: SnapshotId, clock: nat -> Time, e: ImportError)
    requires Invariant(db)
    ensures Import(db, sid, request, connector, id, clock) == Failure(e) <==> IsImportReason(db, sid, request, connector, clock, e)
  {
    hide Import, PagesAccepted, NamesFree, Shifted, Invariant, Registered, Numbered, LogOf;
    EnteredExactly(db, sid, request, connector.manifest);
    var r := Registered(db, sid, request, connector.manifest);
    if r.Some? && Configured(r.value.sources[sid], request) && sid in r.value.states
       && r.value.states[sid].manifest == connector.manifest {
      RegisteredKeeps(db, sid, request, connector.manifest);
      StartedExactly(db, r.value, sid, request, connector, id, clock, e);
      SameNames(Entered(db, sid, request), r.value, sid, connector.pages);
    } else {
      NotStarted(db, sid, request, connector, id, clock, e);
    }
  }
}
