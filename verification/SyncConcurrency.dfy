/** Concurrent handlers of one source: each reads the receipt and the state in one database state and claims the
    sequence number by compare-and-swap in a later one. The claim makes the stale reads as good as fresh ones. */
module SyncConcurrency {
  import opened Wrappers
  import opened Contracts
  import opened Store
  import opened Sync
  import opened SyncHistory
  import opened ControlPlane
  import SyncFrames
  import Ingestion
  import SyncVerdicts

  /** A handler that read `seen` and commits against `db`. */
  function ApplyStale(seen: Db, db: Db, sid: SourceId, m: SyncMessage, now: Time): Outcome
    requires sid in seen.sources && sid in db.sources
  {
    var rid := ReceiptId(sid, m.sequence);
    if !seen.sources[sid].enabled then Refused(SourceDisabled)
    else if m.bytes > MAX_MESSAGE_BYTES then Refused(MessageTooLarge)
    else if rid in seen.receipts then
      if seen.receipts[rid].digest != m then Refused(SequenceReused) else Replayed(seen.receipts[rid].result)
    else if sid !in seen.states then Refused(NotRegistered)
    else
      var state := seen.states[sid];
      if m.sequence != state.sequence + 1 then Refused(SequenceGap)
      else if sid !in db.states || db.states[sid].sequence != state.sequence then Refused(ConcurrentSync)
      else
        var e := ScreenError(db, sid, state.manifest, m, now);
        if e.Some? then Refused(e.value)
        else
          match Operate(db, sid, state, m, now)
          case Failure(error) => Refused(error)
          case Success(after) =>
            var ack := Ack(sid, m.sequence, m.operation, after.states[sid].coverage);
            Accepted(after.(receipts := after.receipts[rid := Receipt(m, ack)]), ack)
  }

  /** Between the two states the source's state is the same or its sequence number has moved on, and its
      receipts have only been added to. */
  ghost predicate MovedOn(seen: Db, db: Db, sid: SourceId) {
    && (sid in seen.sources ==> sid in db.sources)
    && (sid in seen.states ==>
          && sid in db.states
          && (db.states[sid] == seen.states[sid] || db.states[sid].sequence > seen.states[sid].sequence))
    && (forall i: nat :: ReceiptId(sid, i) in seen.receipts ==>
          ReceiptId(sid, i) in db.receipts && db.receipts[ReceiptId(sid, i)] == seen.receipts[ReceiptId(sid, i)])
  }

  lemma MessageMovesOn(db: Db, sid: SourceId, m: SyncMessage, now: Time, s: SourceId)
    requires sid in db.sources && Apply(db, sid, m, now).Accepted?
    ensures MovedOn(db, Apply(db, sid, m, now).db, s)
  {
    if s == sid {
      AcceptedAdvances(db, sid, m, now);
      hide Apply;
      var changed := SyncFrames.OperationShape(db, sid, m, now);
      hide Publish;
    } else {
      hide Apply;
      SyncFrames.AcceptedFrame(db, sid, m, now, s);
    }
  }

  lemma AcceptedAdvances(db: Db, sid: SourceId, m: SyncMessage, now: Time)
    requires sid in db.sources && Apply(db, sid, m, now).Accepted?
    ensures sid in db.states && sid in Apply(db, sid, m, now).db.states
    ensures Apply(db, sid, m, now).db.states[sid].sequence == db.states[sid].sequence + 1
  {
    hide Operate, ScreenError;
    OperateStates(db, sid, m, now);
  }

  lemma EventMovesOn(db: Db, e: Event, sid: SourceId)
    ensures MovedOn(db, Next(db, e), sid)
  {
    hide Apply, Ingestion.UpsertBatch;
    if e.Message? && e.sid in db.sources && Apply(db, e.sid, e.m, e.now).Accepted? {
      MessageMovesOn(db, e.sid, e.m, e.now, sid);
    }
  }

  lemma {:induction false} RunMovesOn(db: Db, events: seq<Event>, sid: SourceId)
    ensures MovedOn(db, Run(db, events), sid)
  {
    hide Next;
    if events != [] {
      hide MovedOn;
      RunMovesOn(db, events[..|events| - 1], sid);
      EventMovesOn(Run(db, events[..|events| - 1]), events[|events| - 1], sid);
    }
  }

  /** Whatever happened since the reads, a handler that is not refused does exactly what it would have done
      had it run alone at the moment it commits. (The source's switch is read once, at the start.) */
  lemma StaleReadsAreHarmless(seen: Db, events: seq<Event>, sid: SourceId, m: SyncMessage, now: Time)
    requires sid in seen.sources && Numbered(Run(seen, events), sid)
    requires sid in Run(seen, events).sources && Run(seen, events).sources[sid].enabled
    ensures var db := Run(seen, events);
            ApplyStale(seen, db, sid, m, now).Refused? || ApplyStale(seen, db, sid, m, now) == Apply(db, sid, m, now)
  {
    hide Run, Operate, ScreenError;
    RunMovesOn(seen, events, sid);
  }

  /** A handler finds its claim lost exactly if it read the number before its message's and that number has moved on
      since. Any other refusal is one that it would have met alone, when it read or when it commits. */
  lemma ClaimLostExactly(seen: Db, events: seq<Event>, sid: SourceId, m: SyncMessage, now: Time)
    requires sid in seen.sources && sid in Run(seen, events).sources
    ensures var db := Run(seen, events);
            ApplyStale(seen, db, sid, m, now) == Refused(ConcurrentSync) <==>
            && seen.sources[sid].enabled && m.bytes <= 2097152 && ReceiptId(sid, m.sequence) !in seen.receipts
            && sid in seen.states && m.sequence == seen.states[sid].sequence + 1
            && sid in db.states && db.states[sid].sequence > seen.states[sid].sequence
    ensures var db := Run(seen, events);
            var r := ApplyStale(seen, db, sid, m, now);
            r.Refused? && r != Refused(ConcurrentSync) ==>
              || Apply(seen, sid, m, now) == r
              || (db.sources[sid].enabled && Numbered(db, sid) ==> Apply(db, sid, m, now) == r)
  {
    hide Run;
    RunMovesOn(seen, events, sid);
    if sid in Run(seen, events).states {
      NoOwnConflict(Run(seen, events), sid, m, now);
    }
    hide Operate, ScreenError;
  }

  /** A message handled alone is never refused for a lost claim. */
  lemma NoOwnConflict(db: Db, sid: SourceId, m: SyncMessage, now: Time)
    requires sid in db.sources && sid in db.states
    ensures ScreenError(db, sid, db.states[sid].manifest, m, now) != Some(ConcurrentSync)
    ensures Operate(db, sid, db.states[sid], m, now) != Failure(ConcurrentSync)
  {
    hide Operate, ScreenError;
    SyncVerdicts.ScreenExactly(db, sid, m, now, ConcurrentSync);
    SyncVerdicts.OperationReasonExactly(db, sid, m, now, ConcurrentSync);
  }

  /** At most one of the handlers that read the same sequence number gets it. */
  lemma OneClaimPerSequence(seen: Db, db: Db, events: seq<Event>, sid: SourceId, m: SyncMessage, now: Time, other: SyncMessage, later: Time)
    requires sid in seen.sources && sid in db.sources && sid in seen.states && sid in db.states
    requires MovedOn(seen, db, sid) && Apply(db, sid, m, now).Accepted? && m.sequence == seen.states[sid].sequence + 1
    requires sid in Run(Apply(db, sid, m, now).db, events).sources
    ensures !ApplyStale(seen, Run(Apply(db, sid, m, now).db, events), sid, other, later).Accepted?
  {
    hide Run, Operate, ScreenError, Apply;
    AcceptedAdvances(db, sid, m, now);
    RunMovesOn(Apply(db, sid, m, now).db, events, sid);
  }
}
