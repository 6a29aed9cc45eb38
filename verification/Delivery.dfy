/** Exactly-once effect over a channel that loses, delays, repeats and reorders.

    A client works through numbered messages and resends the current one until it is acknowledged. Meanwhile
    anything else may happen to the control plane, except that nobody else sends for this source. */
module Delivery {
  import opened Wrappers
  import opened Contracts
  import opened Store
  import opened Sync
  import opened SyncHistory
  import opened ControlPlane
  import SyncFrames
  import SyncVerdicts
  import Ingestion

  // ------------------------------------------------------------------ One call of the client

  /** What one attempt may bring: nothing, a status, or a body that is or is not an acknowledgement. */
  datatype Reply = TransportFailure | Status(code: nat) | Body(bytes: nat, receipt: Option<Ack>)

  datatype DeliveryError = TooLarge | Unavailable | Rejected | OversizedAck | InvalidAck | MismatchedAck

  const MAX_ATTEMPTS := 4
  const MAX_ACK_BYTES := 65536

  predicate Transient(r: Reply) {
    r.TransportFailure? || (r.Status? && r.code in {429, 502, 503, 504})
  }

  predicate Matches(ack: Ack, sid: SourceId, m: SyncMessage) {
    ack.sourceId == sid && ack.sequence == m.sequence && ack.operation == m.operation
  }

  /** The reading of a reply that is not transient. */
  function Verdict(r: Reply, sid: SourceId, m: SyncMessage): Result<Ack, DeliveryError>
    requires !Transient(r)
  {
    match r
    case Status(_) => Failure(DeliveryError.Rejected)
    case Body(bytes, receipt) =>
      if bytes > MAX_ACK_BYTES then Failure(OversizedAck)
      else if receipt.None? then Failure(InvalidAck)
      else if !Matches(receipt.value, sid, m) then Failure(MismatchedAck)
      else Success(receipt.value)
  }

  /** No answer at all, or a status that asks to try again. */
  ghost predicate AsksAgain(r: Reply) {
    match r
    case TransportFailure => true
    case Status(code) => code == 429 || code == 502 || code == 503 || code == 504
    case Body(_, _) => false
  }

  /** What the client makes of the last reply: an acknowledgement of this very message, of bounded size, or the error. */
  ghost predicate Concludes(reply: Reply, sid: SourceId, m: SyncMessage, r: Result<Ack, DeliveryError>) {
    match reply
    case TransportFailure => r == Failure(Unavailable)
    case Status(_) => r == Failure(if AsksAgain(reply) then Unavailable else DeliveryError.Rejected)
    case Body(bytes, receipt) =>
      if bytes > 65536 then r == Failure(OversizedAck)
      else
        match receipt
        case None => r == Failure(InvalidAck)
        case Some(ack) =>
          r == if ack.sourceId == sid && ack.sequence == m.sequence && ack.operation == m.operation
               then Success(ack) else Failure(MismatchedAck)
  }

  class SyncClient {
    const sourceId: SourceId
    var posted: seq<SyncMessage>

    constructor (sourceId: SourceId)
      ensures this.sourceId == sourceId && posted == []
    {
      this.sourceId := sourceId;
      posted := [];
    }

    /** Posts the identical message until a reply settles the matter, at most four times. `replies` is what
        the four attempts would bring. */
    method Send(m: SyncMessage, replies: seq<Reply>) returns (r: Result<Ack, DeliveryError>, attempts: nat)
      requires |replies| == 4
      modifies this
      ensures posted == old(posted) + seq(attempts, _ => m)
      ensures m.bytes > 2097152 <==> attempts == 0
      ensures attempts == 0 ==> r == Failure(TooLarge)
      ensures attempts > 0 ==>
                && attempts <= 4 && (forall i :: 0 <= i < attempts - 1 ==> AsksAgain(replies[i]))
                && (AsksAgain(replies[attempts - 1]) ==> attempts == 4)
                && Concludes(replies[attempts - 1], sourceId, m, r)
    {
      attempts := 0;
      if m.bytes > MAX_MESSAGE_BYTES {
        return Failure(TooLarge), 0;
      }
      while attempts < MAX_ATTEMPTS
        invariant attempts <= MAX_ATTEMPTS
        invariant posted == old(posted) + seq(attempts, _ => m)
        invariant forall i :: 0 <= i < attempts ==> Transient(replies[i])
      {
        posted := posted + [m];
        attempts := attempts + 1;
        var reply := replies[attempts - 1];
        if !Transient(reply) {
          return Verdict(reply, sourceId, m), attempts;
        }
      }
      return Failure(Unavailable), attempts;
    }
  }

  // ------------------------------------------------------------------ The channel

  /** The server, the messages and acknowledgements ever put on the wire, and the client's position. */
  datatype Net = Net(db: Db, sent: set<SyncMessage>, acks: set<Ack>, position: nat)

  datatype Step =
    | Post
    | Arrive(m: SyncMessage, now: Time)
    | Receive(ack: Ack)
    | Elsewhere(event: Event)

  /** An event of the control plane that is not a message of this source. */
  predicate Foreign(e: Event, sid: SourceId) {
    !(e.Message? && e.sid == sid)
  }

  /** Nothing is ever removed from the wire: what never arrives again is lost, what arrives twice is repeated. */
  ghost function Advance(n: Net, sid: SourceId, work: seq<SyncMessage>, step: Step): Net {
    match step
    case Post => if n.position < |work| then n.(sent := n.sent + {work[n.position]}) else n
    case Arrive(m, now) =>
      if m !in n.sent || sid !in n.db.sources then n
      else
        var r := Apply(n.db, sid, m, now);
        if r.Refused? then n else n.(db := if r.Accepted? then r.db else n.db, acks := n.acks + {r.ack})
    case Receive(ack) =>
      if ack in n.acks && n.position < |work| && Matches(ack, sid, work[n.position]) then n.(position := n.position + 1) else n
    case Elsewhere(event) => if Foreign(event, sid) then n.(db := Next(n.db, event)) else n
  }

  ghost function Deliver(n: Net, sid: SourceId, work: seq<SyncMessage>, steps: seq<Step>): Net {
    if steps == [] then n else Advance(Deliver(n, sid, work, steps[..|steps| - 1]), sid, work, steps[|steps| - 1])
  }

  /** The work is numbered on from the log the source already has. */
  ghost predicate NumberedOn(base: Log, work: seq<SyncMessage>) {
    forall k :: 0 <= k < |work| ==> work[k].sequence == |base| + k + 1
  }

  /** The log of the source is exactly `log`. */
  ghost predicate LogIs(db: Db, sid: SourceId, log: Log) {
    sid in db.sources && Numbered(db, sid) && LogOf(db, sid) == log
  }

  /** Nothing on the wire runs ahead of the client or of the server. */
  ghost predicate OnWire(n: Net, first: nat, work: seq<SyncMessage>, j: nat) {
    && n.position <= j <= n.position + 1 && j <= |work|
    && (forall m :: m in n.sent ==> exists k :: 0 <= k <= n.position && k < |work| && m == work[k])
    && (forall a :: a in n.acks ==> first < a.sequence <= first + j)
  }

  /** The server has applied the first `j` messages of the work, each once and in order. */
  ghost predicate InStep(n: Net, sid: SourceId, base: Log, work: seq<SyncMessage>, j: nat) {
    Invariant(n.db) && OnWire(n, |base|, work, j) && LogIs(n.db, sid, base + work[..j])
  }

  lemma LogEnds(db: Db, sid: SourceId)
    requires Numbered(db, sid)
    ensures forall i: nat :: ReceiptId(sid, i) in db.receipts <==> 1 <= i <= |LogOf(db, sid)|
    ensures ReceiptId(sid, |LogOf(db, sid)| + 1) !in db.receipts
    ensures forall i: nat :: ReceiptId(sid, i + 1) in db.receipts ==> db.receipts[ReceiptId(sid, i + 1)].digest == LogOf(db, sid)[i]
  {
  }

  lemma SameLog(db: Db, after: Db, sid: SourceId)
    requires Numbered(db, sid) && Numbered(after, sid)
    requires forall i: nat :: ReceiptId(sid, i) in db.receipts <==> ReceiptId(sid, i) in after.receipts
    requires forall i: nat :: ReceiptId(sid, i) in db.receipts ==> after.receipts[ReceiptId(sid, i)] == db.receipts[ReceiptId(sid, i)]
    ensures LogOf(db, sid) == LogOf(after, sid)
  {
    LogEnds(db, sid);
    LogEnds(after, sid);
    hide Numbered, LogOf;
    forall i | 0 <= i < |LogOf(db, sid)| ensures i < |LogOf(after, sid)| && LogOf(db, sid)[i] == LogOf(after, sid)[i] {
      assert ReceiptId(sid, i + 1) in db.receipts;
    }
  }

  lemma EventKeepsReceipts(db: Db, sid: SourceId, e: Event)
    requires Invariant(db) && sid in db.sources && Foreign(e, sid)
    ensures sid in Next(db, e).sources
    ensures forall i: nat :: ReceiptId(sid, i) in db.receipts <==> ReceiptId(sid, i) in Next(db, e).receipts
    ensures forall i: nat :: ReceiptId(sid, i) in db.receipts ==> Next(db, e).receipts[ReceiptId(sid, i)] == db.receipts[ReceiptId(sid, i)]
  {
    if e.Message? {
      hide Invariant, Apply;
      if e.sid in db.sources && Apply(db, e.sid, e.m, e.now).Accepted? {
        SyncFrames.AcceptedFrame(db, e.sid, e.m, e.now, sid);
      }
    } else {
      hide Invariant, Apply, Ingestion.UpsertBatch, Commit;
    }
  }

  lemma ForeignEventKeepsLog(db: Db, sid: SourceId, e: Event)
    requires Invariant(db) && sid in db.sources && Numbered(db, sid) && Foreign(e, sid)
    ensures Invariant(Next(db, e)) && sid in Next(db, e).sources && Numbered(Next(db, e), sid)
    ensures LogOf(Next(db, e), sid) == LogOf(db, sid)
  {
    hide *;
    NextKeeps(db, e);
    EventKeepsReceipts(db, sid, e);
    NumberedAlways(Next(db, e), sid);
    SameLog(db, Next(db, e), sid);
  }

  lemma NumberedAlways(db: Db, sid: SourceId)
    requires Invariant(db)
    ensures Numbered(db, sid)
  {
  }

  /** A message arrives that is accepted: the log grows by it. */
  lemma AcceptedExtends(db: Db, sid: SourceId, log: Log, m: SyncMessage, now: Time)
    requires Invariant(db) && LogIs(db, sid, log) && Apply(db, sid, m, now).Accepted?
    ensures Invariant(Apply(db, sid, m, now).db) && LogIs(Apply(db, sid, m, now).db, sid, log + [m])
    ensures m.sequence == |log| + 1 && Apply(db, sid, m, now).ack.sequence == m.sequence
  {
    AcceptedKeeps(db, sid, m, now);
    LogGrows(db, sid, m, now);
  }

  lemma SourceStays(db: Db, sid: SourceId, m: SyncMessage, now: Time)
    requires sid in db.sources && Apply(db, sid, m, now).Accepted?
    ensures sid in Apply(db, sid, m, now).db.sources
  {
    hide Apply;
    var changed := SyncFrames.OperationShape(db, sid, m, now);
  }

  lemma ReplayedWithin(db: Db, sid: SourceId, log: Log, m: SyncMessage, now: Time)
    requires LogIs(db, sid, log) && Apply(db, sid, m, now).Replayed?
    ensures 1 <= m.sequence <= |log| && Apply(db, sid, m, now).ack.sequence == m.sequence
  {
  }

  /** A message of the work arrives: applied once if it is next, answered from its receipt if it was applied. */
  lemma ArrivalKeepsStep(n: Net, sid: SourceId, base: Log, work: seq<SyncMessage>, j: nat, k: nat, now: Time) returns (i: nat)
    requires NumberedOn(base, work) && InStep(n, sid, base, work, j)
    requires k <= n.position && k < |work| && work[k] in n.sent
    ensures InStep(Advance(n, sid, work, Arrive(work[k], now)), sid, base, work, i)
  {
    hide Apply, Invariant, LogIs;
    i := j;
    if sid in n.db.sources {
      var r := Apply(n.db, sid, work[k], now);
      if r.Accepted? {
        AcceptedExtends(n.db, sid, base + work[..j], work[k], now);
        i := j + 1;
        assert base + work[..j] + [work[j]] == base + work[..i];
      } else if r.Replayed? {
        ReplayedWithin(n.db, sid, base + work[..j], work[k], now);
      }
    }
  }

  /** Every step keeps the server and the client in step. */
  lemma StepKeepsStep(n: Net, sid: SourceId, base: Log, work: seq<SyncMessage>, j: nat, step: Step) returns (i: nat)
    requires NumberedOn(base, work) && InStep(n, sid, base, work, j)
    ensures InStep(Advance(n, sid, work, step), sid, base, work, i)
  {
    hide Invariant, LogIs, Apply, Next;
    i := j;
    match step {
      case Post =>
      case Receive(ack) =>
      case Elsewhere(event) =>
        if Foreign(event, sid) {
          ForeignKeepsLog(n.db, sid, base + work[..j], event);
        }
      case Arrive(m, now) =>
        if m in n.sent {
          var k :| 0 <= k <= n.position && k < |work| && m == work[k];
          i := ArrivalKeepsStep(n, sid, base, work, j, k, now);
        }
    }
  }

  lemma ForeignKeepsLog(db: Db, sid: SourceId, log: Log, e: Event)
    requires Invariant(db) && LogIs(db, sid, log) && Foreign(e, sid)
    ensures Invariant(Next(db, e)) && LogIs(Next(db, e), sid, log)
  {
    hide Invariant, Next, LogOf, Numbered;
    ForeignEventKeepsLog(db, sid, e);
  }

  /** Exactly once: whatever the channel did, the server's log is the old log and then the first `j` messages of
      the work, each once and in order, where `j` is the client's position or one more. */
  lemma {:induction false} ExactlyOnce(n: Net, sid: SourceId, base: Log, work: seq<SyncMessage>, steps: seq<Step>) returns (j: nat)
    requires Invariant(n.db) && LogIs(n.db, sid, base) && NumberedOn(base, work)
    requires n.sent == {} && n.acks == {} && n.position == 0
    ensures InStep(Deliver(n, sid, work, steps), sid, base, work, j)
    ensures Deliver(n, sid, work, steps).position == |work| ==> j == |work|
  {
    hide Invariant, LogIs, Advance, NumberedOn;
    if steps == [] {
      j := 0;
      assert base + work[..0] == base;
    } else {
      var i := ExactlyOnce(n, sid, base, work, steps[..|steps| - 1]);
      j := StepKeepsStep(Deliver(n, sid, work, steps[..|steps| - 1]), sid, base, work, i, steps[|steps| - 1]);
    }
  }

  /** `Send` takes this reply, from the wire, as the acknowledgement of the current message. */
  predicate Acknowledges(n: Net, sid: SourceId, work: seq<SyncMessage>, reply: Reply) {
    && n.position < |work| && !Transient(reply) && (reply.Body? && reply.receipt.Some? ==> reply.receipt.value in n.acks)
    && Verdict(reply, sid, work[n.position]).Success?
  }

  /** The server has applied the current message and all before it, each once and in order, and nothing else. */
  ghost predicate AppliedThrough(n: Net, sid: SourceId, base: Log, work: seq<SyncMessage>) {
    n.position < |work| && LogIs(n.db, sid, base + work[..n.position + 1])
  }

  ghost predicate MovesOn(n: Net, sid: SourceId, work: seq<SyncMessage>, reply: Reply) {
    reply.Body? && reply.receipt.Some? && Advance(n, sid, work, Receive(reply.receipt.value)) == n.(position := n.position + 1)
  }

  /** What `SyncClient.Send` concludes, against what the server did: whatever the channel did before, a reply from the
      wire that it takes as the acknowledgement of the current message means that the server has applied that message,
      once and after all earlier ones, and nothing beyond it; and only such a reply moves the client on. */
  lemma AcknowledgedMeansApplied(
    n: Net, sid: SourceId, base: Log, work: seq<SyncMessage>, steps: seq<Step>, t: Net, reply: Reply)
    requires n.sent == {} && n.acks == {} && n.position == 0 && NumberedOn(base, work)
    requires Acknowledges(t, sid, work, reply)
    requires Invariant(n.db) && LogIs(n.db, sid, base) && t == Deliver(n, sid, work, steps)
    ensures AppliedThrough(t, sid, base, work)
    ensures MovesOn(t, sid, work, reply)
  {
    hide Invariant, LogIs, Deliver, Apply, Next;
    var j := ExactlyOnce(n, sid, base, work, steps);
    assert Matches(reply.receipt.value, sid, work[t.position]);
    assert work[t.position].sequence == |base| + t.position + 1;
  }

  lemma DeliverSnoc(n: Net, sid: SourceId, work: seq<SyncMessage>, steps: seq<Step>, step: Step)
    ensures Deliver(n, sid, work, steps + [step]) == Advance(Deliver(n, sid, work, steps), sid, work, step)
  {
    hide Advance;
    assert (steps + [step])[..|steps|] == steps;
  }

  /** An answer of the server, fresh or repeated, acknowledges the very message it answers. */
  lemma AnswerMatches(db: Db, sid: SourceId, m: SyncMessage, now: Time)
    requires sid in db.sources && Numbered(db, sid) && !Apply(db, sid, m, now).Refused?
    ensures var ack := Apply(db, sid, m, now).ack; ack.sourceId == sid && ack.sequence == m.sequence && ack.operation == m.operation
  {
    if Apply(db, sid, m, now).Accepted? {
      SyncVerdicts.AcknowledgedExactly(db, sid, m, now);
    }
  }

  /** However the channel behaved before, one round without a fault moves the client on, exactly unless the server refuses
      the message; and whatever others do in between takes effect. */
  lemma FaultlessRoundMovesOn(
    n: Net, sid: SourceId, base: Log, work: seq<SyncMessage>, steps: seq<Step>, e: Event, now: Time, t: Net, m: SyncMessage)
    requires n.sent == {} && n.acks == {} && n.position == 0 && NumberedOn(base, work)
    requires !(e.Message? && e.sid == sid) && t == Deliver(n, sid, work, steps + [Elsewhere(e)])
    requires t.position < |work| && m == work[t.position]
    requires Invariant(n.db) && LogIs(n.db, sid, base)
    ensures t.db == Next(Deliver(n, sid, work, steps).db, e) && sid in t.db.sources
    ensures var r, u := Apply(t.db, sid, m, now), Deliver(n, sid, work, steps + [Elsewhere(e)] + [Post] + [Arrive(m, now)]);
            if r.Refused? then u == t.(sent := t.sent + {m})
            else
              && u.db == (if r.Accepted? then r.db else t.db) && r.ack in u.acks
              && Deliver(n, sid, work, steps + [Elsewhere(e)] + [Post] + [Arrive(m, now)] + [Receive(r.ack)]) == u.(position := t.position + 1)
  {
    hide Invariant, LogIs, Deliver, Apply, Next, NumberedOn;
    var run := steps + [Elsewhere(e)];
    DeliverSnoc(n, sid, work, steps, Elsewhere(e));
    DeliverSnoc(n, sid, work, run, Post);
    DeliverSnoc(n, sid, work, run + [Post], Arrive(m, now));
    var j := ExactlyOnce(n, sid, base, work, run);
    LogHasSource(t.db, sid, base + work[..j]);
    if !Apply(t.db, sid, m, now).Refused? {
      AnswerMatches(t.db, sid, m, now);
      DeliverSnoc(n, sid, work, run + [Post] + [Arrive(m, now)], Receive(Apply(t.db, sid, m, now).ack));
    }
  }

  lemma LogHasSource(db: Db, sid: SourceId, log: Log)
    requires LogIs(db, sid, log)
    ensures sid in db.sources && Numbered(db, sid)
  {
  }

  /** When the client is done, the live facts are those of the whole work applied once, in order. */
  lemma DeliveredFacts(n: Net, sid: SourceId, base: Log, work: seq<SyncMessage>, steps: seq<Step>, after: Db)
    requires Invariant(n.db) && LogIs(n.db, sid, base) && NumberedOn(base, work)
    requires n.sent == {} && n.acks == {} && n.position == 0
    requires Deliver(n, sid, work, steps).position == |work| && after == Deliver(n, sid, work, steps).db
    ensures sid in after.sources
    ensures after.Facts(sid, LIVE) == ReferenceLive(after.sources[sid].tenant, base + work)
  {
    hide Invariant, Deliver, NumberedOn, LogIs, OnWire, ReferenceLive;
    var j := ExactlyOnce(n, sid, base, work, steps);
    assert work[..|work|] == work;
    LoggedFacts(after, sid, base + work);
  }

  lemma LoggedFacts(db: Db, sid: SourceId, log: Log)
    requires Invariant(db) && LogIs(db, sid, log)
    ensures sid in db.sources && db.Facts(sid, LIVE) == ReferenceLive(db.sources[sid].tenant, log)
  {
    hide Invariant, Refines, ReferenceLive, Numbered, LogOf;
    InvariantParts(db);
    RefinesOf(db, sid);
    HeldFacts(db, sid);
  }
}
