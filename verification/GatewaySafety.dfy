/** At-most-once effects and terminal records, over every interleaving of requests, crashes, rulings and recovery. */
module GatewaySafety {
  import opened Wrappers
  import opened Contracts
  import opened Gateway

  function OperationOf(e: Event): Option<OperationId> {
    if e.Intended? then Some(e.request.Operation()) else None
  }

  /** The approval an entry spends. */
  function SpentBy(e: Event): Option<ApprovalId> {
    match e
    case Intended(_, _, ticket) => ticket.approval
    case ReadDone(_, spent) => Some(spent)
    case _ => None
  }

  ghost predicate OneIntentPerOperation(j: seq<Entry>) {
    forall i, k :: 0 <= i < k < |j| && j[i].event.Intended? && j[k].event.Intended? ==>
      j[i].event.request.Operation() != j[k].event.request.Operation()
  }

  ghost predicate OneSpendingPerApproval(j: seq<Entry>) {
    forall i, k :: 0 <= i < k < |j| && SpentBy(j[i].event).Some? ==> SpentBy(j[i].event) != SpentBy(j[k].event)
  }

  ghost predicate OneEffectPerWorker(j: seq<Entry>) {
    forall i, k :: 0 <= i < k < |j| && j[i].event.Effected? && j[k].event.Effected? ==> j[i].event.worker != j[k].event.worker
  }

  ghost predicate HasEvent(j: seq<Entry>, e: Event) {
    exists i :: 0 <= i < |j| && j[i].event == e
  }

  ghost predicate HasIntentFor(j: seq<Entry>, op: OperationId) {
    exists i :: 0 <= i < |j| && OperationOf(j[i].event) == Some(op)
  }

  ghost predicate HasSpending(j: seq<Entry>, a: ApprovalId) {
    exists i :: 0 <= i < |j| && SpentBy(j[i].event) == Some(a)
  }

  /** An execution record exists exactly for the operations whose intent was committed. */
  ghost predicate RecordsAreIntents(s: State) {
    forall op :: op in s.executions <==> HasIntentFor(s.journal, op)
  }

  predicate IsConsumed(approvals: map<ApprovalId, Approval>, a: ApprovalId) {
    a in approvals && approvals[a].status == Consumed
  }

  /** An approval is consumed exactly if a committed entry spent it. */
  ghost predicate ConsumedIsSpent(s: State) {
    forall a :: IsConsumed(s.approvals, a) <==> HasSpending(s.journal, a)
  }

  function StageState(stage: Stage): ExecutionState {
    if stage.Intent? || stage.Granted? then Authorized else Running
  }

  /** A request in flight committed its intent, and its record is in the state its stage implies. */
  ghost predicate Booked(s: State, w: WorkerId) {
    w in s.workers && s.workers[w].HasIntent() ==>
      var r := s.workers[w].request;
      && HasEvent(s.journal, Intended(w, r, s.workers[w].phase.ticket))
      && r.Operation() in s.executions && s.executions[r.Operation()].state == StageState(s.workers[w].phase.stage)
  }

  predicate PastEffect(phase: Phase) {
    phase.Done? || phase.Crashed? || (phase.Flight? && phase.stage.Executed?)
  }

  /** An effect belongs to a committed intent, and its worker is past its effect. */
  ghost predicate Justified(s: State, i: nat) {
    i < |s.journal| && s.journal[i].event.Effected? ==>
      var e := s.journal[i].event;
      && HasEvent(s.journal[..i], Intended(e.worker, e.request, e.ticket))
      && e.worker in s.workers && PastEffect(s.workers[e.worker].phase)
  }

  ghost predicate Safe(s: State) {
    && OneIntentPerOperation(s.journal) && OneSpendingPerApproval(s.journal) && OneEffectPerWorker(s.journal)
    && RecordsAreIntents(s) && ConsumedIsSpent(s)
    && (forall w :: Booked(s, w)) && (forall i :: Justified(s, i))
  }

  // ------------------------------------------------------------------ What the invariant gives

  lemma IntentDeterminesWorker(j: seq<Entry>, e: Event, f: Event)
    requires OneIntentPerOperation(j) && HasEvent(j, e) && HasEvent(j, f)
    requires e.Intended? && f.Intended? && e.request.Operation() == f.request.Operation()
    ensures e == f
  {
  }

  lemma SpendingDeterminesIntent(j: seq<Entry>, e: Event, f: Event)
    requires OneSpendingPerApproval(j) && HasEvent(j, e) && HasEvent(j, f)
    requires SpentBy(e).Some? && SpentBy(e) == SpentBy(f)
    ensures e == f
  {
  }

  lemma EarlierEvent(j: seq<Entry>, i: nat, e: Event)
    requires i <= |j| && HasEvent(j[..i], e)
    ensures HasEvent(j, e)
  {
  }

  /** No two requests in flight share an execution record. */
  lemma OwnersAreUnique(s: State, v: WorkerId, w: WorkerId)
    requires Safe(s) && v in s.workers && w in s.workers && s.workers[v].HasIntent() && s.workers[w].HasIntent()
    requires s.workers[v].request.Operation() == s.workers[w].request.Operation()
    ensures v == w
  {
    assert Booked(s, v) && Booked(s, w);
    IntentDeterminesWorker(s.journal, Intended(v, s.workers[v].request, s.workers[v].phase.ticket),
      Intended(w, s.workers[w].request, s.workers[w].phase.ticket));
  }

  /** However requests interleave: two effects of one operation are the same effect, and so are two effects that
      spent the same approval. */
  lemma AtMostOneEffect(s: State, i: nat, k: nat)
    requires Safe(s) && i < |s.journal| && k < |s.journal| && s.journal[i].event.Effected? && s.journal[k].event.Effected?
    requires || s.journal[i].event.request.Operation() == s.journal[k].event.request.Operation()
             || (s.journal[i].event.ticket.approval.Some? && s.journal[i].event.ticket.approval == s.journal[k].event.ticket.approval)
    ensures i == k
  {
    var e, f := s.journal[i].event, s.journal[k].event;
    assert Justified(s, i) && Justified(s, k);
    var x, y := Intended(e.worker, e.request, e.ticket), Intended(f.worker, f.request, f.ticket);
    EarlierEvent(s.journal, i, x);
    EarlierEvent(s.journal, k, y);
    if e.request.Operation() == f.request.Operation() {
      IntentDeterminesWorker(s.journal, x, y);
    } else {
      SpendingDeterminesIntent(s.journal, x, y);
    }
  }

  // ------------------------------------------------------------------ Steps that append to the journal

  lemma EventStays(j: seq<Entry>, x: Entry, e: Event)
    requires HasEvent(j, e)
    ensures HasEvent(j + [x], e)
  {
    var i :| 0 <= i < |j| && j[i].event == e;
    assert (j + [x])[i].event == e;
  }

  lemma IntentForSnoc(j: seq<Entry>, x: Entry, op: OperationId)
    ensures HasIntentFor(j + [x], op) <==> HasIntentFor(j, op) || OperationOf(x.event) == Some(op)
  {
    hide OperationOf;
    var longer := j + [x];
    assert longer[|j|] == x && forall i :: 0 <= i < |j| ==> longer[i] == j[i];
  }

  lemma SpendingSnoc(j: seq<Entry>, x: Entry, a: ApprovalId)
    ensures HasSpending(j + [x], a) <==> HasSpending(j, a) || SpentBy(x.event) == Some(a)
  {
    hide SpentBy;
    var longer := j + [x];
    assert longer[|j|] == x && forall i :: 0 <= i < |j| ==> longer[i] == j[i];
  }

  lemma IntentsSnoc(j: seq<Entry>, x: Entry)
    requires OneIntentPerOperation(j)
    requires x.event.Intended? ==> !HasIntentFor(j, x.event.request.Operation())
    ensures OneIntentPerOperation(j + [x])
  {
  }

  lemma SpendingsSnoc(j: seq<Entry>, x: Entry)
    requires OneSpendingPerApproval(j)
    requires SpentBy(x.event).Some? ==> !HasSpending(j, SpentBy(x.event).value)
    ensures OneSpendingPerApproval(j + [x])
  {
  }

  lemma EffectsSnoc(j: seq<Entry>, x: Entry)
    requires OneEffectPerWorker(j)
    requires x.event.Effected? ==> forall i :: 0 <= i < |j| && j[i].event.Effected? ==> j[i].event.worker != x.event.worker
    ensures OneEffectPerWorker(j + [x])
  {
  }

  // ------------------------------------------------------------------ Steps of one worker

  /** A step of worker `w` that neither commits an intent nor spends an approval: it touches at most the record it
      owns, leaves flight or moves on within it, and may take effect once. */
  ghost predicate Local(s: State, t: State, w: WorkerId) {
    && w in s.workers && t.workers.Keys == s.workers.Keys
    && (forall v :: v in s.workers && v != w ==> t.workers[v] == s.workers[v])
    && var a, b := s.workers[w], t.workers[w];
       && b.request == a.request
       && (b.HasIntent() ==> a.HasIntent() && b.phase.ticket == a.phase.ticket)
       && (PastEffect(a.phase) ==> PastEffect(b.phase))
       && (forall x :: IsConsumed(t.approvals, x) <==> IsConsumed(s.approvals, x))
       && t.executions.Keys == s.executions.Keys
       && (forall op :: op in s.executions && !(a.HasIntent() && op == a.request.Operation()) ==> t.executions[op] == s.executions[op])
       && (b.HasIntent() && b.request.Operation() in t.executions ==>
             t.executions[b.request.Operation()].state == StageState(b.phase.stage))
       && JournalOf(s.journal, t.journal, w, a, b)
  }

  ghost predicate JournalOf(j: seq<Entry>, k: seq<Entry>, w: WorkerId, a: Worker, b: Worker) {
    || k == j
    || (|k| == |j| + 1 && k[..|j|] == j && var e := k[|j|].event;
        || e.Looked? || e.Confirmed? || e.Ruled?
        || (e.Effected? && a.HasIntent() && !PastEffect(a.phase) && PastEffect(b.phase) && e == Effected(w, a.request, a.phase.ticket)))
  }

  lemma LocalKeepsBooks(s: State, t: State, w: WorkerId, v: WorkerId)
    requires Safe(s) && Local(s, t, w)
    ensures Booked(t, v)
  {
    hide OneIntentPerOperation, OneSpendingPerApproval, OneEffectPerWorker, RecordsAreIntents, ConsumedIsSpent, Justified, HasEvent;
    assert Booked(s, v);
    if v in t.workers && t.workers[v].HasIntent() {
      var op := t.workers[v].request.Operation();
      if v != w && s.workers[w].HasIntent() && s.workers[w].request.Operation() == op {
        OwnersAreUnique(s, v, w);
      }
      EventKept(s.journal, t.journal, Intended(v, t.workers[v].request, t.workers[v].phase.ticket));
    }
  }

  lemma EventKept(j: seq<Entry>, k: seq<Entry>, e: Event)
    requires HasEvent(j, e) && (k == j || (|k| == |j| + 1 && k[..|j|] == j))
    ensures HasEvent(k, e)
  {
  }

  lemma LocalKeepsJustified(s: State, t: State, w: WorkerId, i: nat)
    requires Safe(s) && Local(s, t, w)
    ensures Justified(t, i)
  {
    hide OneIntentPerOperation, OneSpendingPerApproval, OneEffectPerWorker, RecordsAreIntents, ConsumedIsSpent, HasEvent, PastEffect;
    assert Booked(s, w);
    if i < |s.journal| {
      assert Justified(s, i);
      assert t.journal[i] == s.journal[i] && t.journal[..i] == s.journal[..i];
    } else if i < |t.journal| {
      assert t.journal[..i] == s.journal;
    }
  }

  lemma LocalKeepsJournal(s: State, t: State, w: WorkerId)
    requires Safe(s) && Local(s, t, w)
    ensures OneIntentPerOperation(t.journal) && OneSpendingPerApproval(t.journal) && OneEffectPerWorker(t.journal)
    ensures RecordsAreIntents(t) && ConsumedIsSpent(t)
  {
    hide OneIntentPerOperation, OneSpendingPerApproval, OneEffectPerWorker, HasIntentFor, HasSpending, Booked, Justified, PastEffect;
    if t.journal != s.journal {
      var x := t.journal[|s.journal|];
      assert t.journal == s.journal + [x];
      LocalAppends(s, t, w, x);
    }
  }

  lemma LocalAppends(s: State, t: State, w: WorkerId, x: Entry)
    requires Safe(s) && Local(s, t, w) && t.journal == s.journal + [x]
    ensures OneIntentPerOperation(t.journal) && OneSpendingPerApproval(t.journal) && OneEffectPerWorker(t.journal)
    ensures RecordsAreIntents(t) && ConsumedIsSpent(t)
  {
    hide OneIntentPerOperation, OneSpendingPerApproval, OneEffectPerWorker, HasIntentFor, HasSpending, Booked, PastEffect;
    assert t.journal[|s.journal|] == x;
    IntentsSnoc(s.journal, x);
    SpendingsSnoc(s.journal, x);
    if x.event.Effected? {
      forall i | 0 <= i < |s.journal| && s.journal[i].event.Effected? ensures s.journal[i].event.worker != x.event.worker {
        assert Justified(s, i);
      }
    }
    EffectsSnoc(s.journal, x);
    forall op ensures op in t.executions <==> HasIntentFor(t.journal, op) {
      IntentForSnoc(s.journal, x, op);
    }
    forall a ensures IsConsumed(t.approvals, a) <==> HasSpending(t.journal, a) {
      SpendingSnoc(s.journal, x, a);
    }
  }

  lemma LocalKeepsSafe(s: State, t: State, w: WorkerId)
    requires Safe(s) && Local(s, t, w)
    ensures Safe(t)
  {
    hide Local, OneIntentPerOperation, OneSpendingPerApproval, OneEffectPerWorker, RecordsAreIntents, ConsumedIsSpent, Booked, Justified;
    LocalKeepsJournal(s, t, w);
    forall v ensures Booked(t, v) {
      LocalKeepsBooks(s, t, w, v);
    }
    forall i ensures Justified(t, i) {
      LocalKeepsJustified(s, t, w, i);
    }
  }

  lemma ResolveIsLocal(s: State, w: WorkerId)
    requires w in s.workers && s.workers[w].phase.Received?
    ensures Local(s, Resolve(s, w), w)
  {
  }

  lemma ActOnIsLocal(
    s: State, w: WorkerId, newId: ApprovalId, hash: RequestHash, input: Policy.Input, outcome: Option<Policy.Outcome>)
    requires w in s.workers && s.workers[w].phase.Hashed? && s.world.policy.Some? && newId !in s.approvals
    ensures Local(s, ActOn(s, w, newId, hash, input, outcome), w)
  {
    hide TicketFor;
  }

  lemma DecideIsLocal(s: State, w: WorkerId, newId: ApprovalId)
    requires Safe(s) && w in s.workers
    ensures Local(s, Decide(s, w, newId), w)
  {
    hide OneIntentPerOperation, OneSpendingPerApproval, OneEffectPerWorker, RecordsAreIntents, ConsumedIsSpent, Justified, HasEvent;
    hide Policy.OutcomeOf, ApprovalValid, PolicyInput, ActOn;
    assert Booked(s, w);
    if s.workers[w].phase.Hashed? && newId !in s.approvals && s.world.policy.Some? {
      var hash := s.workers[w].phase.hash;
      var input := PolicyInput(s, s.workers[w].request, s.workers[w].phase.path, ApprovalValid(s, s.workers[w].request, hash));
      ActOnIsLocal(s, w, newId, hash, input, Policy.OutcomeOf(s.world.policy.value.rules, input));
    }
  }

  lemma FinishIsLocal(s: State, w: WorkerId, ok: bool)
    requires w in s.workers && s.workers[w].HasIntent()
    ensures Local(s, Finish(s, w, ok), w)
  {
  }

  lemma GrantIsLocal(s: State, w: WorkerId, issued: bool)
    requires Safe(s) && w in s.workers
    ensures Local(s, Grant(s, w, issued), w)
  {
    hide OneIntentPerOperation, OneSpendingPerApproval, OneEffectPerWorker, RecordsAreIntents, ConsumedIsSpent, Justified, HasEvent;
    assert Booked(s, w);
    if At(s, w, Intent) && !issued {
      FinishIsLocal(s, w, false);
    }
  }

  lemma StartIsLocal(s: State, w: WorkerId)
    requires Safe(s) && w in s.workers
    ensures Local(s, Start(s, w), w)
  {
    hide OneIntentPerOperation, OneSpendingPerApproval, OneEffectPerWorker, RecordsAreIntents, ConsumedIsSpent, Justified, HasEvent;
    assert Booked(s, w);
  }

  lemma RecheckIsLocal(s: State, w: WorkerId, tokenValid: bool)
    requires Safe(s) && w in s.workers
    ensures Local(s, Recheck(s, w, tokenValid), w)
  {
    hide OneIntentPerOperation, OneSpendingPerApproval, OneEffectPerWorker, RecordsAreIntents, ConsumedIsSpent, Justified, HasEvent;
    hide TermsUnchanged, Finish;
    assert Booked(s, w);
    if At(s, w, Started) {
      FinishIsLocal(s, w, false);
    }
  }

  lemma ExecuteIsLocal(s: State, w: WorkerId, how: ActionOutcome)
    requires Safe(s) && w in s.workers
    ensures Local(s, Execute(s, w, how), w)
  {
    hide OneIntentPerOperation, OneSpendingPerApproval, OneEffectPerWorker, RecordsAreIntents, ConsumedIsSpent, Justified, HasEvent;
    assert Booked(s, w);
  }

  lemma ConcludeIsLocal(s: State, w: WorkerId)
    requires Safe(s) && w in s.workers
    ensures Local(s, Conclude(s, w), w)
  {
    hide OneIntentPerOperation, OneSpendingPerApproval, OneEffectPerWorker, RecordsAreIntents, ConsumedIsSpent, Justified, HasEvent;
    hide Finish;
    assert Booked(s, w);
    if At(s, w, Executed(true)) {
      FinishIsLocal(s, w, true);
    } else if At(s, w, Executed(false)) {
      FinishIsLocal(s, w, false);
    }
  }

  lemma CrashIsLocal(s: State, w: WorkerId)
    requires w in s.workers && !s.workers[w].phase.Done?
    ensures Local(s, s.Moved(w, Crashed), w)
  {
  }

  // ------------------------------------------------------------------ The commit of an intent, and of a read

  /** Authorize either is a local step, or commits exactly one entry: a read's spending or an intent. */
  datatype Commit = NoCommit | CommitRead(approval: ApprovalId) | CommitIntent(ticket: Ticket)

  function Committed(s: State, w: WorkerId): Commit
    requires w in s.workers
  {
    var worker := s.workers[w];
    if !At(s, w, Decided) then NoCommit
    else
      var ticket := worker.phase.ticket;
      if ticket.approval.Some? && (ticket.approval.value !in s.approvals || s.approvals[ticket.approval.value].status != Approved) then NoCommit
      else if worker.request.action.readOnly then (if ticket.approval.Some? then CommitRead(ticket.approval.value) else NoCommit)
      else if worker.request.Operation() in s.executions then NoCommit
      else CommitIntent(ticket)
  }

  lemma NoCommitIsLocal(s: State, w: WorkerId)
    requires Safe(s) && w in s.workers && Committed(s, w).NoCommit?
    ensures Local(s, Authorize(s, w), w)
  {
    hide OneIntentPerOperation, OneSpendingPerApproval, OneEffectPerWorker, RecordsAreIntents, ConsumedIsSpent, Justified, HasEvent;
    assert Booked(s, w);
  }

  /** What both commits do to the approvals: the one spent was approved and becomes consumed, and none other changes. */
  ghost predicate Spends(s: State, t: State, a: Option<ApprovalId>) {
    && (a.Some? ==> a.value in s.approvals && s.approvals[a.value].status == Approved)
    && forall x :: IsConsumed(t.approvals, x) <==> IsConsumed(s.approvals, x) || Some(x) == a
  }

  /** Only `w` moves, to a phase past its decision. */
  ghost predicate OnlyMoves(s: State, t: State, w: WorkerId, phase: Phase) {
    && w in s.workers && t.workers.Keys == s.workers.Keys
    && (forall v :: v in s.workers && v != w ==> t.workers[v] == s.workers[v])
    && t.workers[w] == s.workers[w].(phase := phase)
  }

  lemma IntentCommits(s: State, w: WorkerId)
    requires w in s.workers && Committed(s, w).CommitIntent?
    ensures var t, r, ticket := Authorize(s, w), s.workers[w].request, s.workers[w].phase.ticket;
            && Spends(s, t, ticket.approval) && OnlyMoves(s, t, w, Flight(Intent, ticket))
            && t.journal == s.journal + [Entry(Intended(w, r, ticket), s.world)] && r.Operation() !in s.executions
            && t.executions == s.executions[r.Operation() := Execution(ticket.hash, ticket.policyVersion, Authorized, s.world.clock)]
  {
  }

  lemma ReadCommits(s: State, w: WorkerId)
    requires w in s.workers && Committed(s, w).CommitRead?
    ensures var t, a := Authorize(s, w), Committed(s, w).approval;
            && Spends(s, t, Some(a)) && OnlyMoves(s, t, w, Done(Allow)) && t.executions == s.executions
            && t.journal == s.journal + [Entry(ReadDone(w, a), s.world)]
  {
  }

  /** The approval being spent was not spent before. */
  lemma NotYetSpent(s: State, t: State, a: ApprovalId)
    requires ConsumedIsSpent(s) && Spends(s, t, Some(a))
    ensures !HasSpending(s.journal, a)
  {
    assert !IsConsumed(s.approvals, a);
  }

  lemma CommitKeepsJournal(s: State, t: State, x: Entry)
    requires Safe(s) && t.journal == s.journal + [x] && (x.event.Intended? || x.event.ReadDone?)
    requires Spends(s, t, SpentBy(x.event)) && (x.event.Intended? ==> x.event.request.Operation() !in s.executions)
    requires t.executions.Keys == s.executions.Keys + (if x.event.Intended? then {x.event.request.Operation()} else {})
    ensures OneIntentPerOperation(t.journal) && OneSpendingPerApproval(t.journal) && OneEffectPerWorker(t.journal)
    ensures RecordsAreIntents(t) && ConsumedIsSpent(t)
  {
    hide OneIntentPerOperation, OneSpendingPerApproval, OneEffectPerWorker, HasIntentFor, HasSpending, Booked, Justified, Spends;
    if SpentBy(x.event).Some? {
      NotYetSpent(s, t, SpentBy(x.event).value);
    }
    IntentsSnoc(s.journal, x);
    SpendingsSnoc(s.journal, x);
    EffectsSnoc(s.journal, x);
    forall op ensures op in t.executions <==> HasIntentFor(t.journal, op) {
      IntentForSnoc(s.journal, x, op);
    }
    SpendingGrows(s, t, x);
  }

  lemma SpendingGrows(s: State, t: State, x: Entry)
    requires ConsumedIsSpent(s) && t.journal == s.journal + [x] && Spends(s, t, SpentBy(x.event))
    ensures ConsumedIsSpent(t)
  {
    hide HasSpending, SpentBy, IsConsumed;
    forall a ensures IsConsumed(t.approvals, a) <==> HasSpending(t.journal, a) {
      SpendingSnoc(s.journal, x, a);
    }
  }

  lemma CommitKeepsJustified(s: State, t: State, w: WorkerId, phase: Phase, x: Entry, i: nat)
    requires Safe(s) && t.journal == s.journal + [x] && !x.event.Effected? && OnlyMoves(s, t, w, phase) && At(s, w, Decided)
    ensures Justified(t, i)
  {
    hide OneIntentPerOperation, OneSpendingPerApproval, OneEffectPerWorker, RecordsAreIntents, ConsumedIsSpent, HasEvent, Booked;
    if i < |s.journal| {
      assert Justified(s, i);
      assert t.journal[i] == s.journal[i] && t.journal[..i] == s.journal[..i];
    } else if i < |t.journal| {
      assert t.journal[i] == x;
    }
  }

  lemma CommitKeepsBooks(s: State, t: State, w: WorkerId, phase: Phase, x: Entry, v: WorkerId)
    requires Safe(s) && t.journal == s.journal + [x] && OnlyMoves(s, t, w, phase) && At(s, w, Decided)
    requires forall op :: op in s.executions ==> op in t.executions && t.executions[op] == s.executions[op]
    requires phase.Flight? ==>
               var op := s.workers[w].request.Operation();
               && phase.stage == Intent && x.event == Intended(w, s.workers[w].request, phase.ticket)
               && op in t.executions && t.executions[op].state == Authorized
    ensures Booked(t, v)
  {
    hide OneIntentPerOperation, OneSpendingPerApproval, OneEffectPerWorker, RecordsAreIntents, ConsumedIsSpent, Justified;
    if v == w {
      assert t.journal[|s.journal|] == x;
    } else if v in t.workers && t.workers[v].HasIntent() {
      assert Booked(s, v);
      EventStays(s.journal, x, Intended(v, s.workers[v].request, s.workers[v].phase.ticket));
    }
  }

  lemma AuthorizeKeepsSafe(s: State, w: WorkerId)
    requires Safe(s) && w in s.workers
    ensures Safe(Authorize(s, w))
  {
    hide OneIntentPerOperation, OneSpendingPerApproval, OneEffectPerWorker, RecordsAreIntents, ConsumedIsSpent, Booked, Justified;
    hide Local, Spends, Authorize;
    var t := Authorize(s, w);
    if Committed(s, w).NoCommit? {
      NoCommitIsLocal(s, w);
      LocalKeepsSafe(s, t, w);
    } else {
      var r, ticket := s.workers[w].request, s.workers[w].phase.ticket;
      var intent := Committed(s, w).CommitIntent?;
      var phase := if intent then Flight(Intent, ticket) else Done(Allow);
      var x := Entry(if intent then Intended(w, r, ticket) else ReadDone(w, ticket.approval.value), s.world);
      if intent {
        IntentCommits(s, w);
      } else {
        ReadCommits(s, w);
      }
      CommitKeepsJournal(s, t, x);
      forall v ensures Booked(t, v) {
        CommitKeepsBooks(s, t, w, phase, x, v);
      }
      forall i ensures Justified(t, i) {
        CommitKeepsJustified(s, t, w, phase, x, i);
      }
    }
  }

  // ------------------------------------------------------------------ Steps of others

  lemma SubmitKeepsSafe(s: State, w: WorkerId, r: Request)
    requires Safe(s) && w !in s.workers
    ensures Safe(s.(workers := s.workers[w := Worker(r, Received)]))
  {
    hide OneIntentPerOperation, OneSpendingPerApproval, OneEffectPerWorker, RecordsAreIntents, ConsumedIsSpent, HasEvent;
    var t := s.(workers := s.workers[w := Worker(r, Received)]);
    assert RecordsAreIntents(t) && ConsumedIsSpent(t) by {
      SameJournal(s, t);
    }
    forall v ensures Booked(t, v) {
      assert Booked(s, v);
    }
    forall i ensures Justified(t, i) {
      assert Justified(s, i);
    }
  }

  lemma SameJournal(s: State, t: State)
    requires t.journal == s.journal && t.executions.Keys == s.executions.Keys
    requires forall a :: IsConsumed(t.approvals, a) <==> IsConsumed(s.approvals, a)
    ensures RecordsAreIntents(s) ==> RecordsAreIntents(t)
    ensures ConsumedIsSpent(s) ==> ConsumedIsSpent(t)
  {
  }

  lemma ChangeKeepsSafe(s: State, world: World)
    requires Safe(s)
    ensures Safe(s.(world := world))
  {
    hide OneIntentPerOperation, OneSpendingPerApproval, OneEffectPerWorker, RecordsAreIntents, ConsumedIsSpent, HasEvent;
    var t := s.(world := world);
    SameJournal(s, t);
    forall v ensures Booked(t, v) {
      assert Booked(s, v);
    }
    forall i ensures Justified(t, i) {
      assert Justified(s, i);
    }
  }

  lemma RecoverKeepsSafe(s: State, before: Time)
    requires Safe(s) && WorkersStopped(s, before)
    ensures Safe(Recover(s, before))
  {
    hide OneIntentPerOperation, OneSpendingPerApproval, OneEffectPerWorker, RecordsAreIntents, ConsumedIsSpent, HasEvent;
    var t := Recover(s, before);
    SameJournal(s, t);
    forall v ensures Booked(t, v) {
      assert Booked(s, v);
    }
    forall i ensures Justified(t, i) {
      assert Justified(s, i);
    }
  }

  /** A ruling moves no worker, spends nothing and starts nothing. */
  lemma RuleKeepsSafe(s: State, a: ApprovalId, approver: Subject, approve: bool)
    requires Safe(s)
    ensures Safe(DecideApproval(s, a, approver, approve))
  {
    hide OneIntentPerOperation, OneSpendingPerApproval, OneEffectPerWorker, RecordsAreIntents, ConsumedIsSpent;
    var t := DecideApproval(s, a, approver, approve);
    if RulingProblem(s, a, approver).None? {
      var x := Entry(Ruled(a, approver, approve), s.world);
      assert t.journal == s.journal + [x];
      IntentsSnoc(s.journal, x);
      SpendingsSnoc(s.journal, x);
      EffectsSnoc(s.journal, x);
      RuleKeepsTables(s, t, x);
      forall v ensures Booked(t, v) {
        RuleKeepsBooks(s, t, x, v);
      }
      forall i ensures Justified(t, i) {
        RuleKeepsJustified(s, t, x, i);
      }
    }
  }

  lemma RuleKeepsTables(s: State, t: State, x: Entry)
    requires t.journal == s.journal + [x] && x.event.Ruled? && t.executions == s.executions
    requires forall a :: IsConsumed(t.approvals, a) <==> IsConsumed(s.approvals, a)
    ensures RecordsAreIntents(s) ==> RecordsAreIntents(t)
    ensures ConsumedIsSpent(s) ==> ConsumedIsSpent(t)
  {
    hide HasIntentFor, HasSpending;
    forall op ensures HasIntentFor(t.journal, op) <==> HasIntentFor(s.journal, op) {
      IntentForSnoc(s.journal, x, op);
    }
    forall a ensures HasSpending(t.journal, a) <==> HasSpending(s.journal, a) {
      SpendingSnoc(s.journal, x, a);
    }
  }

  lemma RuleKeepsBooks(s: State, t: State, x: Entry, v: WorkerId)
    requires Booked(s, v) && t.journal == s.journal + [x] && t.workers == s.workers && t.executions == s.executions
    ensures Booked(t, v)
  {
    hide HasEvent;
    if v in s.workers && s.workers[v].HasIntent() {
      EventStays(s.journal, x, Intended(v, s.workers[v].request, s.workers[v].phase.ticket));
    }
  }

  lemma RuleKeepsJustified(s: State, t: State, x: Entry, i: nat)
    requires Justified(s, i) && t.journal == s.journal + [x] && t.workers == s.workers && !x.event.Effected?
    ensures Justified(t, i)
  {
    hide HasEvent;
    if i < |s.journal| {
      assert t.journal[i] == s.journal[i] && t.journal[..i] == s.journal[..i];
    } else if i < |t.journal| {
      assert t.journal[i] == x;
    }
  }

  // ------------------------------------------------------------------ Every run

  lemma WorkerStepKeepsSafe(s: State, step: Step)
    requires Safe(s)
    requires step.DoResolve? || step.DoDecide? || step.DoGrant? || step.DoStart? || step.DoRecheck? || step.DoExecute? || step.DoConclude?
             || step.Crash?
    ensures Safe(Next(s, step))
  {
    hide Safe, Local, Next;
    WorkerStepIsLocal(s, step);
    if Next(s, step) != s {
      LocalKeepsSafe(s, Next(s, step), step.w);
    }
  }

  lemma StrangersDoNothing(s: State, step: Step)
    requires step.DoResolve? || step.DoDecide? || step.DoGrant? || step.DoStart? || step.DoRecheck? || step.DoExecute? || step.DoConclude?
             || step.Crash?
    requires step.w !in s.workers
    ensures Next(s, step) == s
  {
  }

  lemma NextKeepsSafe(s: State, step: Step)
    requires Safe(s)
    ensures Safe(Next(s, step))
  {
    hide Safe, Authorize, Recover, DecideApproval, WorkersStopped;
    match step {
      case Submit(w, request) =>
        if w !in s.workers {
          SubmitKeepsSafe(s, w, request);
        }
      case DoAuthorize(w) =>
        if w in s.workers {
          AuthorizeKeepsSafe(s, w);
        }
      case DoRuling(a, approver, approve) => RuleKeepsSafe(s, a, approver, approve);
      case DoRecover(before) =>
        if WorkersStopped(s, before) {
          RecoverKeepsSafe(s, before);
        }
      case Change(world) => ChangeKeepsSafe(s, world);
      case _ => WorkerStepKeepsSafe(s, step);
    }
  }

  lemma InitialIsSafe(world: World)
    ensures Safe(Initial(world))
  {
  }

  lemma {:induction false} SafeAlways(world: World, steps: seq<Step>)
    ensures Safe(Run(world, steps))
  {
    hide Safe, Next, Initial;
    if steps == [] {
      InitialIsSafe(world);
    } else {
      SafeAlways(world, steps[..|steps| - 1]);
      NextKeepsSafe(Run(world, steps[..|steps| - 1]), steps[|steps| - 1]);
    }
  }

  // ------------------------------------------------------------------ Main results

  /** Over every interleaving of requests, retries, crashes, rulings and recovery, each operation has at most one
      effect, and each approval funds at most one. */
  lemma EffectsAtMostOnce(world: World, steps: seq<Step>, i: nat, k: nat)
    requires var j := Run(world, steps).journal;
             && i < k < |j| && j[i].event.Effected? && j[k].event.Effected?
    ensures var j := Run(world, steps).journal;
            && j[i].event.request.Operation() != j[k].event.request.Operation()
            && (j[i].event.ticket.approval.None? || j[i].event.ticket.approval != j[k].event.ticket.approval)
  {
    hide Safe, Run;
    SafeAlways(world, steps);
    var s := Run(world, steps);
    var e, f := s.journal[i].event, s.journal[k].event;
    if e.request.Operation() == f.request.Operation() || (e.ticket.approval.Some? && e.ticket.approval == f.ticket.approval) {
      AtMostOneEffect(s, i, k);
    }
  }

  /** An approval is consumed, and an execution recorded, exactly by the entries that commit them; an intent that
      spends an approval is one entry for both. No approval is spent twice and no operation intended twice. */
  lemma SpendingAndIntentCommitTogether(world: World, steps: seq<Step>)
    ensures var s := Run(world, steps);
            && (forall a :: IsConsumed(s.approvals, a) <==> HasSpending(s.journal, a))
            && (forall op :: op in s.executions <==> HasIntentFor(s.journal, op))
            && OneSpendingPerApproval(s.journal) && OneIntentPerOperation(s.journal)
  {
    SafeAlways(world, steps);
  }

  /** Whenever an effect happens, a running record of its operation is already durable. */
  lemma EffectNeedsRunningRecord(world: World, steps: seq<Step>, step: Step)
    requires var s := Run(world, steps); var t := Next(s, step);
             |t.journal| > |s.journal| && t.journal[|s.journal|].event.Effected?
    ensures var s := Run(world, steps); var t := Next(s, step); var op := t.journal[|s.journal|].event.request.Operation();
            && op in s.executions && s.executions[op].state == Running
            && t.executions == s.executions
  {
    hide Safe, Run, Decide, Authorize, Recover, DecideApproval, Resolve, Finish, TermsUnchanged, WorkersStopped;
    SafeAlways(world, steps);
    var s := Run(world, steps);
    OnlyExecuteTakesEffect(s, step);
    RunningWhileRechecked(s, step.w);
  }

  lemma OnlyExecuteTakesEffect(s: State, step: Step)
    requires |Next(s, step).journal| > |s.journal| && Next(s, step).journal[|s.journal|].event.Effected?
    ensures step.DoExecute? && At(s, step.w, Rechecked)
    ensures Next(s, step).journal[|s.journal|].event.request == s.workers[step.w].request
    ensures Next(s, step).executions == s.executions
  {
    hide Policy.OutcomeOf, TicketFor, PolicyInput, ApprovalValid, TermsUnchanged, WorkersStopped, RulingProblem, Recovered;
    if step.DoDecide? && step.w in s.workers {
      DecideLogs(s, step.w, step.newId);
    }
  }

  lemma DecideLogs(s: State, w: WorkerId, newId: ApprovalId)
    requires w in s.workers
    ensures var t := Decide(s, w, newId);
            t.journal == s.journal || (|t.journal| == |s.journal| + 1 && t.journal[|s.journal|].event.Looked?)
  {
    hide Policy.OutcomeOf, TicketFor, PolicyInput, ApprovalValid;
  }

  lemma RunningWhileRechecked(s: State, w: WorkerId)
    requires Safe(s) && At(s, w, Rechecked)
    ensures var op := s.workers[w].request.Operation(); op in s.executions && s.executions[op].state == Running
  {
    assert Booked(s, w);
  }

  // ------------------------------------------------------------------ Terminal records

  ghost predicate IsTerminal(s: State, op: OperationId) {
    op in s.executions && s.executions[op].state.Terminal()
  }

  lemma LocalKeepsTerminal(s: State, t: State, w: WorkerId, op: OperationId)
    requires Safe(s) && Local(s, t, w) && IsTerminal(s, op)
    ensures op in t.executions && t.executions[op] == s.executions[op]
  {
    hide OneIntentPerOperation, OneSpendingPerApproval, OneEffectPerWorker, RecordsAreIntents, ConsumedIsSpent, Justified, HasEvent, JournalOf;
    assert Booked(s, w);
  }

  lemma AuthorizeKeepsRecords(s: State, w: WorkerId, op: OperationId)
    requires Safe(s) && w in s.workers && IsTerminal(s, op)
    ensures op in Authorize(s, w).executions && Authorize(s, w).executions[op] == s.executions[op]
  {
    hide Safe, Local, Authorize, Spends;
    if Committed(s, w).NoCommit? {
      NoCommitIsLocal(s, w);
      LocalKeepsTerminal(s, Authorize(s, w), w, op);
    } else if Committed(s, w).CommitRead? {
      ReadCommits(s, w);
    } else {
      IntentCommits(s, w);
    }
  }

  lemma WorkerStepIsLocal(s: State, step: Step)
    requires Safe(s)
    requires step.DoResolve? || step.DoDecide? || step.DoGrant? || step.DoStart? || step.DoRecheck? || step.DoExecute? || step.DoConclude?
             || step.Crash?
    ensures Next(s, step) == s || Local(s, Next(s, step), step.w)
  {
    if step.w !in s.workers {
      StrangersDoNothing(s, step);
    } else if Next(s, step) != s {
      match step {
        case DoResolve(w) => ResolveIsLocal(s, w);
        case DoDecide(w, newId) => DecideIsLocal(s, w, newId);
        case DoGrant(w, issued) => GrantIsLocal(s, w, issued);
        case DoStart(w) => StartIsLocal(s, w);
        case DoRecheck(w, tokenValid) => RecheckIsLocal(s, w, tokenValid);
        case DoExecute(w, how) => ExecuteIsLocal(s, w, how);
        case DoConclude(w) => ConcludeIsLocal(s, w);
        case Crash(w) => CrashIsLocal(s, w);
      }
    }
  }

  lemma TerminalKept(s: State, step: Step, op: OperationId)
    requires Safe(s) && IsTerminal(s, op)
    ensures op in Next(s, step).executions && Next(s, step).executions[op] == s.executions[op]
  {
    hide Safe, Local, Authorize, Resolve, Decide, Grant, Start, Recheck, Execute, Conclude, WorkersStopped, RulingProblem;
    match step {
      case Submit(_, _) =>
      case DoAuthorize(w) =>
        if w in s.workers {
          AuthorizeKeepsRecords(s, w, op);
        }
      case DoRuling(_, _, _) =>
      case DoRecover(_) =>
      case Change(_) =>
      case _ =>
        WorkerStepIsLocal(s, step);
        if Next(s, step) != s {
          LocalKeepsTerminal(s, Next(s, step), step.w, op);
        }
    }
  }

  /** A record that reached succeeded or outcome-unknown is never touched again, whatever happens after. */
  lemma {:induction false} TerminalForever(world: World, steps: seq<Step>, n: nat, op: OperationId)
    requires n <= |steps| && IsTerminal(Run(world, steps[..n]), op)
    ensures op in Run(world, steps).executions && Run(world, steps).executions[op] == Run(world, steps[..n]).executions[op]
  {
    hide Safe, Next;
    if n == |steps| {
      assert steps[..n] == steps;
    } else {
      var before := steps[..|steps| - 1];
      assert before[..n] == steps[..n];
      TerminalForever(world, before, n, op);
      SafeAlways(world, before);
      TerminalKept(Run(world, before), steps[|steps| - 1], op);
    }
  }

  // ------------------------------------------------------------------ What a recorded success means

  ghost predicate HasEffectOf(j: seq<Entry>, op: OperationId) {
    exists i :: 0 <= i < |j| && j[i].event.Effected? && j[i].event.request.Operation() == op
  }

  predicate IsSucceeded(s: State, op: OperationId) {
    op in s.executions && s.executions[op].state == Succeeded
  }

  predicate AboutToSucceed(s: State, w: WorkerId) {
    At(s, w, Executed(true))
  }

  ghost predicate Honest(s: State) {
    && (forall op :: IsSucceeded(s, op) ==> HasEffectOf(s.journal, op))
    && (forall w :: AboutToSucceed(s, w) ==> HasEffectOf(s.journal, s.workers[w].request.Operation()))
  }

  /** Where a success comes from: it was there, or its worker was about to record it, after logging the effect. */
  ghost predicate Truthful(s: State, t: State) {
    && s.journal <= t.journal
    && (forall op :: IsSucceeded(t, op) ==>
          IsSucceeded(s, op) || exists w :: AboutToSucceed(s, w) && s.workers[w].request.Operation() == op)
    && (forall w :: AboutToSucceed(t, w) ==>
          || (AboutToSucceed(s, w) && t.workers[w].request == s.workers[w].request)
          || (|t.journal| == |s.journal| + 1 && t.journal[|s.journal|].event.Effected?
              && t.journal[|s.journal|].event.request == t.workers[w].request))
  }

  lemma TruthfulKeepsHonest(s: State, t: State)
    requires Honest(s) && Truthful(s, t)
    ensures Honest(t)
  {
  }

  /** Steps that mark no record succeeded and bring no worker to the point of succeeding. */
  lemma PlainIsTruthful(s: State, t: State)
    requires s.journal <= t.journal
    requires forall op :: IsSucceeded(t, op) ==> IsSucceeded(s, op)
    requires forall w :: AboutToSucceed(t, w) ==> AboutToSucceed(s, w) && t.workers[w].request == s.workers[w].request
    ensures Truthful(s, t)
  {
  }

  lemma StepIsTruthful(s: State, step: Step)
    ensures Truthful(s, Next(s, step))
  {
    hide Truthful, Resolve, Grant, Conclude, Start, Recheck, Execute, Decide, Authorize, RulingProblem, WorkersStopped;
    var t := Next(s, step);
    match step {
      case DoGrant(w, issued) => GrantIsTruthful(s, w, issued);
      case DoRecheck(w, tokenValid) => RecheckIsTruthful(s, w, tokenValid);
      case DoExecute(w, how) => ExecuteIsTruthful(s, w, how);
      case DoConclude(w) => ConcludeIsTruthful(s, w);
      case DoAuthorize(w) =>
        if w in s.workers { AuthorizeIsTruthful(s, w); } else { PlainIsTruthful(s, t); }
      case DoDecide(w, newId) => DecideIsTruthful(s, w, newId);
      case DoResolve(w) => ResolveIsTruthful(s, w);
      case DoStart(w) => StartIsTruthful(s, w);
      case DoRecover(before) => RecoverIsTruthful(s, before);
      case _ => PlainIsTruthful(s, t);
    }
  }

  lemma ResolveIsTruthful(s: State, w: WorkerId)
    ensures Truthful(s, Next(s, DoResolve(w)))
  {
  }

  lemma GrantIsTruthful(s: State, w: WorkerId, issued: bool)
    ensures Truthful(s, Grant(s, w, issued))
  {
  }

  lemma ConcludeIsTruthful(s: State, w: WorkerId)
    ensures Truthful(s, Conclude(s, w))
  {
  }

  lemma StartIsTruthful(s: State, w: WorkerId)
    ensures Truthful(s, Start(s, w))
  {
  }

  lemma RecoverIsTruthful(s: State, before: Time)
    ensures Truthful(s, Next(s, DoRecover(before)))
  {
  }

  lemma RecheckIsTruthful(s: State, w: WorkerId, tokenValid: bool)
    ensures Truthful(s, Recheck(s, w, tokenValid))
  {
  }

  lemma ExecuteIsTruthful(s: State, w: WorkerId, how: ActionOutcome)
    ensures Truthful(s, Execute(s, w, how))
  {
  }

  lemma DecideIsTruthful(s: State, w: WorkerId, newId: ApprovalId)
    ensures Truthful(s, Next(s, DoDecide(w, newId)))
  {
    hide Truthful, Policy.OutcomeOf, ApprovalValid, PolicyInput, TicketFor, Requested;
    PlainIsTruthful(s, Next(s, DoDecide(w, newId)));
  }

  lemma AuthorizeIsTruthful(s: State, w: WorkerId)
    requires w in s.workers
    ensures Truthful(s, Authorize(s, w))
  {
    hide Truthful;
    PlainIsTruthful(s, Authorize(s, w));
  }

  /** A record says succeeded only if its operation took effect: together with `EffectsAtMostOnce`, exactly once.
      A retry that is answered from the record is therefore answered truthfully. */
  lemma {:induction false} SuccessMeansEffect(world: World, steps: seq<Step>, op: OperationId)
    requires IsSucceeded(Run(world, steps), op)
    ensures HasEffectOf(Run(world, steps).journal, op)
  {
    hide Next, IsSucceeded, HasEffectOf;
    HonestAlways(world, steps);
  }

  lemma {:induction false} HonestAlways(world: World, steps: seq<Step>)
    ensures Honest(Run(world, steps))
  {
    hide Next, Truthful, HasEffectOf;
    if steps != [] {
      HonestAlways(world, steps[..|steps| - 1]);
      StepIsTruthful(Run(world, steps[..|steps| - 1]), steps[|steps| - 1]);
      TruthfulKeepsHonest(Run(world, steps[..|steps| - 1]), Run(world, steps));
    }
  }
}
