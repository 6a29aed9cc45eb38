/** The governed request flow: concurrent requests as workers that take one committed step at a time. */
module Gateway {
  import opened Wrappers
  import opened Contracts
  import opened Policy

  type WorkerId = nat
  type ApprovalId = string
  type Subject = string

  // ------------------------------------------------------------------ Durable records

  datatype Justification = Justification(caseId: Value, text: string)

  /** A registered action; `definition` is the rest of what a request hash covers: handler, risk, outputs, schema. */
  datatype Action = Action(name: string, cloudAction: string, additional: seq<string>, readOnly: bool, definition: string)

  /** A digest of all its parts. */
  datatype RequestHash = RequestHash(
    subject: Subject, tenant: Tenant, action: Action, resource: string, inputs: string, justification: Justification, policyVersion: string)

  /** A digest of its parts: the primary key of an execution. */
  datatype OperationId = OperationId(tenant: Tenant, subject: Subject, key: string)

  datatype ApprovalStatus = Pending | Approved | Rejected | Consumed

  datatype Approval = Approval(
    subject: Subject, action: string, resource: string, hash: RequestHash, capability: string, justification: Justification,
    tenant: Tenant, expiresAt: Time, status: ApprovalStatus, approver: Option<Subject>)

  datatype ExecutionState = Authorized | Running | Succeeded | OutcomeUnknown {
    predicate Terminal() {
      Succeeded? || OutcomeUnknown?
    }
  }

  datatype Execution = Execution(hash: RequestHash, policyVersion: string, state: ExecutionState, updatedAt: Time)

  // ------------------------------------------------------------------ Surroundings

  /** "A path resolves for this subject, capability and resource within the tenant." */
  datatype Claim = Claim(subject: Subject, capability: string, resource: string, tenant: Tenant)

  /** What requests read but do not control: the clock, the claims that resolve, the principals that map, the active
      policy (`None` if reading it raises), and the environment and classification of each object. */
  datatype World = World(
    clock: Time, claims: iset<Claim>, mapped: set<(Subject, Tenant)>, policy: Option<Document>, objects: map<string, (Value, Value)>,
    approvalTtl: nat)

  /** A request whose session verified and whose action and inputs are compatible with its resource. A request that
      names no idempotency key uses its own correlation id. */
  datatype Request = Request(
    subject: Subject, tenant: Tenant, mfa: bool, risk: Option<int>, action: Action, resource: string, inputs: string,
    justification: Justification, approvalId: Option<ApprovalId>, key: string)
  {
    function Operation(): OperationId {
      OperationId(tenant, subject, key)
    }

    function Hash(policyVersion: string): RequestHash {
      RequestHash(subject, tenant, action, resource, inputs, justification, policyVersion)
    }
  }

  // ------------------------------------------------------------------ Workers

  datatype Stage = Decided | Intent | Granted | Started | Rechecked | Executed(ok: bool)

  /** What a request carries from its decision on: the approval it may spend, whether its approval id named a record,
      and whether a rule requiring approval applied. */
  datatype Ticket = Ticket(hash: RequestHash, approval: Option<ApprovalId>, found: bool, needed: bool, policyVersion: string)

  datatype Reply = Allow | Deny | AwaitApproval | Error | Replay(state: ExecutionState)

  datatype Phase = Received | Hashed(path: bool, hash: RequestHash) | Flight(stage: Stage, ticket: Ticket) | Done(reply: Reply) | Crashed

  datatype Worker = Worker(request: Request, phase: Phase) {
    /** Past the commit of its intent, and not finished. */
    predicate HasIntent() {
      phase.Flight? && phase.stage != Decided
    }
  }

  /** Committed facts in order, each with the surroundings at the time. */
  datatype Event =
    | Ruled(approval: ApprovalId, approver: Subject, approve: bool)
    | Looked(worker: WorkerId, ticket: Ticket)
    | Intended(worker: WorkerId, request: Request, ticket: Ticket)
    | ReadDone(worker: WorkerId, spent: ApprovalId)
    | Confirmed(worker: WorkerId)
    | Effected(worker: WorkerId, request: Request, ticket: Ticket)

  datatype Entry = Entry(event: Event, world: World)

  datatype State = State(
    approvals: map<ApprovalId, Approval>, executions: map<OperationId, Execution>, world: World, workers: map<WorkerId, Worker>,
    journal: seq<Entry>)
  {
    function Moved(w: WorkerId, phase: Phase): State
      requires w in workers
    {
      this.(workers := workers[w := workers[w].(phase := phase)])
    }

    function Logged(event: Event): State {
      this.(journal := journal + [Entry(event, world)])
    }

    function Marked(op: OperationId, state: ExecutionState): State {
      if op in executions
      then this.(executions := executions[op := executions[op].(state := state, updatedAt := world.clock)])
      else this
    }

    predicate Holds(subject: Option<Subject>, capability: string, resource: string, tenant: Tenant) {
      subject.Some? && Claim(subject.value, capability, resource, tenant) in world.claims
    }
  }

  // ------------------------------------------------------------------ One request, segment by segment

  /** Authority for the action itself and for every action it implies. */
  predicate PathExists(world: World, r: Request) {
    && Claim(r.subject, r.action.cloudAction, r.resource, r.tenant) in world.claims
    && forall a <- r.action.additional :: Claim(r.subject, a, r.resource, r.tenant) in world.claims
  }

  /** Identity, access path, and the record of an earlier use of the same key. */
  function Resolve(s: State, w: WorkerId): State
    requires w in s.workers
  {
    var r := s.workers[w].request;
    if (r.subject, r.tenant) !in s.world.mapped || s.world.policy.None? then s.Moved(w, Done(Deny))
    else
      var hash := r.Hash(s.world.policy.value.version);
      if !r.action.readOnly && r.Operation() in s.executions then
        var existing := s.executions[r.Operation()];
        s.Moved(w, Done(if existing.hash != hash then Deny else Replay(existing.state)))
      else s.Moved(w, Hashed(PathExists(s.world, r), hash))
  }

  predicate ApprovalValid(s: State, r: Request, hash: RequestHash) {
    && r.approvalId.Some? && r.approvalId.value in s.approvals
    && var a := s.approvals[r.approvalId.value];
       && a.status == Approved && a.subject == r.subject && a.action == r.action.name && a.resource == r.resource
       && a.hash == hash && a.justification == r.justification && a.tenant == r.tenant
       && s.Holds(a.approver, a.capability, r.resource, r.tenant)
       && s.world.clock <= a.expiresAt
  }

  function PolicyInput(s: State, r: Request, path: bool, approvalValid: bool): Input {
    var (environment, classification) := if r.resource in s.world.objects then s.world.objects[r.resource] else (Null, Null);
    Input(path, r.mfa, r.risk, r.action.readOnly, environment, classification, r.justification.caseId, approvalValid)
  }

  /** The approval a request waits for. */
  function Requested(r: Request, hash: RequestHash, expiresAt: Time): Approval {
    Approval(r.subject, r.action.name, r.resource, hash, "approval:" + r.action.name, r.justification, r.tenant, expiresAt, Pending, None)
  }

  function TicketFor(s: State, r: Request, hash: RequestHash, input: Input): Ticket
    requires s.world.policy.Some?
  {
    var policy := s.world.policy.value;
    Ticket(hash, if input.approvalPresent then r.approvalId else None, r.approvalId.Some? && r.approvalId.value in s.approvals,
      AnyApplies(policy.rules, input, REQUIRE_APPROVAL), policy.version)
  }

  /** What follows from the policy's outcome; `None` is an evaluator that raised. */
  function ActOn(s: State, w: WorkerId, newId: ApprovalId, hash: RequestHash, input: Input, outcome: Option<Outcome>): State
    requires w in s.workers && s.world.policy.Some?
  {
    var r := s.workers[w].request;
    match outcome
    case None => s.Moved(w, Crashed)
    case Some(Denied) => s.Moved(w, Done(Deny))
    case Some(ApprovalRequired) =>
      s.Moved(w, Done(AwaitApproval)).(approvals := s.approvals[newId := Requested(r, hash, s.world.clock + s.world.approvalTtl)])
    case Some(Allowed) =>
      var ticket := TicketFor(s, r, hash, input);
      s.Moved(w, Flight(Decided, ticket)).Logged(Looked(w, ticket))
  }

  /** Approval lookup and policy evaluation. A fresh id is drawn for the approval that may have to be requested. */
  function Decide(s: State, w: WorkerId, newId: ApprovalId): State
    requires w in s.workers
  {
    var worker := s.workers[w];
    var r := worker.request;
    if !worker.phase.Hashed? || newId in s.approvals then s
    else if s.world.policy.None? then s.Moved(w, Done(Deny))
    else
      var hash := worker.phase.hash;
      var input := PolicyInput(s, r, worker.phase.path, ApprovalValid(s, r, hash));
      ActOn(s, w, newId, hash, input, OutcomeOf(s.world.policy.value.rules, input))
  }

  /** Spends the approval and records the intent in one commit. The update of the approval is conditional on its
      status; the insertion of the intent fails on a duplicate key, which undoes both. A read-only request keeps no
      record: its spending commits when it finishes. */
  function Authorize(s: State, w: WorkerId): State
    requires w in s.workers
  {
    var worker := s.workers[w];
    var r := worker.request;
    if worker.phase.Flight? && worker.phase.stage == Decided then
      var ticket := worker.phase.ticket;
      if ticket.approval.Some? && (ticket.approval.value !in s.approvals || s.approvals[ticket.approval.value].status != Approved)
      then s.Moved(w, Done(Deny))
      else
        var spent := if ticket.approval.Some? then Spend(s, ticket.approval.value) else s;
        if r.action.readOnly then
          var done := spent.Moved(w, Done(Allow));
          if ticket.approval.Some? then done.Logged(ReadDone(w, ticket.approval.value)) else done
        else if r.Operation() in s.executions then s.Moved(w, Crashed)
        else
          spent.(executions := s.executions[r.Operation() := Execution(ticket.hash, ticket.policyVersion, Authorized, s.world.clock)])
            .Moved(w, Flight(Intent, ticket)).Logged(Intended(w, r, ticket))
    else s
  }

  function Spend(s: State, a: ApprovalId): State
    requires a in s.approvals
  {
    s.(approvals := s.approvals[a := s.approvals[a].(status := Consumed)])
  }

  /** Ends a request that has an execution record. */
  function Finish(s: State, w: WorkerId, ok: bool): State
    requires w in s.workers
  {
    s.Marked(s.workers[w].request.Operation(), if ok then Succeeded else OutcomeUnknown).Moved(w, Done(if ok then Allow else Error))
  }

  predicate At(s: State, w: WorkerId, stage: Stage) {
    w in s.workers && s.workers[w].phase.Flight? && s.workers[w].phase.stage == stage
  }

  /** A grant, or the broker's refusal. */
  function Grant(s: State, w: WorkerId, issued: bool): State {
    if !At(s, w, Intent) then s
    else if issued then s.Moved(w, Flight(Granted, s.workers[w].phase.ticket)) else Finish(s, w, false)
  }

  function Start(s: State, w: WorkerId): State {
    if !At(s, w, Granted) then s
    else s.Marked(s.workers[w].request.Operation(), Running).Moved(w, Flight(Started, s.workers[w].phase.ticket))
  }

  /** The approver still holds the capability and the approval has not expired. */
  predicate StillBacked(s: State, a: Approval, resource: string, tenant: Tenant) {
    s.world.clock <= a.expiresAt && s.Holds(a.approver, a.capability, resource, tenant)
  }

  /** The second look at identity and authority, after the record is running. */
  predicate IdentityUnchanged(s: State, r: Request) {
    (r.subject, r.tenant) in s.world.mapped && Claim(r.subject, r.action.cloudAction, r.resource, r.tenant) in s.world.claims
  }

  /** ... and at the policy version and the approval. */
  predicate TermsUnchanged(s: State, r: Request, ticket: Ticket)
    requires s.world.policy.Some?
  {
    && s.world.policy.value.version == ticket.policyVersion
    && (ticket.found && r.approvalId.Some? && r.approvalId.value in s.approvals ==>
          StillBacked(s, s.approvals[r.approvalId.value], r.resource, r.tenant))
  }

  function Recheck(s: State, w: WorkerId, tokenValid: bool): State {
    if !At(s, w, Started) then s
    else
      var ticket := s.workers[w].phase.ticket;
      if !tokenValid then s.Moved(w, Crashed)
      else if !IdentityUnchanged(s, s.workers[w].request) then Finish(s, w, false)
      else if s.world.policy.None? then s.Moved(w, Crashed)
      else if !TermsUnchanged(s, s.workers[w].request, ticket) then Finish(s, w, false)
      else s.Moved(w, Flight(Rechecked, ticket)).Logged(Confirmed(w))
  }

  /** The action either takes effect or not, and may fail after it took effect. */
  datatype ActionOutcome = Succeeds | FailsAfterEffect | FailsBefore

  function Execute(s: State, w: WorkerId, how: ActionOutcome): State {
    if !At(s, w, Rechecked) then s
    else
      var ticket := s.workers[w].phase.ticket;
      var moved := s.Moved(w, Flight(Executed(how.Succeeds?), ticket));
      if how.FailsBefore? then moved else moved.Logged(Effected(w, s.workers[w].request, ticket))
  }

  function Conclude(s: State, w: WorkerId): State {
    if At(s, w, Executed(true)) then Finish(s, w, true)
    else if At(s, w, Executed(false)) then Finish(s, w, false)
    else s
  }

  // ------------------------------------------------------------------ Approval decisions and recovery

  datatype RulingError = UnknownApproval | AlreadyDecided | SelfApproval | Expired | NoCapability

  function RulingProblem(s: State, a: ApprovalId, approver: Subject): Option<RulingError> {
    if a !in s.approvals then Some(UnknownApproval)
    else
      var record := s.approvals[a];
      if record.status != Pending then Some(AlreadyDecided)
      else if approver == record.subject then Some(SelfApproval)
      else if s.world.clock > record.expiresAt then Some(Expired)
      else if !s.Holds(Some(approver), record.capability, record.resource, record.tenant) then Some(NoCapability)
      else None
  }

  function DecideApproval(s: State, a: ApprovalId, approver: Subject, approve: bool): State {
    if RulingProblem(s, a, approver).Some? then s
    else
      s.(approvals := s.approvals[a := s.approvals[a].(status := if approve then Approved else Rejected, approver := Some(approver))])
        .Logged(Ruled(a, approver, approve))
  }

  predicate Interrupted(e: Execution, before: Time) {
    e.state in {Authorized, Running} && e.updatedAt < before
  }

  function Recovered(executions: map<OperationId, Execution>, before: Time, clock: Time): map<OperationId, Execution> {
    map op <- executions ::
      if Interrupted(executions[op], before) then executions[op].(state := OutcomeUnknown, updatedAt := clock) else executions[op]
  }

  /** No worker that may still act owns a record the recovery would touch. */
  ghost predicate WorkersStopped(s: State, before: Time) {
    forall w :: w in s.workers && s.workers[w].HasIntent() && s.workers[w].request.Operation() in s.executions ==>
      !Interrupted(s.executions[s.workers[w].request.Operation()], before)
  }

  function Recover(s: State, before: Time): State {
    s.(executions := Recovered(s.executions, before, s.world.clock))
  }

  // ------------------------------------------------------------------ Runs

  datatype Step =
    | Submit(w: WorkerId, request: Request)
    | DoResolve(w: WorkerId)
    | DoDecide(w: WorkerId, newId: ApprovalId)
    | DoAuthorize(w: WorkerId)
    | DoGrant(w: WorkerId, issued: bool)
    | DoStart(w: WorkerId)
    | DoRecheck(w: WorkerId, tokenValid: bool)
    | DoExecute(w: WorkerId, how: ActionOutcome)
    | DoConclude(w: WorkerId)
    | Crash(w: WorkerId)
    | DoRuling(a: ApprovalId, approver: Subject, approve: bool)
    | DoRecover(before: Time)
    | Change(world: World)

  /** Recovery is run only once the workers concerned have stopped; the clock never goes back. */
  ghost function Next(s: State, step: Step): State {
    match step
    case Submit(w, request) => if w in s.workers then s else s.(workers := s.workers[w := Worker(request, Received)])
    case DoResolve(w) => if w in s.workers && s.workers[w].phase.Received? then Resolve(s, w) else s
    case DoDecide(w, newId) => if w in s.workers then Decide(s, w, newId) else s
    case DoAuthorize(w) => if w in s.workers then Authorize(s, w) else s
    case DoGrant(w, issued) => Grant(s, w, issued)
    case DoStart(w) => Start(s, w)
    case DoRecheck(w, tokenValid) => Recheck(s, w, tokenValid)
    case DoExecute(w, how) => Execute(s, w, how)
    case DoConclude(w) => Conclude(s, w)
    case Crash(w) => if w in s.workers && !s.workers[w].phase.Done? then s.Moved(w, Crashed) else s
    case DoRuling(a, approver, approve) => DecideApproval(s, a, approver, approve)
    case DoRecover(before) => if WorkersStopped(s, before) then Recover(s, before) else s
    case Change(world) => if world.clock >= s.world.clock then s.(world := world) else s
  }

  function Initial(world: World): State {
    State(map[], map[], world, map[], [])
  }

  ghost function Run(world: World, steps: seq<Step>): State {
    if steps == [] then Initial(world) else Next(Run(world, steps[..|steps| - 1]), steps[|steps| - 1])
  }
}
