/** What the gateway decides under the built-in policy, in terms of the request and the tables. */
module GatewayVerdicts {
  import opened Wrappers
  import opened Contracts
  import opened Policy
  import opened Gateway
  import PolicyDecisions

  // ------------------------------------------------------------------ The request against its surroundings

  /** Paths resolve for the action's own authority and for every one it implies. */
  ghost predicate HasAuthority(world: World, r: Request) {
    && Claim(r.subject, r.action.cloudAction, r.resource, r.tenant) in world.claims
    && forall i :: 0 <= i < |r.action.additional| ==> Claim(r.subject, r.action.additional[i], r.resource, r.tenant) in world.claims
  }

  ghost predicate IsSensitive(world: World, r: Request) {
    r.resource in world.objects && world.objects[r.resource].1 == Str("sensitive")
  }

  ghost predicate IsProduction(world: World, r: Request) {
    r.resource in world.objects && world.objects[r.resource].0 == Str("production")
  }

  ghost predicate HasCase(r: Request) {
    r.justification.caseId != Null && r.justification.caseId != Bool(false) && r.justification.caseId != Num(0)
    && r.justification.caseId != Str("") && !(r.justification.caseId.Structure? && r.justification.caseId.empty)
  }

  /** Writes, and reads of sensitive resources. */
  ghost predicate NeedsRuling(world: World, r: Request) {
    !r.action.readOnly || IsSensitive(world, r)
  }

  /** Refused by the built-in policy: no authority, no second factor, a risk above 70 or unknown where a ruling is
      needed, or production without a case. */
  ghost predicate Barred(world: World, r: Request, authority: bool) {
    || !authority || !r.mfa
    || (r.risk.Some? && r.risk.value > 70) || (r.risk.None? && NeedsRuling(world, r))
    || (IsProduction(world, r) && !HasCase(r))
  }

  /** The request names an approval granted for exactly what it asks under this policy version, and not yet spent or
      expired, whose approver still holds its capability. */
  ghost predicate HasApproval(s: State, r: Request, version: string) {
    && r.approvalId.Some? && r.approvalId.value in s.approvals
    && var a := s.approvals[r.approvalId.value];
       && a.status == Approved && a.subject == r.subject && a.action == r.action.name && a.resource == r.resource
       && a.tenant == r.tenant && a.justification == r.justification
       && a.hash == RequestHash(r.subject, r.tenant, r.action, r.resource, r.inputs, r.justification, version)
       && s.world.clock <= a.expiresAt
       && a.approver.Some? && Claim(a.approver.value, a.capability, r.resource, r.tenant) in s.world.claims
  }

  lemma ApprovalValidExactly(s: State, r: Request, version: string)
    ensures ApprovalValid(s, r, r.Hash(version)) <==> HasApproval(s, r, version)
  {
  }

  lemma PathExistsExactly(world: World, r: Request)
    ensures PathExists(world, r) <==> HasAuthority(world, r)
  {
  }

  // ------------------------------------------------------------------ The decision

  /** What the built-in policy says to a request: refused, waiting for a ruling, or allowed. */
  ghost function BuiltInOutcome(world: World, r: Request, authority: bool, approved: bool): Outcome {
    if Barred(world, r, authority) then Denied else if NeedsRuling(world, r) && !approved then ApprovalRequired else Allowed
  }

  lemma OutcomeIsBuiltIn(s: State, r: Request, authority: bool, approved: bool)
    ensures OutcomeOf(DEFAULT_POLICY.rules, PolicyInput(s, r, authority, approved)) == Some(BuiltInOutcome(s.world, r, authority, approved))
  {
    hide OutcomeOf, DEFAULT_POLICY;
    DefaultPolicyDecides(PolicyInput(s, r, authority, approved));
  }

  /** The decision step under the built-in policy: which request is refused, which waits for which approval, and which
      goes on with which approval to spend. */
  lemma DecideExactly(s: State, w: WorkerId, newId: ApprovalId, version: string)
    requires w in s.workers && s.workers[w].phase.Hashed? && newId !in s.approvals && s.world.policy == Some(DEFAULT_POLICY)
    requires s.workers[w].phase.hash == s.workers[w].request.Hash(version)
    ensures var r, path := s.workers[w].request, s.workers[w].phase.path;
            var t, approved, hash := Decide(s, w, newId), HasApproval(s, r, version),
                                     RequestHash(r.subject, r.tenant, r.action, r.resource, r.inputs, r.justification, version);
            && (t.workers[w].phase == Done(Deny) <==> Barred(s.world, r, path))
            && (t.workers[w].phase == Done(AwaitApproval) <==> !Barred(s.world, r, path) && NeedsRuling(s.world, r) && !approved)
            && (t.workers[w].phase.Flight? <==> !Barred(s.world, r, path) && (NeedsRuling(s.world, r) ==> approved))
            && (t.workers[w].phase.Flight? ==>
                  t.workers[w].phase == Flight(Decided, Ticket(hash, if approved then r.approvalId else None,
                    r.approvalId.Some? && r.approvalId.value in s.approvals, NeedsRuling(s.world, r), "2026-09-06.1")))
            && t.approvals == (if t.workers[w].phase != Done(AwaitApproval) then s.approvals else s.approvals[newId := Approval(
                 r.subject, r.action.name, r.resource, hash, "approval:" + r.action.name, r.justification, r.tenant,
                 s.world.clock + s.world.approvalTtl, Pending, None)])
            && t.executions == s.executions
  {
    hide OutcomeOf, ApprovalValid, HasApproval, Barred, AnyApplies, DEFAULT_POLICY;
    var r, path := s.workers[w].request, s.workers[w].phase.path;
    ApprovalValidExactly(s, r, version);
    OutcomeIsBuiltIn(s, r, path, HasApproval(s, r, version));
    var input := PolicyInput(s, r, path, HasApproval(s, r, version));
    DefaultEffects(input);
    BuiltInVersion();
  }

  lemma BuiltInVersion()
    ensures DEFAULT_POLICY.version == "2026-09-06.1"
  {
  }

  // ------------------------------------------------------------------ Step by step

  /** Only the phase of `w` differs. */
  ghost predicate OnlyPhase(s: State, t: State, w: WorkerId) {
    && w in s.workers && w in t.workers && t == s.(workers := s.workers[w := Worker(s.workers[w].request, t.workers[w].phase)])
  }

  /** ... and the record of the worker's operation, which is in the given state as of now. */
  ghost predicate OnlyRecord(s: State, t: State, w: WorkerId, state: ExecutionState) {
    && w in s.workers && w in t.workers
    && var r := s.workers[w].request;
       var op := OperationId(r.tenant, r.subject, r.key);
       && t == s.(workers := s.workers[w := Worker(r, t.workers[w].phase)], executions := t.executions)
       && t.executions == if op in s.executions
                          then s.executions[op := Execution(s.executions[op].hash, s.executions[op].policyVersion, state, s.world.clock)]
                          else s.executions
  }

  /** The first step: a stranger is refused, and so is a key used before for another write; a key used for the same write
      is answered from its record; everybody else goes on with what the graph says and a hash of all they asked. */
  lemma ResolveExactly(s: State, w: WorkerId)
    requires w in s.workers
    ensures var r, t := s.workers[w].request, Resolve(s, w);
            var op, known := OperationId(r.tenant, r.subject, r.key), (r.subject, r.tenant) in s.world.mapped && s.world.policy.Some?;
            var used := r.action.readOnly == false && op in s.executions;
            var hash := RequestHash(r.subject, r.tenant, r.action, r.resource, r.inputs, r.justification,
                                    if s.world.policy.Some? then s.world.policy.value.version else "");
            && OnlyPhase(s, t, w)
            && (t.workers[w].phase == Done(Deny) <==> !known || (used && s.executions[op].hash != hash))
            && (t.workers[w].phase.Done? && t.workers[w].phase.reply.Replay? <==> known && used && s.executions[op].hash == hash)
            && (known && used && s.executions[op].hash == hash ==> t.workers[w].phase == Done(Replay(s.executions[op].state)))
            && (known && !used ==> t.workers[w].phase == Hashed(HasAuthority(s.world, r), hash))
  {
    hide PathExists, HasAuthority;
    PathExistsExactly(s.world, s.workers[w].request);
  }

  /** The commit: it needs the approval of the ticket, if any, to be approved still; a write needs a key not yet used.
      Then the approval is consumed, and a write has its record. */
  lemma AuthorizeExactly(s: State, w: WorkerId)
    requires At(s, w, Decided)
    ensures var r, ticket, t := s.workers[w].request, s.workers[w].phase.ticket, Authorize(s, w);
            var op, id := OperationId(r.tenant, r.subject, r.key), ticket.approval;
            var ready := id.Some? ==> id.value in s.approvals && s.approvals[id.value].status == Approved;
            var taken := r.action.readOnly == false && op in s.executions;
            && (!ready ==> OnlyPhase(s, t, w) && t.workers[w].phase == Done(Deny))
            && (ready && taken ==> OnlyPhase(s, t, w) && t.workers[w].phase == Crashed)
            && (ready && !taken ==>
                  && t.workers == s.workers[w := Worker(r, if r.action.readOnly then Done(Allow) else Flight(Intent, ticket))]
                  && t.approvals == (if id.None? then s.approvals else s.approvals[id.value := s.approvals[id.value].(status := Consumed)])
                  && t.executions == (if r.action.readOnly then s.executions
                                      else s.executions[op := Execution(ticket.hash, ticket.policyVersion, Authorized, s.world.clock)])
                  && t.world == s.world)
  {
  }

  lemma GrantExactly(s: State, w: WorkerId, issued: bool)
    requires At(s, w, Intent)
    ensures var t := Grant(s, w, issued);
            if issued then OnlyPhase(s, t, w) && t.workers[w].phase == Flight(Granted, s.workers[w].phase.ticket)
            else OnlyRecord(s, t, w, OutcomeUnknown) && t.workers[w].phase == Done(Error)
  {
  }

  lemma StartExactly(s: State, w: WorkerId)
    requires At(s, w, Granted)
    ensures var t := Start(s, w);
            OnlyRecord(s, t, w, Running) && t.workers[w].phase == Flight(Started, s.workers[w].phase.ticket)
  {
  }

  /** The second check of a request with its ticket: the subject still maps and has the action's own authority, the policy
      is the one decided under, and an approval that was on record is unexpired and its approver has its capability. */
  ghost predicate Unchanged(s: State, r: Request, ticket: Ticket) {
    && (r.subject, r.tenant) in s.world.mapped && Claim(r.subject, r.action.cloudAction, r.resource, r.tenant) in s.world.claims
    && s.world.policy.Some? && s.world.policy.value.version == ticket.policyVersion
    && (ticket.found && r.approvalId.Some? && r.approvalId.value in s.approvals ==>
          var a := s.approvals[r.approvalId.value];
          s.world.clock <= a.expiresAt && a.approver.Some? && Claim(a.approver.value, a.capability, r.resource, r.tenant) in s.world.claims)
  }

  /** It passes exactly if nothing changed; otherwise the outcome is unknown, unless reading the policy or the token
      raises. */
  lemma RecheckExactly(s: State, w: WorkerId, tokenValid: bool)
    requires At(s, w, Started)
    ensures var r, ticket, t := s.workers[w].request, s.workers[w].phase.ticket, Recheck(s, w, tokenValid);
            && (t.workers[w].phase == Flight(Rechecked, ticket) <==> tokenValid && Unchanged(s, r, ticket))
            && (t.workers[w].phase == Flight(Rechecked, ticket) ==>
                  t == s.(workers := t.workers, journal := s.journal + [Entry(Confirmed(w), s.world)])
                  && t.workers == s.workers[w := Worker(r, Flight(Rechecked, ticket))])
            && (t.workers[w].phase == Crashed <==>
                !tokenValid || ((r.subject, r.tenant) in s.world.mapped
                                && Claim(r.subject, r.action.cloudAction, r.resource, r.tenant) in s.world.claims && s.world.policy.None?))
            && (t.workers[w].phase == Crashed ==> OnlyPhase(s, t, w))
            && (t.workers[w].phase in {Flight(Rechecked, ticket), Crashed} || (OnlyRecord(s, t, w, OutcomeUnknown) && t.workers[w].phase == Done(Error)))
  {
  }

  /** The action takes effect unless it fails before, and its worker knows whether it succeeded. */
  lemma ExecuteExactly(s: State, w: WorkerId, how: ActionOutcome)
    requires At(s, w, Rechecked)
    ensures var r, ticket, t := s.workers[w].request, s.workers[w].phase.ticket, Execute(s, w, how);
            && t == s.(workers := s.workers[w := Worker(r, Flight(Executed(how == Succeeds), ticket))],
                       journal := s.journal + if how == FailsBefore then [] else [Entry(Effected(w, r, ticket), s.world)])
  {
  }

  lemma ConcludeExactly(s: State, w: WorkerId, ok: bool)
    requires At(s, w, Executed(ok))
    ensures var t := Conclude(s, w);
            OnlyRecord(s, t, w, if ok then Succeeded else OutcomeUnknown) && t.workers[w].phase == Done(if ok then Allow else Error)
  {
  }

  /** A ruling settles a pending approval in time, by someone else who holds its capability; otherwise it changes nothing,
      and the first thing missing is the reason. */
  lemma RulingExactly(s: State, id: ApprovalId, approver: Subject, approve: bool)
    ensures var t := DecideApproval(s, id, approver, approve);
            if id in s.approvals && s.approvals[id].status == Pending && approver != s.approvals[id].subject
               && s.world.clock <= s.approvals[id].expiresAt
               && Claim(approver, s.approvals[id].capability, s.approvals[id].resource, s.approvals[id].tenant) in s.world.claims
            then t == s.(approvals := s.approvals[id := s.approvals[id].(
                           status := if approve then Approved else Rejected, approver := Some(approver))],
                         journal := s.journal + [Entry(Ruled(id, approver, approve), s.world)])
            else t == s
    ensures RulingProblem(s, id, approver) == Some(UnknownApproval) <==> id !in s.approvals
    ensures id in s.approvals ==>
              var a := s.approvals[id];
              && (RulingProblem(s, id, approver) == Some(AlreadyDecided) <==> a.status != Pending)
              && (RulingProblem(s, id, approver) == Some(SelfApproval) <==> a.status == Pending && approver == a.subject)
              && (RulingProblem(s, id, approver) == Some(Expired) <==>
                  a.status == Pending && approver != a.subject && s.world.clock > a.expiresAt)
  {
  }

  /** Recovery settles exactly the records that were authorized or running and not touched since. */
  lemma RecoverExactly(s: State, before: Time)
    ensures var t := Recover(s, before);
            && t == s.(executions := t.executions) && t.executions.Keys == s.executions.Keys
            && forall op :: op in s.executions ==>
                 t.executions[op] ==
                 if (s.executions[op].state == Authorized || s.executions[op].state == Running) && s.executions[op].updatedAt < before
                 then Execution(s.executions[op].hash, s.executions[op].policyVersion, OutcomeUnknown, s.world.clock)
                 else s.executions[op]
  {
  }

  // ------------------------------------------------------------------ What a policy sees

  /** Under any policy, a condition is about the request's own path, session, action and case, and about the attributes of
      the object that the resource names. */
  lemma ConditionsSee(s: State, r: Request, path: bool, approved: bool, c: Condition)
    ensures var input := PolicyInput(s, r, path, approved);
            && input.approvalPresent == approved
            && match c.key
               case AccessPathExists => Holds(c, input) == Some(PolicyDecisions.Writes(c.expected, path))
               case SessionMfa => Holds(c, input) == Some(PolicyDecisions.Writes(c.expected, r.mfa))
               case SessionRiskUnknown => Holds(c, input) == Some(PolicyDecisions.Writes(c.expected, r.risk == None))
               case ActionReadOnly => Holds(c, input) == Some(PolicyDecisions.Writes(c.expected, r.action.readOnly))
               case HasCaseId => Holds(c, input) == Some(PolicyDecisions.Writes(c.expected, Truthy(r.justification.caseId)))
               case SessionRiskAbove =>
                 Holds(c, input) == if r.risk.None? then Some(false)
                                    else (match c.expected
                                          case Num(n) => Some(r.risk.value > n)
                                          case Bool(b) => Some(r.risk.value > if b then 1 else 0)
                                          case _ => None)
               case ResourceEnvironment =>
                 Holds(c, input) == Some(PolicyDecisions.Equal(if r.resource in s.world.objects then s.world.objects[r.resource].0 else Null, c.expected))
               case ResourceClassification =>
                 Holds(c, input) == Some(PolicyDecisions.Equal(if r.resource in s.world.objects then s.world.objects[r.resource].1 else Null, c.expected))
               case Unsupported(_) => Holds(c, input) == Some(false)
  {
    hide PolicyDecisions.Writes, PolicyDecisions.Equal, Holds;
    var input := PolicyInput(s, r, path, approved);
    PolicyDecisions.AttributeHolds(c, input);
    if PolicyDecisions.Flag(c.key, input).Some? {
      PolicyDecisions.FlagHolds(c, input);
    }
    if c.key == SessionRiskAbove {
      PolicyDecisions.RiskHolds(c, input);
    }
  }

  // ------------------------------------------------------------------ What comes between the steps of a request

  /** A worker may crash at any time before it has answered, and is then gone with all it knew; the surroundings change at
      will, but never back in time. */
  lemma DisturbancesExactly(s: State, w: WorkerId, world: World)
    ensures var t := Next(s, Crash(w));
            if w in s.workers && !s.workers[w].phase.Done?
            then t == s.(workers := s.workers[w := Worker(s.workers[w].request, Crashed)]) else t == s
    ensures Next(s, Change(world)) == if s.world.clock <= world.clock then s.(world := world) else s
  {
    hide WorkersStopped, Recover, Resolve, Decide, Authorize, Grant, Start, Recheck, Execute, Conclude, DecideApproval;
  }

  /** The worker is past its commit and unfinished, with a record that recovery would settle. */
  ghost predicate StillOwns(s: State, w: WorkerId, before: Time) {
    && w in s.workers && s.workers[w].phase.Flight? && s.workers[w].phase.stage != Decided
    && var op := s.workers[w].request.Operation();
       && op in s.executions && s.executions[op].updatedAt < before
       && (s.executions[op].state == Authorized || s.executions[op].state == Running)
  }

  /** Recovery runs exactly if no worker still owns a record that it would settle. */
  lemma RecoveryRunsExactly(s: State, before: Time)
    ensures Next(s, DoRecover(before)) == if forall w :: !StillOwns(s, w, before) then Recover(s, before) else s
  {
    hide Recover, Resolve, Decide, Authorize, Grant, Start, Recheck, Execute, Conclude, DecideApproval;
    forall w | w in s.workers
      ensures StillOwns(s, w, before) <==>
                && s.workers[w].HasIntent() && s.workers[w].request.Operation() in s.executions
                && Interrupted(s.executions[s.workers[w].request.Operation()], before)
    {
    }
    hide StillOwns, Interrupted, Worker.HasIntent;
  }
}
