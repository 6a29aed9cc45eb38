/** The gateway in place: one request from receipt to reply with nothing in between, a ruling on an approval, and
    recovery, each by what it does to the tables. */
module GatewayService {
  import opened Wrappers
  import opened Contracts
  import opened Policy
  import opened Gateway
  import opened GatewayVerdicts

  /** The outcomes of the calls a request makes to code outside. */
  datatype Outside = Outside(newId: ApprovalId, issued: bool, tokenValid: bool, how: ActionOutcome)

  /** Just before the action, subject and authority are as they were, and an approval that the request named is still
      backed, whether or not it was good. */
  predicate Stands(s: State, r: Request) {
    && IdentityUnchanged(s, r)
    && (r.approvalId.Some? && r.approvalId.value in s.approvals ==>
          StillBacked(s, s.approvals[r.approvalId.value], r.resource, r.tenant))
  }

  /** The request comes from a known principal, there is a policy, and its key was not used for a write before. */
  predicate Proceeds(s: State, r: Request) {
    (r.subject, r.tenant) in s.world.mapped && s.world.policy.Some? && (r.action.readOnly || r.Operation() !in s.executions)
  }

  function HashOf(s: State, r: Request): RequestHash
    requires s.world.policy.Some?
  {
    r.Hash(s.world.policy.value.version)
  }

  /** What the policy says to the request, its path and its approval being what they are. */
  function Ruling(s: State, r: Request): Option<Outcome>
    requires s.world.policy.Some?
  {
    OutcomeOf(s.world.policy.value.rules, PolicyInput(s, r, PathExists(s.world, r), ApprovalValid(s, r, HashOf(s, r))))
  }

  /** The approvals once the request's own, if it is good, is spent. */
  function Spent(s: State, r: Request): map<ApprovalId, Approval>
    requires s.world.policy.Some?
  {
    if ApprovalValid(s, r, HashOf(s, r))
    then s.approvals[r.approvalId.value := s.approvals[r.approvalId.value].(status := Consumed)] else s.approvals
  }

  /** The broker issues a grant and, before a write, the second look finds nothing changed. */
  predicate Reached(s: State, r: Request, o: Outside) {
    o.issued && (r.action.readOnly || (o.tokenValid && Stands(s, r)))
  }

  predicate Allows(s: State, r: Request) {
    Proceeds(s, r) && Ruling(s, r) == Some(Allowed)
  }

  /** The subject still maps to a principal with the action's own authority, and if the request names an approval that
      is on record, it has not expired and its approver holds its capability. */
  ghost predicate StillGood(s: State, r: Request) {
    && (r.subject, r.tenant) in s.world.mapped && Claim(r.subject, r.action.cloudAction, r.resource, r.tenant) in s.world.claims
    && (r.approvalId.Some? && r.approvalId.value in s.approvals ==>
          var a := s.approvals[r.approvalId.value];
          s.world.clock <= a.expiresAt && a.approver.Some? && Claim(a.approver.value, a.capability, r.resource, r.tenant) in s.world.claims)
  }

  lemma StandsExactly(s: State, r: Request)
    ensures Stands(s, r) <==> StillGood(s, r)
  {
  }

  /** What a request is answered under the built-in policy, from the tables it finds, and which approval it spends. */
  ghost predicate BuiltInAnswer(s: State, r: Request, o: Outside, reply: Option<Reply>, approvals: map<ApprovalId, Approval>) {
    var op, hash := OperationId(r.tenant, r.subject, r.key), RequestHash(
                    r.subject, r.tenant, r.action, r.resource, r.inputs, r.justification, "2026-09-06.1");
    var known, unused := (r.subject, r.tenant) in s.world.mapped, r.action.readOnly || op !in s.executions;
    var barred, approved := Barred(s.world, r, HasAuthority(s.world, r)), HasApproval(s, r, "2026-09-06.1");
    var allowed := known && unused && !barred && (NeedsRuling(s.world, r) ==> approved);
    && (reply == Some(Deny) <==> !known || (if unused then barred else s.executions[op].hash != hash))
    && (reply == Some(AwaitApproval) <==> known && unused && !barred && NeedsRuling(s.world, r) && !approved)
    && (reply == Some(Allow) <==> allowed && o.issued && o.how.Succeeds? && (r.action.readOnly || (o.tokenValid && StillGood(s, r))))
    && (reply == None <==> allowed && o.issued && !r.action.readOnly && !o.tokenValid)
    && (reply.Some? && reply.value.Replay? <==> known && !unused && s.executions[op].hash == hash)
    && (reply.Some? && reply.value.Replay? ==> op in s.executions && reply.value.state == s.executions[op].state)
    && (allowed && approved ==> approvals == s.approvals[r.approvalId.value := s.approvals[r.approvalId.value].(status := Consumed)])
    && (allowed && !approved ==> approvals == s.approvals)
  }

  /** The terms of the contract below, under the built-in policy. */
  lemma BuiltInTerms(s: State, r: Request, o: Outside)
    requires s.world.policy == Some(DEFAULT_POLICY)
    ensures var approved := HasApproval(s, r, "2026-09-06.1");
            && HashOf(s, r) == RequestHash(r.subject, r.tenant, r.action, r.resource, r.inputs, r.justification, "2026-09-06.1")
            && Ruling(s, r) == Some(BuiltInOutcome(s.world, r, HasAuthority(s.world, r), approved))
            && (Reached(s, r, o) <==> o.issued && (r.action.readOnly || (o.tokenValid && StillGood(s, r))))
            && (approved ==> r.approvalId.Some? && r.approvalId.value in s.approvals)
            && Spent(s, r) == (if approved then s.approvals[r.approvalId.value := s.approvals[r.approvalId.value].(status := Consumed)]
                               else s.approvals)
            && r.Operation() == OperationId(r.tenant, r.subject, r.key)
  {
    hide OutcomeOf, DEFAULT_POLICY, PolicyInput, BuiltInOutcome, Stands, StillGood, ApprovalValid, PathExists, HasAuthority;
    BuiltInVersion();
    PathExistsExactly(s.world, r);
    ApprovalValidExactly(s, r, "2026-09-06.1");
    OutcomeIsBuiltIn(s, r, HasAuthority(s.world, r), HasApproval(s, r, "2026-09-06.1"));
    StandsExactly(s, r);
  }

  /** Every answer that fits the terms is the built-in one. */
  lemma AnswerIsBuiltIn(s: State, r: Request, o: Outside, reply: Option<Reply>, approvals: map<ApprovalId, Approval>)
    requires s.world.policy == Some(DEFAULT_POLICY) && Answers(s, r, o, reply, approvals)
    ensures BuiltInAnswer(s, r, o, reply, approvals)
  {
    hide DEFAULT_POLICY, HashOf, Ruling, Reached, Spent, HasApproval, HasAuthority, Barred, NeedsRuling, StillGood;
    BuiltInTerms(s, r, o);
  }

  lemma AnswersAreBuiltIn(s: State, r: Request, o: Outside)
    ensures s.world.policy == Some(DEFAULT_POLICY) ==>
              forall reply, approvals :: Answers(s, r, o, reply, approvals) ==> BuiltInAnswer(s, r, o, reply, approvals)
  {
    hide DEFAULT_POLICY, Answers, BuiltInAnswer;
    forall reply, approvals | s.world.policy == Some(DEFAULT_POLICY) && Answers(s, r, o, reply, approvals)
      ensures BuiltInAnswer(s, r, o, reply, approvals)
    {
      AnswerIsBuiltIn(s, r, o, reply, approvals);
    }
  }

  /** What a request is answered under any policy, and what becomes of the approvals if it is let through. */
  ghost predicate Answers(s: State, r: Request, o: Outside, reply: Option<Reply>, approvals: map<ApprovalId, Approval>) {
    && (reply == Some(Allow) <==> Allows(s, r) && Reached(s, r, o) && o.how.Succeeds?)
    && (reply == Some(AwaitApproval) <==> Proceeds(s, r) && Ruling(s, r) == Some(ApprovalRequired))
    && (reply == Some(Deny) <==>
        if Proceeds(s, r) then Ruling(s, r) == Some(Denied)
        else !(s.world.policy.Some? && (r.subject, r.tenant) in s.world.mapped) || s.executions[r.Operation()].hash != HashOf(s, r))
    && (reply.Some? && reply.value.Replay? ==>
          !Proceeds(s, r) && r.Operation() in s.executions && s.executions[r.Operation()].state == reply.value.state)
    && (reply == None <==>
        (Proceeds(s, r) && Ruling(s, r) == None) || (Allows(s, r) && !r.action.readOnly && o.issued && !o.tokenValid))
    && (reply.Some? && reply.value == Error ==> Allows(s, r))
    && (Allows(s, r) ==> approvals == Spent(s, r))
  }

  /** What a request does to the tables: nothing if it is refused or replayed, one approval for exactly this request if it
      waits, and its record, with one effect at most, if it is a write that is let through. */
  ghost predicate Changes(
    s: State, before: seq<OperationId>, r: Request, o: Outside, reply: Option<Reply>, t: State, after: seq<OperationId>)
  {
    && (!Allows(s, r) ==> t.executions == s.executions && after == before)
    && (!Allows(s, r) && reply != Some(AwaitApproval) ==> t.approvals == s.approvals)
    && (reply == Some(AwaitApproval) ==>
          && s.world.policy.Some?
          && t.approvals == s.approvals[o.newId := Approval(
               r.subject, r.action.name, r.resource, HashOf(s, r), "approval:" + r.action.name, r.justification, r.tenant,
               s.world.clock + s.world.approvalTtl, Pending, None)])
    && (Allows(s, r) && r.action.readOnly ==> t.executions == s.executions && after == before)
    && (Allows(s, r) && !r.action.readOnly ==>
          && r.Operation() !in s.executions
          && t.executions == s.executions[r.Operation() := Execution(HashOf(s, r), s.world.policy.value.version,
               if reply == None then Running else if reply == Some(Allow) then Succeeded else OutcomeUnknown, s.world.clock)]
          && after == before + if Reached(s, r, o) && !o.how.FailsBefore? then [r.Operation()] else [])
  }

  lemma StatusLeavesStanding(s: State, t: State, r: Request)
    requires t.world == s.world && t.approvals.Keys == s.approvals.Keys
    requires forall id :: id in s.approvals ==> t.approvals[id] == s.approvals[id].(status := t.approvals[id].status)
    ensures Stands(t, r) <==> Stands(s, r)
  {
  }

  lemma ValidIsApproved(s: State, r: Request, hash: RequestHash)
    requires ApprovalValid(s, r, hash)
    ensures r.approvalId.Some? && r.approvalId.value in s.approvals
  {
  }

  class Service {
    var approvals: map<ApprovalId, Approval>
    var executions: map<OperationId, Execution>
    var world: World
    /** The operations that took effect, one entry per effect. */
    ghost var effects: seq<OperationId>

    function Tables(): State
      reads this
    {
      State(approvals, executions, world, map[], [])
    }

    constructor (world: World)
      ensures approvals == map[] && executions == map[] && this.world == world && effects == []
    {
      this.approvals, this.executions, this.world := map[], map[], world;
      this.effects := [];
    }

    /** One request, run alone. An allowed write leaves exactly one effect and a record of success; a read leaves
        neither. Only a good approval that the request named is spent. A refusal or a replay changes nothing, a pending
        decision adds one approval for exactly this request, and an error after the intent leaves a record nobody may
        take for a success. `None` is a request that raised. */
    method HandleRequest(r: Request, o: Outside) returns (reply: Option<Reply>)
      requires o.newId !in approvals
      modifies this
      ensures world == old(world)
      ensures Answers(old(Tables()), r, o, reply, approvals)
      ensures Changes(old(Tables()), old(effects), r, o, reply, Tables(), effects)
      ensures old(world.policy) == Some(DEFAULT_POLICY) ==> BuiltInAnswer(old(Tables()), r, o, reply, approvals)
    {
      hide OutcomeOf, Answers, BuiltInAnswer, Changes, DEFAULT_POLICY;
      AnswersAreBuiltIn(Tables(), r, o);
      reply := Serve(r, o);
    }

    /** The procedure itself. */
    method Serve(r: Request, o: Outside) returns (reply: Option<Reply>)
      requires o.newId !in approvals
      modifies this
      ensures world == old(world)
      ensures Answers(old(Tables()), r, o, reply, approvals)
      ensures Changes(old(Tables()), old(effects), r, o, reply, Tables(), effects)
    {
      hide Ruling, ApprovalValid, PathExists, Reached, Spent, DEFAULT_POLICY;
      if (r.subject, r.tenant) !in world.mapped {
        return Some(Deny);
      }
      var path := PathExists(world, r);
      if world.policy.None? {
        return Some(Deny);
      }
      var op, hash := r.Operation(), r.Hash(world.policy.value.version);
      if !r.action.readOnly && op in executions {
        var existing := executions[op];
        return Some(if existing.hash != hash then Deny else Replay(existing.state));
      }
      reply := Decide(r, path, hash, o);
    }

    /** From the lookup of the approval on. */
    method Decide(r: Request, path: bool, hash: RequestHash, o: Outside) returns (reply: Option<Reply>)
      requires o.newId !in approvals
      requires Proceeds(Tables(), r) && path == PathExists(world, r) && hash == HashOf(Tables(), r)
      modifies this`approvals, this`executions, this`effects
      ensures Answers(old(Tables()), r, o, reply, approvals)
      ensures Changes(old(Tables()), old(effects), r, o, reply, Tables(), effects)
    {
      hide OutcomeOf, AnyApplies, ApprovalValid, PolicyInput, PathExists, Reached, Spent, DEFAULT_POLICY;
      var policy, valid := world.policy.value, ApprovalValid(Tables(), r, hash);
      match OutcomeOf(policy.rules, PolicyInput(Tables(), r, path, valid)) {
        case None => return None;
        case Some(Denied) => return Some(Deny);
        case Some(ApprovalRequired) =>
          approvals := approvals[o.newId := Requested(r, hash, world.clock + world.approvalTtl)];
          return Some(AwaitApproval);
        case Some(Allowed) =>
          reply := Authorize(r, hash, valid, o);
      }
    }

    /** From the decision on: the approval is spent and, for a write, the intent recorded. */
    method Authorize(r: Request, hash: RequestHash, valid: bool, o: Outside) returns (reply: Option<Reply>)
      requires world.policy.Some? && hash == HashOf(Tables(), r) && valid == ApprovalValid(Tables(), r, hash)
      requires r.action.readOnly || r.Operation() !in executions
      modifies this`approvals, this`executions, this`effects
      ensures approvals == Spent(old(Tables()), r)
      ensures reply == Some(Allow) <==> Reached(old(Tables()), r, o) && o.how.Succeeds?
      ensures reply == None <==> !r.action.readOnly && o.issued && !o.tokenValid
      ensures reply.None? || reply.value == Allow || reply.value == Error
      ensures r.action.readOnly ==> executions == old(executions) && effects == old(effects)
      ensures !r.action.readOnly ==>
                && executions == old(executions)[r.Operation() := Execution(hash, world.policy.value.version,
                     if reply == None then Running else if reply == Some(Allow) then Succeeded else OutcomeUnknown, world.clock)]
                && effects == old(effects) + if Reached(old(Tables()), r, o) && !o.how.FailsBefore? then [r.Operation()] else []
    {
      hide ApprovalValid, Stands;
      ghost var before := Tables();
      if valid {
        ValidIsApproved(Tables(), r, hash);
        var id := r.approvalId.value;
        approvals := approvals[id := approvals[id].(status := Consumed)];
      }
      if r.action.readOnly {
        return Some(if o.issued && o.how.Succeeds? then Allow else Error);
      }
      executions := executions[r.Operation() := Execution(hash, world.policy.value.version, Authorized, world.clock)];
      StatusLeavesStanding(before, Tables(), r);
      reply := CarryOut(r, o);
    }

    /** The part of a write after its intent is durable. */
    method CarryOut(r: Request, o: Outside) returns (reply: Option<Reply>)
      requires r.Operation() in executions && !r.action.readOnly
      modifies this`executions, this`effects
      ensures reply == None <==> o.issued && !o.tokenValid
      ensures reply == Some(Allow) <==> Reached(old(Tables()), r, o) && o.how.Succeeds?
      ensures reply.None? || reply.value == Allow || reply.value == Error
      ensures effects == old(effects) + if Reached(old(Tables()), r, o) && !o.how.FailsBefore? then [r.Operation()] else []
      ensures executions == old(executions)[r.Operation() := old(executions)[r.Operation()].(
                state := if reply == None then Running else if reply == Some(Allow) then Succeeded else OutcomeUnknown,
                updatedAt := world.clock)]
    {
      hide Stands, StillBacked, IdentityUnchanged;
      var op := r.Operation();
      ghost var before := Tables();
      if !o.issued {
        Mark(op, OutcomeUnknown);
        return Some(Error);
      }
      Mark(op, Running);
      if !o.tokenValid {
        return None;
      }
      StatusLeavesStanding(before, Tables(), r);
      if !Stands(Tables(), r) {
        Mark(op, OutcomeUnknown);
        return Some(Error);
      }
      if !o.how.FailsBefore? {
        effects := effects + [op];
      }
      Mark(op, if o.how.Succeeds? then Succeeded else OutcomeUnknown);
      return Some(if o.how.Succeeds? then Allow else Error);
    }

    method Mark(op: OperationId, state: ExecutionState)
      requires op in executions
      modifies this`executions
      ensures executions == old(executions)[op := old(executions)[op].(state := state, updatedAt := world.clock)]
    {
      executions := executions[op := executions[op].(state := state, updatedAt := world.clock)];
    }

    /** A ruling is accepted exactly while the approval is pending and in time, from someone other than its subject who
        holds its capability; it then settles that approval and no other. */
    method DecideApproval(id: ApprovalId, approver: Subject, approve: bool) returns (problem: Option<RulingError>)
      modifies this`approvals
      ensures problem.None? <==>
              && id in old(approvals) && old(approvals)[id].status == Pending && approver != old(approvals)[id].subject
              && world.clock <= old(approvals)[id].expiresAt
              && Claim(approver, old(approvals)[id].capability, old(approvals)[id].resource, old(approvals)[id].tenant) in world.claims
      ensures problem.None? ==>
                approvals == old(approvals)[id := old(approvals)[id].(status := if approve then Approved else Rejected, approver := Some(approver))]
      ensures problem.Some? ==> approvals == old(approvals)
      ensures problem == RulingProblem(old(Tables()), id, approver)
    {
      if id !in approvals {
        return Some(UnknownApproval);
      }
      var a := approvals[id];
      if a.status != Pending {
        return Some(AlreadyDecided);
      }
      if approver == a.subject {
        return Some(SelfApproval);
      }
      if world.clock > a.expiresAt {
        return Some(Expired);
      }
      if Claim(approver, a.capability, a.resource, a.tenant) !in world.claims {
        return Some(NoCapability);
      }
      approvals := approvals[id := a.(status := if approve then Approved else Rejected, approver := Some(approver))];
      return None;
    }

    /** Marks every interrupted record, and counts them. */
    method MarkInterrupted(before: Time) returns (count: nat)
      modifies this`executions
      ensures executions == Recovered(old(executions), before, world.clock)
      ensures count == |set op | op in old(executions) && Interrupted(old(executions)[op], before)|
    {
      var found := executions;
      var pending := set op | op in executions && Interrupted(executions[op], before);
      count := |pending|;
      while pending != {}
        invariant executions.Keys == found.Keys && pending <= found.Keys
        invariant forall op :: op in found ==>
                    (op in pending ==> Interrupted(found[op], before)) &&
                    executions[op] == if Interrupted(found[op], before) && op !in pending
                                      then found[op].(state := OutcomeUnknown, updatedAt := world.clock) else found[op]
        decreases pending
      {
        var op :| op in pending;
        executions := executions[op := executions[op].(state := OutcomeUnknown, updatedAt := world.clock)];
        pending := pending - {op};
      }
      assert executions == Recovered(found, before, world.clock);
    }
  }
}
