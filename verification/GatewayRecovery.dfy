/** When recovery is final: what a worker that has not stopped can still do to the records recovery settled. */
module GatewayRecovery {
  import opened Wrappers
  import opened Contracts
  import opened Gateway
  import opened GatewaySafety

  /** The state after more steps. */
  ghost function After(s: State, steps: seq<Step>): State {
    if steps == [] then s else Next(After(s, steps[..|steps| - 1]), steps[|steps| - 1])
  }

  lemma AfterSnoc(s: State, steps: seq<Step>, step: Step)
    ensures After(s, steps + [step]) == Next(After(s, steps), step)
  {
    hide Next;
    assert (steps + [step])[..|steps|] == steps;
  }

  lemma AfterThree(s: State, a: Step, b: Step, c: Step)
    ensures After(s, [a, b, c]) == Next(Next(Next(s, a), b), c)
  {
    hide Next;
    AfterSnoc(s, [], a);
    AfterSnoc(s, [a], b);
    AfterSnoc(s, [a, b], c);
    assert [] + [a] == [a] && [a] + [b] == [a, b] && [a, b] + [c] == [a, b, c];
  }

  lemma AfterTwo(s: State, a: Step, b: Step)
    ensures After(s, [a, b]) == Next(Next(s, a), b)
  {
    hide Next;
    AfterSnoc(s, [], a);
    AfterSnoc(s, [a], b);
    assert [] + [a] == [a] && [a] + [b] == [a, b];
  }

  /** After these steps a terminal record is no longer what it was. */
  ghost predicate Rewrites(s: State, steps: seq<Step>, op: OperationId) {
    IsTerminal(s, op) && !(op in After(s, steps).executions && After(s, steps).executions[op] == s.executions[op])
  }

  /** ... or not even terminal. */
  ghost predicate Revives(s: State, steps: seq<Step>, op: OperationId) {
    IsTerminal(s, op) && !IsTerminal(After(s, steps), op)
  }

  /** `w` is past the commit of its intent, and recovery would settle its record. */
  ghost predicate Concerned(s: State, before: Time, w: WorkerId) {
    && w in s.workers && s.workers[w].HasIntent() && s.workers[w].request.Operation() in s.executions
    && Interrupted(s.executions[s.workers[w].request.Operation()], before)
  }

  predicate YetToStart(s: State, w: WorkerId) {
    At(s, w, Intent) || At(s, w, Granted)
  }

  // ------------------------------------------------------------------ Stopped workers

  lemma {:induction false} SafeAfter(s: State, steps: seq<Step>, op: OperationId)
    requires Safe(s)
    ensures Safe(After(s, steps)) && !Rewrites(s, steps, op)
  {
    hide Safe, Next;
    if steps != [] {
      var before := steps[..|steps| - 1];
      SafeAfter(s, before, op);
      NextKeepsSafe(After(s, before), steps[|steps| - 1]);
      if IsTerminal(s, op) {
        TerminalKept(After(s, before), steps[|steps| - 1], op);
      }
    }
  }

  // ------------------------------------------------------------------ A worker that has not stopped

  /** The same surroundings a tick later, with nobody mapped. */
  function Later(world: World): World {
    world.(clock := world.clock + 1, mapped := {})
  }

  /** Wherever it stands, a worker that has not stopped can date its record anew. */
  lemma LiveWorkerRewrites(s: State, before: Time, w: WorkerId) returns (steps: seq<Step>)
    requires Concerned(s, before, w)
    ensures Rewrites(Recover(s, before), steps, s.workers[w].request.Operation())
  {
    var r, op, stage := Recover(s, before), s.workers[w].request.Operation(), s.workers[w].phase.stage;
    var tick := Change(Later(s.world));
    assert IsTerminal(r, op) && r.executions[op].updatedAt == s.world.clock;
    if stage == Rechecked {
      steps := [tick, DoExecute(w, FailsBefore), DoConclude(w)];
      AfterThree(r, steps[0], steps[1], steps[2]);
      LateEffectIsDated(Next(r, tick), w);
    } else {
      steps := [tick, if stage == Intent then DoGrant(w, false) else if stage == Granted then DoStart(w)
                      else if stage == Started then DoRecheck(w, true) else DoConclude(w)];
      AfterTwo(r, steps[0], steps[1]);
      LateStepIsDated(Next(r, tick), w, steps[1]);
    }
  }

  lemma LateStepIsDated(s: State, w: WorkerId, step: Step)
    requires w in s.workers && s.workers[w].HasIntent() && s.workers[w].request.Operation() in s.executions && s.world.mapped == {}
    requires match s.workers[w].phase.stage
             case Intent => step == DoGrant(w, false)
             case Granted => step == DoStart(w)
             case Started => step == DoRecheck(w, true)
             case Executed(_) => step == DoConclude(w)
             case _ => false
    ensures var op := s.workers[w].request.Operation();
            op in Next(s, step).executions && Next(s, step).executions[op].updatedAt == s.world.clock
  {
  }

  lemma LateEffectIsDated(s: State, w: WorkerId)
    requires At(s, w, Rechecked) && s.workers[w].request.Operation() in s.executions
    ensures var op := s.workers[w].request.Operation(); var t := Next(Next(s, DoExecute(w, FailsBefore)), DoConclude(w));
            op in t.executions && t.executions[op].updatedAt == s.world.clock
  {
  }

  // ------------------------------------------------------------------ Leaving the terminal states

  /** The record of `op` is terminal, and nobody can start under it. */
  ghost predicate Settled(s: State, op: OperationId) {
    IsTerminal(s, op) && forall w :: w in s.workers && YetToStart(s, w) ==> s.workers[w].request.Operation() != op
  }

  lemma SettledStays(s: State, step: Step, op: OperationId)
    requires Settled(s, op)
    ensures Settled(Next(s, step), op)
  {
    match step {
      case DoAuthorize(w) => AuthorizeSettles(s, w, op);
      case DoDecide(w, newId) => DecideSettles(s, w, newId, op);
      case DoRecheck(w, tokenValid) => RecheckSettles(s, w, tokenValid, op);
      case DoResolve(w) => ResolveSettles(s, w, op);
      case DoGrant(_, _) | DoStart(_) =>
      case DoExecute(_, _) | DoConclude(_) => LateStepSettles(s, step, op);
      case _ => BystanderSettles(s, step, op);
    }
  }

  lemma LateStepSettles(s: State, step: Step, op: OperationId)
    requires Settled(s, op) && (step.DoExecute? || step.DoConclude?)
    ensures Settled(Next(s, step), op)
  {
  }

  lemma BystanderSettles(s: State, step: Step, op: OperationId)
    requires Settled(s, op) && (step.Submit? || step.Crash? || step.DoRuling? || step.DoRecover? || step.Change?)
    ensures Settled(Next(s, step), op)
  {
    hide WorkersStopped, RulingProblem;
  }

  lemma ResolveSettles(s: State, w: WorkerId, op: OperationId)
    requires Settled(s, op)
    ensures Settled(Next(s, DoResolve(w)), op)
  {
    hide PathExists;
  }

  lemma DecideSettles(s: State, w: WorkerId, newId: ApprovalId, op: OperationId)
    requires Settled(s, op)
    ensures Settled(Next(s, DoDecide(w, newId)), op)
  {
    hide Policy.OutcomeOf, ApprovalValid, PolicyInput, TicketFor, Requested;
  }

  lemma AuthorizeSettles(s: State, w: WorkerId, op: OperationId)
    requires Settled(s, op)
    ensures Settled(Next(s, DoAuthorize(w)), op)
  {
  }

  lemma RecheckSettles(s: State, w: WorkerId, tokenValid: bool, op: OperationId)
    requires Settled(s, op)
    ensures Settled(Next(s, DoRecheck(w, tokenValid)), op)
  {
    hide TermsUnchanged, IdentityUnchanged;
  }

  lemma {:induction false} SettledForever(s: State, steps: seq<Step>, op: OperationId)
    requires Settled(s, op)
    ensures Settled(After(s, steps), op)
  {
    hide Settled, Next;
    if steps != [] {
      SettledForever(s, steps[..|steps| - 1], op);
      SettledStays(After(s, steps[..|steps| - 1]), steps[|steps| - 1], op);
    }
  }

  lemma RecoveredIsSettled(s: State, before: Time, op: OperationId)
    requires Safe(s) && IsTerminal(Recover(s, before), op)
    requires forall w :: Concerned(s, before, w) ==> !YetToStart(s, w)
    ensures Settled(Recover(s, before), op)
  {
    hide OneIntentPerOperation, OneSpendingPerApproval, OneEffectPerWorker, RecordsAreIntents, ConsumedIsSpent, HasEvent, Justified;
    var r := Recover(s, before);
    forall w | w in r.workers && YetToStart(r, w) ensures r.workers[w].request.Operation() != op {
      assert Booked(s, w);
      assert !Concerned(s, before, w);
    }
  }

  lemma GrantedStartRevives(s: State, before: Time, w: WorkerId) returns (steps: seq<Step>, op: OperationId)
    requires Concerned(s, before, w) && YetToStart(s, w)
    ensures Revives(Recover(s, before), steps, op)
  {
    var r := Recover(s, before);
    op := s.workers[w].request.Operation();
    steps := [DoGrant(w, true), DoStart(w)];
    AfterTwo(r, steps[0], steps[1]);
  }

  // ------------------------------------------------------------------ Main results

  /** Recovery at any reachable state, with no regard for its precondition: the records it leaves terminal stay as they
      are under everything that may follow exactly if every worker concerned had stopped. */
  lemma RecoveryIsFinalExactly(world: World, history: seq<Step>, before: Time)
    ensures var s := Run(world, history);
            (forall steps, op :: !Rewrites(Recover(s, before), steps, op)) <==> WorkersStopped(s, before)
  {
    hide Safe, Run, Rewrites;
    var s := Run(world, history);
    SafeAlways(world, history);
    if WorkersStopped(s, before) {
      RecoverKeepsSafe(s, before);
      forall steps, op ensures !Rewrites(Recover(s, before), steps, op) {
        SafeAfter(Recover(s, before), steps, op);
      }
    } else {
      var w :| w in s.workers && s.workers[w].HasIntent() && s.workers[w].request.Operation() in s.executions
               && Interrupted(s.executions[s.workers[w].request.Operation()], before);
      assert Concerned(s, before, w);
      var steps := LiveWorkerRewrites(s, before, w);
    }
  }

  /** ... and they stay terminal exactly if none of those workers had yet to start its action. */
  lemma RecoveryIsTerminalExactly(world: World, history: seq<Step>, before: Time)
    ensures var s := Run(world, history);
            (forall steps, op :: !Revives(Recover(s, before), steps, op)) <==>
            (forall w :: Concerned(s, before, w) ==> !YetToStart(s, w))
  {
    hide Safe, Run, Revives, Concerned, YetToStart, Settled, Recover;
    var s := Run(world, history);
    var r := Recover(s, before);
    SafeAlways(world, history);
    if w :| Concerned(s, before, w) && YetToStart(s, w) {
      var steps, op := GrantedStartRevives(s, before, w);
      assert Revives(r, steps, op);
    } else {
      forall steps, op ensures !Revives(r, steps, op) {
        TerminalStays(s, before, steps, op);
      }
    }
  }

  lemma TerminalStays(s: State, before: Time, steps: seq<Step>, op: OperationId)
    requires forall w :: Concerned(s, before, w) ==> !YetToStart(s, w)
    requires Safe(s)
    ensures !Revives(Recover(s, before), steps, op)
  {
    hide Safe, Concerned, YetToStart, Recover, IsTerminal;
    if IsTerminal(Recover(s, before), op) {
      RecoveredIsSettled(s, before, op);
      SettledForever(Recover(s, before), steps, op);
    }
  }
}
