/** What the commit of an intent and the second check do not look at, and exactly what follows from that. */
module GatewayLimits {
  import opened Wrappers
  import opened Contracts
  import opened Policy
  import opened Gateway
  import opened GatewayEvidence
  import opened GatewayRuns
  import GatewaySafety

  // ------------------------------------------------------------------ Every commit has its lookup

  /** The entry at `c` commits the intent of a write; if it spends an approval, that one covers the request and was
      backed when the request looked it up. */
  ghost predicate Grounded(s: State, c: nat) {
    c < |s.journal| && s.journal[c].event.Intended? ==>
      var e := s.journal[c].event;
      && !e.request.action.readOnly && Fits(e.request, e.ticket, Evidence(s, e.ticket))
      && (e.ticket.approval.Some? ==> Settled(s, e.ticket.approval.value))
      && LookedIn(s.journal[..c], e.worker, e.ticket, Evidence(s, e.ticket))
  }

  lemma StepKeeps(s: State, step: Step)
    ensures Keeps(s, Next(s, step))
  {
    match step {
      case DoRecheck(_, _) => RecheckKeeps(s, step);
      case DoDecide(_, _) => DecideKeeps(s, step);
      case DoAuthorize(_) => AuthorizeKeeps(s, step);
      case DoRuling(_, _, _) => RulingKeeps(s, step);
      case _ =>
    }
  }

  lemma RecheckKeeps(s: State, step: Step)
    requires step.DoRecheck?
    ensures Keeps(s, Next(s, step))
  {
    hide IdentityUnchanged, TermsUnchanged;
  }

  lemma DecideKeeps(s: State, step: Step)
    requires step.DoDecide?
    ensures Keeps(s, Next(s, step))
  {
    hide OutcomeOf, ApprovalValid, PolicyInput, TicketFor, Requested;
  }

  lemma AuthorizeKeeps(s: State, step: Step)
    requires step.DoAuthorize?
    ensures Keeps(s, Next(s, step))
  {
  }

  lemma RulingKeeps(s: State, step: Step)
    requires step.DoRuling?
    ensures Keeps(s, Next(s, step))
  {
  }

  /** Only a commit adds an intent. */
  lemma IntentsComeFromCommits(s: State, step: Step)
    requires |Next(s, step).journal| > |s.journal| && Next(s, step).journal[|s.journal|].event.Intended?
    ensures step.DoAuthorize? && step.w in s.workers && GatewaySafety.Committed(s, step.w).CommitIntent?
  {
    hide OutcomeOf, TicketFor, PolicyInput, ApprovalValid, TermsUnchanged, IdentityUnchanged, WorkersStopped, RulingProblem, Recovered;
    if step.DoDecide? && step.w in s.workers {
      GatewaySafety.DecideLogs(s, step.w, step.newId);
    }
  }

  lemma GroundStays(s: State, t: State, c: nat)
    requires Grounded(s, c) && Keeps(s, t) && c < |s.journal|
    ensures Grounded(t, c)
  {
    hide LookedIn, Fits, Settled, Evidence, Keeps;
    JournalKept(s, t, c);
    if s.journal[c].event.Intended? {
      EvidenceKept(s, t, s.journal[c].event.ticket);
    }
  }

  lemma JournalKept(s: State, t: State, c: nat)
    requires Keeps(s, t) && c < |s.journal|
    ensures |t.journal| >= |s.journal| && t.journal[c] == s.journal[c] && t.journal[..c] == s.journal[..c]
  {
  }

  lemma CommitIsGrounded(s: State, w: WorkerId)
    requires Evident(s) && w in s.workers && GatewaySafety.Committed(s, w).CommitIntent?
    ensures Grounded(Authorize(s, w), |s.journal|)
  {
    hide Evident, Proven, Clocked, Provenance, LookedIn, SpentIn, ConfirmedIn, Fits;
    var ticket := s.workers[w].phase.ticket;
    var t := Authorize(s, w);
    assert t.journal == s.journal + [Entry(Intended(w, s.workers[w].request, ticket), s.world)];
    assert t.journal[..|s.journal|] == s.journal;
    PapersHold(s, w);
  }

  lemma {:induction false} GroundedAlways(world: World, steps: seq<Step>, c: nat)
    ensures Grounded(Run(world, steps), c)
  {
    if steps == [] {
    } else {
      var s, step := Run(world, steps[..|steps| - 1]), steps[|steps| - 1];
      GroundedAlways(world, steps[..|steps| - 1], c);
      StepKeeps(s, step);
      JournalAtMostOne(s, Next(s, step));
      if c < |s.journal| {
        GroundStays(s, Next(s, step), c);
      } else {
        NewIsGrounded(world, steps, c);
      }
    }
  }

  lemma NewIsGrounded(world: World, steps: seq<Step>, c: nat)
    requires steps != [] && c >= |Run(world, steps[..|steps| - 1]).journal|
    ensures Grounded(Run(world, steps), c)
  {
    var s, step := Run(world, steps[..|steps| - 1]), steps[|steps| - 1];
    var t := Next(s, step);
    StepKeeps(s, step);
    JournalAtMostOne(s, t);
    if c < |t.journal| && t.journal[c].event.Intended? {
      IntentsComeFromCommits(s, step);
      EvidentAlways(world, steps[..|steps| - 1]);
      CommitIsGrounded(s, step.w);
      assert t == Authorize(s, step.w);
    }
  }

  // ------------------------------------------------------------------ The second check

  ghost predicate EffectOf(j: seq<Entry>, k: nat, r: Request) {
    k < |j| && j[k].event.Effected? && j[k].event.request == r
  }

  /** Some second check before the effect at `k` found authority for all that the action implies. */
  ghost predicate FullyConfirmed(j: seq<Entry>, k: nat, r: Request) {
    exists q :: 0 <= q < k < |j| && j[k].event.Effected? && j[q].event == Confirmed(j[k].event.worker) && PathExists(j[q].world, r)
  }

  ghost predicate AlwaysFullyConfirmed(r: Request) {
    forall world, steps, k: nat :: EffectOf(Run(world, steps).journal, k, r) ==> FullyConfirmed(Run(world, steps).journal, k, r)
  }

  predicate ImpliesNothingElse(r: Request) {
    forall a <- r.action.additional :: a == r.action.cloudAction
  }

  lemma ConfirmedInFull(world: World, steps: seq<Step>, k: nat, r: Request)
    requires EffectOf(Run(world, steps).journal, k, r) && ImpliesNothingElse(r)
    ensures FullyConfirmed(Run(world, steps).journal, k, r)
  {
    hide Run;
    EffectsWereConfirmed(world, steps, k);
  }

  lemma EffectsAreWrites(world: World, steps: seq<Step>, k: nat, r: Request)
    requires EffectOf(Run(world, steps).journal, k, r)
    ensures !r.action.readOnly
  {
    hide Run, Fits, Settled, LookedIn, Authorised;
    EffectsWereConfirmed(world, steps, k);
    var j := Run(world, steps).journal;
    var c: nat, q: nat :| c < q < k && j[c].event == Intended(j[k].event.worker, j[k].event.request, j[k].event.ticket)
                          && j[q].event == Confirmed(j[k].event.worker) && Authorised(j[q].world, r, j[k].event.ticket);
    GroundedAlways(world, steps, c);
  }

  /** The surroundings in which every authority the request needs is there. */
  function Complete(r: Request): World {
    World(0, iset{Claim(r.subject, r.action.cloudAction, r.resource, r.tenant)}
             + iset a | a in r.action.additional :: Claim(r.subject, a, r.resource, r.tenant),
          {(r.subject, r.tenant)}, Some(Lenient(false)), map[], 10)
  }

  /** ... and after the implied ones are withdrawn. */
  function Reduced(r: Request): World {
    Complete(r).(claims := iset{Claim(r.subject, r.action.cloudAction, r.resource, r.tenant)})
  }

  function Withdrawing(r: Request): seq<Step> {
    Beginning(r) + [DoStart(0)] + [Change(Reduced(r))] + [DoRecheck(0, true)] + [DoExecute(0, Succeeds)]
  }

  /** The implied authorities go while the request is in flight, and its effect comes all the same. */
  lemma ImpliedAuthorityIsNotRechecked(r: Request)
    requires !r.action.readOnly && !ImpliesNothingElse(r)
    ensures PathExists(Complete(r), r) && !PathExists(Reduced(r), r)
    ensures Run(Complete(r), Withdrawing(r)).journal == Opening(Complete(r), r)
              + [Entry(Confirmed(0), Reduced(r))] + [Entry(Effected(0, r, Free(r)), Reduced(r))]
  {
    var world, bare := Complete(r), Reduced(r);
    AuthorityGoes(r);
    var opening := Opening(world, r);
    Begins(world, r);
    Starts(world, r, Authorized, 0, opening);
    Withdraws(r, opening);
    Confirms(bare, r, 0, opening);
    var steps := Beginning(r);
    RunSnoc(world, steps, DoStart(0));
    RunSnoc(world, steps + [DoStart(0)], Change(bare));
    RunSnoc(world, steps + [DoStart(0)] + [Change(bare)], DoRecheck(0, true));
    RunSnoc(world, steps + [DoStart(0)] + [Change(bare)] + [DoRecheck(0, true)], DoExecute(0, Succeeds));
  }

  lemma AuthorityGoes(r: Request)
    requires !r.action.readOnly && !ImpliesNothingElse(r)
    ensures PathExists(Complete(r), r) && !PathExists(Reduced(r), r)
    ensures StillOpen(Complete(r), r) && StillOpen(Reduced(r), r)
  {
    hide Lenient;
    var a :| a in r.action.additional && a != r.action.cloudAction;
    assert Claim(r.subject, a, r.resource, r.tenant) !in Reduced(r).claims;
  }

  lemma Withdraws(r: Request, j: seq<Entry>)
    ensures Next(Alone(Complete(r), r, Started, Running, 0, j), Change(Reduced(r))) == Alone(Reduced(r), r, Started, Running, 0, j)
  {
  }

  /** For every request: each of its effects, in every run, follows a second check that found authority for all it
      needs, exactly if it is a read or its action implies no authority but its own. */
  lemma SecondCheckIsFullExactly(r: Request)
    ensures AlwaysFullyConfirmed(r) <==> r.action.readOnly || ImpliesNothingElse(r)
  {
    hide Run, PathExists, FullyConfirmed, EffectOf, ImpliesNothingElse;
    if r.action.readOnly || ImpliesNothingElse(r) {
      forall world, steps, k: nat | EffectOf(Run(world, steps).journal, k, r) ensures FullyConfirmed(Run(world, steps).journal, k, r) {
        EffectsAreWrites(world, steps, k, r);
        ConfirmedInFull(world, steps, k, r);
      }
    } else {
      ImpliedAuthorityIsNotRechecked(r);
      NotConfirmedInFull(r, Run(Complete(r), Withdrawing(r)).journal);
    }
  }

  lemma NotConfirmedInFull(r: Request, j: seq<Entry>)
    requires !PathExists(Reduced(r), r)
    requires j == Opening(Complete(r), r) + [Entry(Confirmed(0), Reduced(r))] + [Entry(Effected(0, r, Free(r)), Reduced(r))]
    ensures EffectOf(j, 3, r) && !FullyConfirmed(j, 3, r)
  {
    hide PathExists, Complete, Reduced, Free;
  }

  // ------------------------------------------------------------------ The commit

  /** What the approver of a request has to hold. */
  function Capability(r: Request, approver: Subject): Claim {
    Claim(approver, "approval:" + r.action.name, r.resource, r.tenant)
  }

  /** The entry at `c` commits the intent of `r` with the spending of an approval that `approver` gave. */
  ghost predicate SpendsApprovalOf(s: State, c: nat, r: Request, approver: Subject) {
    && c < |s.journal| && s.journal[c].event.Intended? && s.journal[c].event.request == r
    && s.journal[c].event.ticket.approval.Some? && s.journal[c].event.ticket.approval.value in s.approvals
    && s.approvals[s.journal[c].event.ticket.approval.value].approver == Some(approver)
  }

  /** In this run, no claim in `lasting` was ever withdrawn. */
  ghost predicate Lasting(j: seq<Entry>, lasting: iset<Claim>) {
    forall i, k :: 0 <= i < k < |j| ==> j[i].world.claims * lasting <= j[k].world.claims
  }

  ghost predicate HeldAtCommit(s: State, c: nat, r: Request, approver: Subject, lasting: iset<Claim>) {
    Lasting(s.journal, lasting) && SpendsApprovalOf(s, c, r, approver) ==> Capability(r, approver) in s.journal[c].world.claims
  }

  ghost predicate AlwaysHeldAtCommit(r: Request, approver: Subject, lasting: iset<Claim>) {
    forall world, steps, c: nat :: HeldAtCommit(Run(world, steps), c, r, approver, lasting)
  }

  lemma LastingIsHeld(world: World, steps: seq<Step>, c: nat, r: Request, approver: Subject, lasting: iset<Claim>)
    requires r.action.readOnly || r.approvalId.None? || approver == r.subject || Capability(r, approver) in lasting
    ensures HeldAtCommit(Run(world, steps), c, r, approver, lasting)
  {
    hide Run, RuledIn, Settled;
    var s := Run(world, steps);
    GroundedAlways(world, steps, c);
    if Lasting(s.journal, lasting) && SpendsApprovalOf(s, c, r, approver) {
      var ticket := s.journal[c].event.ticket;
      var a := Evidence(s, ticket);
      var e :| 0 <= e < c && s.journal[..c][e].event == Looked(s.journal[c].event.worker, ticket)
               && (a.Some? && ticket.approval.Some? ==> Backed(s.journal[..c][e].world, a.value));
      assert Capability(r, approver) in s.journal[e].world.claims;
      assert s.journal[e].world.claims * lasting <= s.journal[c].world.claims;
    }
  }

  // ------------------------------------------------------------------ A run that withdraws the capability

  function Before(r: Request, approver: Subject): World {
    World(0, iset{Capability(r, approver)}, {(r.subject, r.tenant)}, Some(Lenient(true)), map[], 10)
  }

  function Behind(r: Request, approver: Subject): World {
    Before(r, approver).(claims := iset{})
  }

  predicate Spendable(r: Request, approver: Subject) {
    !r.action.readOnly && r.approvalId.Some? && approver != r.subject
  }

  function Paid(r: Request): Ticket {
    Ticket(r.Hash("v1"), r.approvalId, true, true, "v1")
  }

  /** The approval the first attempt leaves, once ruled on. */
  function Granted(r: Request, approver: Subject): Approval {
    Requested(r, r.Hash("v1"), 10).(status := Approved, approver := Some(approver))
  }

  function RuledEntry(r: Request, approver: Subject): Entry
    requires r.approvalId.Some?
  {
    Entry(Ruled(r.approvalId.value, approver, true), Before(r, approver))
  }

  /** The first attempt is over and its approval granted; the second, by worker 1, stands at `phase`. */
  function Retried(world: World, r: Request, approver: Subject, phase: Phase, j: seq<Entry>): State
    requires r.approvalId.Some?
  {
    State(map[r.approvalId.value := Granted(r, approver)], map[], world,
      map[0 := Worker(r, Done(AwaitApproval)), 1 := Worker(r, phase)], j)
  }

  function Asking(r: Request): seq<Step>
    requires r.approvalId.Some?
  {
    [Submit(0, r), DoResolve(0)] + [DoDecide(0, r.approvalId.value)]
  }

  lemma Asks(r: Request, approver: Subject)
    requires Spendable(r, approver)
    ensures Run(Before(r, approver), Asking(r)) ==
            State(map[r.approvalId.value := Requested(r, r.Hash("v1"), 10)], map[], Before(r, approver),
              map[0 := Worker(r, Done(AwaitApproval))], [])
  {
    hide OutcomeOf, AnyApplies, Lenient, Run, PathExists;
    var world := Before(r, approver);
    var s := State(map[], map[], world, map[0 := Worker(r, Hashed(PathExists(world, r), r.Hash("v1")))], []);
    LenientVersion(true);
    Enters(world, r, true);
    RunSnoc(world, [Submit(0, r), DoResolve(0)], DoDecide(0, r.approvalId.value));
    LenientOutcome(true, PolicyInput(s, r, PathExists(world, r), ApprovalValid(s, r, r.Hash("v1"))));
  }

  lemma IsApproved(r: Request, approver: Subject)
    requires Spendable(r, approver)
    ensures Next(Next(State(map[r.approvalId.value := Requested(r, r.Hash("v1"), 10)], map[], Before(r, approver),
                   map[0 := Worker(r, Done(AwaitApproval))], []), DoRuling(r.approvalId.value, approver, true)), Submit(1, r))
         == Retried(Before(r, approver), r, approver, Received, [RuledEntry(r, approver)])
  {
  }

  lemma Returns(r: Request, approver: Subject)
    requires Spendable(r, approver)
    ensures var world, j := Before(r, approver), [RuledEntry(r, approver)];
            Next(Retried(world, r, approver, Received, j), DoResolve(1))
            == Retried(world, r, approver, Hashed(PathExists(world, r), r.Hash("v1")), j)
  {
    hide PathExists, Lenient;
    LenientVersion(true);
  }

  lemma LooksUp(r: Request, approver: Subject, path: bool, newId: ApprovalId)
    requires Spendable(r, approver) && newId != r.approvalId.value
    ensures var world, j := Before(r, approver), [RuledEntry(r, approver)];
            Next(Retried(world, r, approver, Hashed(path, r.Hash("v1")), j), DoDecide(1, newId))
            == Retried(world, r, approver, Flight(Decided, Paid(r)), j + [Entry(Looked(1, Paid(r)), world)])
  {
    hide OutcomeOf, AnyApplies, Lenient;
    var world := Before(r, approver);
    var s := Retried(world, r, approver, Hashed(path, r.Hash("v1")), [RuledEntry(r, approver)]);
    LenientVersion(true);
    assert ApprovalValid(s, r, r.Hash("v1"));
    LenientOutcome(true, PolicyInput(s, r, path, true));
  }

  lemma SpendsBlindly(r: Request, approver: Subject, j: seq<Entry>)
    requires Spendable(r, approver)
    ensures var t := Next(Next(Retried(Before(r, approver), r, approver, Flight(Decided, Paid(r)), j), Change(Behind(r, approver))), DoAuthorize(1));
            && t.journal == j + [Entry(Intended(1, r, Paid(r)), Behind(r, approver))]
            && t.approvals == map[r.approvalId.value := Granted(r, approver).(status := Consumed)]
  {
  }

  function Spending(r: Request, approver: Subject, newId: ApprovalId): seq<Step>
    requires r.approvalId.Some?
  {
    Asking(r) + [DoRuling(r.approvalId.value, approver, true)] + [Submit(1, r)] + [DoResolve(1)] + [DoDecide(1, newId)]
      + [Change(Behind(r, approver))] + [DoAuthorize(1)]
  }

  /** A request is refused until approved, approved, and looked up again; the approver then loses every claim, and the
      commit spends the approval nevertheless. */
  lemma CommitSpendsBlindly(r: Request, approver: Subject, newId: ApprovalId)
    requires Spendable(r, approver) && newId != r.approvalId.value
    ensures var s := Run(Before(r, approver), Spending(r, approver, newId)); var world := Before(r, approver);
            && s.journal == [RuledEntry(r, approver)] + [Entry(Looked(1, Paid(r)), world)] + [Entry(Intended(1, r, Paid(r)), Behind(r, approver))]
            && s.approvals == map[r.approvalId.value := Granted(r, approver).(status := Consumed)]
  {
    hide Run, Next, Lenient, PathExists, Granted, RuledEntry, Retried, Asking, Before, Behind;
    var world, id := Before(r, approver), r.approvalId.value;
    Asks(r, approver);
    IsApproved(r, approver);
    Returns(r, approver);
    LooksUp(r, approver, PathExists(world, r), newId);
    SpendsBlindly(r, approver, [RuledEntry(r, approver)] + [Entry(Looked(1, Paid(r)), world)]);
    var steps := Asking(r);
    RunSnoc(world, steps, DoRuling(id, approver, true));
    var ruled := steps + [DoRuling(id, approver, true)];
    RunSnoc(world, ruled, Submit(1, r));
    RunSnoc(world, ruled + [Submit(1, r)], DoResolve(1));
    var resolved := ruled + [Submit(1, r)] + [DoResolve(1)];
    RunSnoc(world, resolved, DoDecide(1, newId));
    RunSnoc(world, resolved + [DoDecide(1, newId)], Change(Behind(r, approver)));
    RunSnoc(world, resolved + [DoDecide(1, newId)] + [Change(Behind(r, approver))], DoAuthorize(1));
  }

  lemma WithdrawnIsNotHeld(s: State, r: Request, approver: Subject, lasting: iset<Claim>)
    requires Spendable(r, approver) && Capability(r, approver) !in lasting
    requires s.journal == [RuledEntry(r, approver)] + [Entry(Looked(1, Paid(r)), Before(r, approver))]
                          + [Entry(Intended(1, r, Paid(r)), Behind(r, approver))]
    requires s.approvals == map[r.approvalId.value := Granted(r, approver).(status := Consumed)]
    ensures !HeldAtCommit(s, 2, r, approver, lasting)
  {
    assert s.journal[0].world.claims * lasting == iset{};
  }

  /** Of an approver whose claims may be withdrawn, except those in `lasting`: every commit that spends an approval of
      theirs for this request finds their capability there, in every such run, exactly if that capability is one that
      lasts (or the request is not one that can spend an approval of theirs). */
  lemma CapabilityHeldAtCommitExactly(r: Request, approver: Subject, lasting: iset<Claim>)
    ensures AlwaysHeldAtCommit(r, approver, lasting) <==>
            r.action.readOnly || r.approvalId.None? || approver == r.subject || Capability(r, approver) in lasting
  {
    hide Run, HeldAtCommit;
    if r.action.readOnly || r.approvalId.None? || approver == r.subject || Capability(r, approver) in lasting {
      forall world, steps, c: nat ensures HeldAtCommit(Run(world, steps), c, r, approver, lasting) {
        LastingIsHeld(world, steps, c, r, approver, lasting);
      }
    } else {
      var newId := r.approvalId.value + "'";
      assert |newId| > |r.approvalId.value|;
      CommitSpendsBlindly(r, approver, newId);
      WithdrawnIsNotHeld(Run(Before(r, approver), Spending(r, approver, newId)), r, approver, lasting);
    }
  }
}
