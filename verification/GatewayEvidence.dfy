/** What stands behind every effect: the ruling on its approval, the lookup, the intent and the second check, in order. */
module GatewayEvidence {
  import opened Wrappers
  import opened Contracts
  import opened Policy
  import opened Gateway
  import GatewaySafety

  /** An approval as decided, whether spent or not. */
  function Deed(a: Approval): Approval {
    a.(status := Approved)
  }

  predicate Settled(s: State, id: ApprovalId) {
    id in s.approvals && (s.approvals[id].status == Approved || s.approvals[id].status == Consumed)
  }

  /** The approver holds the approval's capability on its resource, and the approval has not expired. */
  predicate Backed(world: World, a: Approval) {
    && a.approver.Some? && Claim(a.approver.value, a.capability, a.resource, a.tenant) in world.claims
    && world.clock <= a.expiresAt
  }

  /** The approval was granted for exactly this request, by someone other than its subject. */
  predicate Covers(a: Approval, r: Request, hash: RequestHash) {
    && a.subject == r.subject && a.action == r.action.name && a.resource == r.resource && a.hash == hash
    && a.justification == r.justification && a.tenant == r.tenant
    && a.capability == "approval:" + r.action.name
    && a.approver.Some? && a.approver.value != r.subject
  }

  /** The subject maps to a principal that has authority for the action under the policy version decided on. */
  predicate Authorised(world: World, r: Request, ticket: Ticket) {
    && (r.subject, r.tenant) in world.mapped && world.policy.Some? && world.policy.value.version == ticket.policyVersion
    && Claim(r.subject, r.action.cloudAction, r.resource, r.tenant) in world.claims
  }

  // ------------------------------------------------------------------ The chain of entries

  /** The approver held the capability, in time, when approving. */
  ghost predicate RuledIn(j: seq<Entry>, id: ApprovalId, a: Approval) {
    exists d :: 0 <= d < |j| && a.approver.Some? && j[d].event == Ruled(id, a.approver.value, true) && Backed(j[d].world, a)
  }

  /** ... and still when the request looked the approval up. */
  ghost predicate LookedIn(j: seq<Entry>, w: WorkerId, ticket: Ticket, a: Option<Approval>) {
    exists e :: 0 <= e < |j| && j[e].event == Looked(w, ticket)
                && (a.Some? && ticket.approval.Some? ==> Backed(j[e].world, a.value) && RuledIn(j[..e], ticket.approval.value, a.value))
  }

  /** ... then the intent was committed with the spending of the approval. */
  ghost predicate SpentIn(j: seq<Entry>, w: WorkerId, r: Request, ticket: Ticket, a: Option<Approval>) {
    exists c :: 0 <= c < |j| && j[c].event == Intended(w, r, ticket) && LookedIn(j[..c], w, ticket, a)
  }

  /** ... and after that authority and approval were confirmed. */
  ghost predicate ConfirmedIn(j: seq<Entry>, w: WorkerId, r: Request, ticket: Ticket, a: Option<Approval>) {
    exists q :: 0 <= q < |j| && j[q].event == Confirmed(w) && Authorised(j[q].world, r, ticket)
                && (a.Some? ==> Backed(j[q].world, a.value)) && SpentIn(j[..q], w, r, ticket, a)
  }

  lemma SpentStays(j: seq<Entry>, x: Entry, w: WorkerId, r: Request, ticket: Ticket, a: Option<Approval>)
    requires SpentIn(j, w, r, ticket, a)
    ensures SpentIn(j + [x], w, r, ticket, a)
  {
    hide LookedIn;
    var c :| 0 <= c < |j| && j[c].event == Intended(w, r, ticket) && LookedIn(j[..c], w, ticket, a);
    assert (j + [x])[c] == j[c] && (j + [x])[..c] == j[..c];
  }

  lemma ConfirmedStays(j: seq<Entry>, x: Entry, w: WorkerId, r: Request, ticket: Ticket, a: Option<Approval>)
    requires ConfirmedIn(j, w, r, ticket, a)
    ensures ConfirmedIn(j + [x], w, r, ticket, a)
  {
    hide Backed, SpentIn, Authorised;
    var q :| 0 <= q < |j| && j[q].event == Confirmed(w) && Authorised(j[q].world, r, ticket)
             && (a.Some? ==> Backed(j[q].world, a.value)) && SpentIn(j[..q], w, r, ticket, a);
    assert (j + [x])[q] == j[q] && (j + [x])[..q] == j[..q];
  }

  lemma LookedNow(j: seq<Entry>, x: Entry, ticket: Ticket, a: Option<Approval>)
    requires x.event.Looked? && x.event.ticket == ticket
    requires a.Some? && ticket.approval.Some? ==> Backed(x.world, a.value) && RuledIn(j, ticket.approval.value, a.value)
    ensures LookedIn(j + [x], x.event.worker, ticket, a)
  {
    hide Backed, RuledIn;
    assert (j + [x])[|j|] == x && (j + [x])[..|j|] == j;
  }

  lemma SpentNow(j: seq<Entry>, x: Entry, a: Option<Approval>)
    requires x.event.Intended? && LookedIn(j, x.event.worker, x.event.ticket, a)
    ensures SpentIn(j + [x], x.event.worker, x.event.request, x.event.ticket, a)
  {
    hide LookedIn;
    assert (j + [x])[|j|] == x && (j + [x])[..|j|] == j;
  }

  lemma ConfirmedNow(j: seq<Entry>, x: Entry, r: Request, ticket: Ticket, a: Option<Approval>)
    requires x.event.Confirmed? && Authorised(x.world, r, ticket) && (a.Some? ==> Backed(x.world, a.value))
    requires SpentIn(j, x.event.worker, r, ticket, a)
    ensures ConfirmedIn(j + [x], x.event.worker, r, ticket, a)
  {
    hide SpentIn, Backed, Authorised;
    assert (j + [x])[|j|] == x && (j + [x])[..|j|] == j;
  }

  // ------------------------------------------------------------------ The invariant

  /** The approval a ticket spends, as decided. */
  function Evidence(s: State, ticket: Ticket): Option<Approval> {
    if ticket.approval.Some? && ticket.approval.value in s.approvals then Some(Deed(s.approvals[ticket.approval.value])) else None
  }

  /** The ticket is for this request; if a rule required approval, it names one that covers the request. */
  predicate Fits(r: Request, ticket: Ticket, a: Option<Approval>) {
    && ticket.hash == r.Hash(ticket.hash.policyVersion)
    && (ticket.needed ==> ticket.approval.Some?)
    && (ticket.approval.Some? ==> r.approvalId == ticket.approval && ticket.found && a.Some? && Covers(a.value, r, ticket.hash))
  }

  /** A granted approval was ruled on by someone else who held the capability. */
  ghost predicate Provenance(s: State, id: ApprovalId) {
    && (id in s.approvals ==> s.approvals[id].capability == "approval:" + s.approvals[id].action)
    && (Settled(s, id) ==>
          var a := s.approvals[id];
          a.approver.Some? && a.approver.value != a.subject && RuledIn(s.journal, id, Deed(a)))
  }

  ghost predicate Papers(s: State, w: WorkerId) {
    w in s.workers ==>
      var r := s.workers[w].request;
      match s.workers[w].phase
      case Hashed(_, hash) => hash == r.Hash(hash.policyVersion)
      case Flight(stage, ticket) =>
        var a := Evidence(s, ticket);
        && Fits(r, ticket, a) && (ticket.approval.Some? ==> Settled(s, ticket.approval.value))
        && (match stage
            case Decided => LookedIn(s.journal, w, ticket, a)
            case Rechecked => ConfirmedIn(s.journal, w, r, ticket, a)
            case Executed(_) => ConfirmedIn(s.journal, w, r, ticket, a)
            case _ => SpentIn(s.journal, w, r, ticket, a))
      case _ => true
  }

  ghost predicate Proven(j: seq<Entry>, k: nat) {
    k < |j| && j[k].event.Effected? ==>
      var e := j[k].event;
      exists a: Option<Approval> :: Fits(e.request, e.ticket, a) && ConfirmedIn(j[..k], e.worker, e.request, e.ticket, a)
  }

  ghost predicate Clocked(j: seq<Entry>, now: Time) {
    && (forall i :: 0 <= i < |j| ==> j[i].world.clock <= now)
    && (forall i, k :: 0 <= i < k < |j| ==> j[i].world.clock <= j[k].world.clock)
  }

  ghost predicate Evident(s: State) {
    && (forall id :: Provenance(s, id)) && (forall w :: Papers(s, w)) && (forall k :: Proven(s.journal, k))
    && Clocked(s.journal, s.world.clock)
  }

  // ------------------------------------------------------------------ What every step leaves alone

  /** Granted approvals keep their terms, and the journal only grows, by entries of the present. */
  ghost predicate Keeps(s: State, t: State) {
    && (forall id :: id in s.approvals && Settled(s, id) ==> Settled(t, id) && Deed(t.approvals[id]) == Deed(s.approvals[id]))
    && (t.journal == s.journal || (|t.journal| == |s.journal| + 1 && t.journal[..|s.journal|] == s.journal
                                   && t.journal[|s.journal|].world == s.world))
    && t.world.clock >= s.world.clock
  }

  lemma EvidenceKept(s: State, t: State, ticket: Ticket)
    requires Keeps(s, t) && (ticket.approval.Some? ==> Settled(s, ticket.approval.value))
    ensures Evidence(t, ticket) == Evidence(s, ticket) && (ticket.approval.Some? ==> Settled(t, ticket.approval.value))
  {
  }

  lemma PapersKept(s: State, t: State, w: WorkerId)
    requires Papers(s, w) && Keeps(s, t) && w in s.workers && w in t.workers && t.workers[w] == s.workers[w]
    ensures Papers(t, w)
  {
    hide LookedIn, SpentIn, ConfirmedIn, Fits, Settled, Keeps, Evidence;
    if s.workers[w].phase.Flight? {
      var r, ticket := s.workers[w].request, s.workers[w].phase.ticket;
      EvidenceKept(s, t, ticket);
      ChainKept(s, t, w, r, ticket, Evidence(s, ticket));
    }
  }

  lemma ChainKept(s: State, t: State, w: WorkerId, r: Request, ticket: Ticket, a: Option<Approval>)
    requires Keeps(s, t)
    ensures LookedIn(s.journal, w, ticket, a) ==> LookedIn(t.journal, w, ticket, a)
    ensures SpentIn(s.journal, w, r, ticket, a) ==> SpentIn(t.journal, w, r, ticket, a)
    ensures ConfirmedIn(s.journal, w, r, ticket, a) ==> ConfirmedIn(t.journal, w, r, ticket, a)
  {
    if t.journal != s.journal {
      var x := t.journal[|s.journal|];
      assert t.journal == s.journal + [x];
      if SpentIn(s.journal, w, r, ticket, a) { SpentStays(s.journal, x, w, r, ticket, a); }
      if ConfirmedIn(s.journal, w, r, ticket, a) { ConfirmedStays(s.journal, x, w, r, ticket, a); }
    }
  }

  lemma ProvenKept(s: State, t: State, k: nat)
    requires Proven(s.journal, k) && Keeps(s, t) && k < |s.journal|
    ensures Proven(t.journal, k)
  {
    hide Fits, ConfirmedIn;
    assert t.journal[k] == s.journal[k] && t.journal[..k] == s.journal[..k];
  }

  /** What is left to show for a step that only moves worker `w`. */
  lemma StepKeepsEvident(s: State, t: State, w: WorkerId)
    requires Evident(s) && Keeps(s, t)
    requires forall v :: v in t.workers && v != w ==> v in s.workers && t.workers[v] == s.workers[v]
    requires Papers(t, w)
    requires |t.journal| > |s.journal| ==> Proven(t.journal, |s.journal|)
    requires forall id :: Provenance(t, id)
    ensures Evident(t)
  {
    forall v ensures Papers(t, v) {
      if v in t.workers && v != w {
        PapersKept(s, t, v);
      }
    }
    JournalAtMostOne(s, t);
    forall k: nat ensures Proven(t.journal, k) {
      if k < |s.journal| {
        ProvenKept(s, t, k);
      } else if k >= |t.journal| {
        NotProvenBeyond(t.journal, k);
      }
    }
  }

  lemma NotProvenBeyond(j: seq<Entry>, k: nat)
    requires k >= |j|
    ensures Proven(j, k)
  {
  }

  lemma JournalAtMostOne(s: State, t: State)
    requires Keeps(s, t)
    ensures |s.journal| <= |t.journal| <= |s.journal| + 1
  {
  }

  /** Only worker `w` moves, no approval changes, and at most one entry is appended. */
  ghost predicate Calm(s: State, t: State, w: WorkerId) {
    && t.approvals == s.approvals && t.world.clock >= s.world.clock
    && (t.journal == s.journal || (|t.journal| == |s.journal| + 1 && t.journal[..|s.journal|] == s.journal
                                   && t.journal[|s.journal|].world == s.world))
    && (forall v :: v in t.workers && v != w ==> v in s.workers && t.workers[v] == s.workers[v])
  }

  lemma CalmKeepsEvident(s: State, t: State, w: WorkerId)
    requires Evident(s) && Calm(s, t, w) && Papers(t, w)
    requires |t.journal| > |s.journal| ==> Proven(t.journal, |s.journal|)
    ensures Evident(t)
  {
    hide Papers, Proven, Clocked, Provenance;
    assert Keeps(s, t);
    forall id ensures Provenance(t, id) {
      SameApproval(s, t, id);
    }
    StepKeepsEvident(s, t, w);
  }

  lemma SameApproval(s: State, t: State, id: ApprovalId)
    requires Provenance(s, id) && Keeps(s, t) && t.approvals == s.approvals
    ensures Provenance(t, id)
  {
  }

  /** Moving on under the same ticket with the evidence already there. */
  lemma SamePapers(s: State, t: State, w: WorkerId)
    requires Evident(s) && Calm(s, t, w) && w in s.workers && w in t.workers && t.workers[w].request == s.workers[w].request
    requires !t.workers[w].phase.Hashed?
    requires var a, b := s.workers[w].phase, t.workers[w].phase;
             b.Flight? ==> a.Flight? && b.ticket == a.ticket && SameStanding(a.stage, b.stage)
    ensures Papers(t, w)
  {
    if t.workers[w].phase.Flight? {
      assert Papers(s, w);
      var r, ticket := s.workers[w].request, s.workers[w].phase.ticket;
      assert Keeps(s, t);
      EvidenceKept(s, t, ticket);
      ChainKept(s, t, w, r, ticket, Evidence(s, ticket));
    }
  }

  predicate SameStanding(a: Stage, b: Stage) {
    || ((a.Intent? || a.Granted? || a.Started?) && (b.Intent? || b.Granted? || b.Started?))
    || ((a.Rechecked? || a.Executed?) && (b.Rechecked? || b.Executed?))
  }

  lemma QuietStepKeepsEvident(s: State, t: State, w: WorkerId)
    requires Evident(s) && Calm(s, t, w) && w in s.workers && w in t.workers && t.workers[w].request == s.workers[w].request
    requires !t.workers[w].phase.Hashed? && t.journal == s.journal
    requires var a, b := s.workers[w].phase, t.workers[w].phase;
             b.Flight? ==> a.Flight? && b.ticket == a.ticket && SameStanding(a.stage, b.stage)
    ensures Evident(t)
  {
    hide Evident, Calm, Papers, SameStanding;
    SamePapers(s, t, w);
    CalmKeepsEvident(s, t, w);
  }

  lemma ResolveKeepsEvident(s: State, w: WorkerId)
    requires Evident(s) && w in s.workers && s.workers[w].phase.Received?
    ensures Evident(Resolve(s, w))
  {
    hide Evident, PathExists;
    CalmKeepsEvident(s, Resolve(s, w), w);
  }

  lemma FinishKeepsEvident(s: State, w: WorkerId, ok: bool)
    requires Evident(s) && w in s.workers
    ensures Evident(Finish(s, w, ok))
  {
    hide Evident, Papers, SameStanding;
    QuietStepKeepsEvident(s, Finish(s, w, ok), w);
  }

  lemma CrashKeepsEvident(s: State, w: WorkerId)
    requires Evident(s) && w in s.workers
    ensures Evident(s.Moved(w, Crashed))
  {
    hide Evident, Papers, SameStanding;
    QuietStepKeepsEvident(s, s.Moved(w, Crashed), w);
  }

  lemma GrantKeepsEvident(s: State, w: WorkerId, issued: bool)
    requires Evident(s) && w in s.workers
    ensures Evident(Grant(s, w, issued))
  {
    hide Evident, Papers, Finish;
    if At(s, w, Intent) {
      if issued {
        QuietStepKeepsEvident(s, Grant(s, w, issued), w);
      } else {
        FinishKeepsEvident(s, w, false);
      }
    }
  }

  lemma StartKeepsEvident(s: State, w: WorkerId)
    requires Evident(s) && w in s.workers
    ensures Evident(Start(s, w))
  {
    hide Evident, Papers;
    if At(s, w, Granted) {
      QuietStepKeepsEvident(s, Start(s, w), w);
    }
  }

  lemma ConcludeKeepsEvident(s: State, w: WorkerId)
    requires Evident(s) && w in s.workers
    ensures Evident(Conclude(s, w))
  {
    hide Evident, Papers, Finish;
    if At(s, w, Executed(true)) {
      FinishKeepsEvident(s, w, true);
    } else if At(s, w, Executed(false)) {
      FinishKeepsEvident(s, w, false);
    }
  }

  // ------------------------------------------------------------------ The second check, and the effect

  lemma UnchangedMeansBacked(s: State, r: Request, ticket: Ticket, a: Option<Approval>)
    requires s.world.policy.Some? && IdentityUnchanged(s, r) && TermsUnchanged(s, r, ticket) && Fits(r, ticket, a) && a == Evidence(s, ticket)
    ensures Authorised(s.world, r, ticket) && (a.Some? ==> Backed(s.world, a.value))
  {
  }

  lemma RecheckKeepsEvident(s: State, w: WorkerId, tokenValid: bool)
    requires Evident(s) && w in s.workers
    ensures Evident(Recheck(s, w, tokenValid))
  {
    hide Evident, Papers, Finish, IdentityUnchanged, TermsUnchanged;
    if At(s, w, Started) {
      CrashKeepsEvident(s, w);
      FinishKeepsEvident(s, w, false);
      if IdentityUnchanged(s, s.workers[w].request) && s.world.policy.Some?
         && TermsUnchanged(s, s.workers[w].request, s.workers[w].phase.ticket)
      {
        ConfirmKeepsEvident(s, w);
      }
    }
  }

  lemma ConfirmKeepsEvident(s: State, w: WorkerId)
    requires Evident(s) && At(s, w, Started) && s.world.policy.Some?
    requires IdentityUnchanged(s, s.workers[w].request) && TermsUnchanged(s, s.workers[w].request, s.workers[w].phase.ticket)
    ensures Evident(s.Moved(w, Flight(Rechecked, s.workers[w].phase.ticket)).Logged(Confirmed(w)))
  {
    assert Papers(s, w);
    var r, ticket := s.workers[w].request, s.workers[w].phase.ticket;
    var a := Evidence(s, ticket);
    var t := s.Moved(w, Flight(Rechecked, ticket)).Logged(Confirmed(w));
    UnchangedMeansBacked(s, r, ticket, a);
    var x := Entry(Confirmed(w), s.world);
    assert t.journal == s.journal + [x];
    ConfirmedNow(s.journal, x, r, ticket, a);
    EvidenceKept(s, t, ticket);
    assert Papers(t, w);
    NoEffectProven(s.journal, x);
    CalmKeepsEvident(s, t, w);
  }

  lemma NoEffectProven(j: seq<Entry>, x: Entry)
    requires !x.event.Effected?
    ensures Proven(j + [x], |j|)
  {
    assert (j + [x])[|j|] == x;
  }

  lemma ExecuteKeepsEvident(s: State, w: WorkerId, how: ActionOutcome)
    requires Evident(s) && w in s.workers
    ensures Evident(Execute(s, w, how))
  {
    var t := Execute(s, w, how);
    if At(s, w, Rechecked) {
      assert Papers(s, w);
      var r, ticket := s.workers[w].request, s.workers[w].phase.ticket;
      SamePapers(s, t, w);
      if !how.FailsBefore? {
        var x := Entry(Effected(w, r, ticket), s.world);
        assert t.journal == s.journal + [x];
      }
      CalmKeepsEvident(s, t, w);
    }
  }

  // ------------------------------------------------------------------ The decision

  /** The ticket of an allowed request fits it. */
  lemma TicketFits(s: State, r: Request, hash: RequestHash, path: bool)
    requires s.world.policy.Some? && hash == r.Hash(hash.policyVersion)
    requires ApprovalValid(s, r, hash) ==> Provenance(s, r.approvalId.value)
    requires OutcomeOf(s.world.policy.value.rules, PolicyInput(s, r, path, ApprovalValid(s, r, hash))) == Some(Allowed)
    ensures var ticket := TicketFor(s, r, hash, PolicyInput(s, r, path, ApprovalValid(s, r, hash)));
            Fits(r, ticket, Evidence(s, ticket))
  {
    var input := PolicyInput(s, r, path, ApprovalValid(s, r, hash));
    AllowedMeansApproved(s.world.policy.value.rules, input);
    if ApprovalValid(s, r, hash) {
      ValidHasRecord(s, r, hash);
    }
  }

  lemma ValidHasRecord(s: State, r: Request, hash: RequestHash)
    requires ApprovalValid(s, r, hash)
    ensures r.approvalId.Some? && r.approvalId.value in s.approvals
  {
  }

  lemma AllowedMeansApproved(rules: seq<Policy.Rule>, input: Input)
    requires OutcomeOf(rules, input) == Some(Allowed)
    ensures AnyApplies(rules, input, REQUIRE_APPROVAL) ==> input.approvalPresent
  {
    hide Evaluate, AnyApplies, Raises;
    OutcomeIsMeaning(rules, input);
  }

  lemma LookKeepsEvident(s: State, w: WorkerId, hash: RequestHash, path: bool)
    requires Evident(s) && w in s.workers && s.workers[w].phase == Hashed(path, hash) && s.world.policy.Some?
    requires var r := s.workers[w].request;
             OutcomeOf(s.world.policy.value.rules, PolicyInput(s, r, path, ApprovalValid(s, r, hash))) == Some(Allowed)
    ensures var r := s.workers[w].request;
            var ticket := TicketFor(s, r, hash, PolicyInput(s, r, path, ApprovalValid(s, r, hash)));
            Evident(s.Moved(w, Flight(Decided, ticket)).Logged(Looked(w, ticket)))
  {
    var r := s.workers[w].request;
    var ticket := TicketFor(s, r, hash, PolicyInput(s, r, path, ApprovalValid(s, r, hash)));
    var t := s.Moved(w, Flight(Decided, ticket)).Logged(Looked(w, ticket));
    assert Papers(s, w);
    if ApprovalValid(s, r, hash) {
      ValidHasRecord(s, r, hash);
      assert Provenance(s, r.approvalId.value);
    }
    TicketFits(s, r, hash, path);
    var x := Entry(Looked(w, ticket), s.world);
    assert t.journal == s.journal + [x];
    LookedNow(s.journal, x, ticket, Evidence(s, ticket));
    NoEffectProven(s.journal, x);
    EvidenceSame(s, t, ticket);
    assert Papers(t, w);
    CalmKeepsEvident(s, t, w);
  }

  lemma EvidenceSame(s: State, t: State, ticket: Ticket)
    requires t.approvals == s.approvals
    ensures Evidence(t, ticket) == Evidence(s, ticket)
    ensures forall id :: Settled(t, id) <==> Settled(s, id)
  {
  }

  /** A new approval is pending, and asks for the capability its action derives. */
  lemma RequestKeepsEvident(s: State, w: WorkerId, newId: ApprovalId, hash: RequestHash, expiresAt: Time)
    requires Evident(s) && w in s.workers && newId !in s.approvals
    ensures Evident(s.Moved(w, Done(AwaitApproval)).(
                      approvals := s.approvals[newId := Requested(s.workers[w].request, hash, expiresAt)]))
  {
    hide Proven, Clocked, LookedIn, SpentIn, ConfirmedIn, RuledIn;
    var t := s.Moved(w, Done(AwaitApproval)).(approvals := s.approvals[newId := Requested(s.workers[w].request, hash, expiresAt)]);
    forall id ensures Provenance(t, id) {
      assert Provenance(s, id);
    }
    StepKeepsEvident(s, t, w);
  }

  lemma DecideKeepsEvident(s: State, w: WorkerId, newId: ApprovalId)
    requires Evident(s) && w in s.workers
    ensures Evident(Decide(s, w, newId))
  {
    hide Evident, OutcomeOf, ApprovalValid, PolicyInput, TicketFor, Requested, SameStanding, Papers;
    if s.workers[w].phase.Hashed? && newId !in s.approvals {
      var r, hash, path := s.workers[w].request, s.workers[w].phase.hash, s.workers[w].phase.path;
      if s.world.policy.None? {
        QuietStepKeepsEvident(s, s.Moved(w, Done(Deny)), w);
      } else {
        var input := PolicyInput(s, r, path, ApprovalValid(s, r, hash));
        match OutcomeOf(s.world.policy.value.rules, input) {
          case None => CrashKeepsEvident(s, w);
          case Some(Denied) => QuietStepKeepsEvident(s, s.Moved(w, Done(Deny)), w);
          case Some(ApprovalRequired) => RequestKeepsEvident(s, w, newId, hash, s.world.clock + s.world.approvalTtl);
          case Some(Allowed) => LookKeepsEvident(s, w, hash, path);
        }
      }
    }
  }

  // ------------------------------------------------------------------ Spending

  /** The approvals of `t` are those of `s`, with at most the one named spent. */
  ghost predicate MaySpend(s: State, t: State, id: Option<ApprovalId>) {
    t.approvals == s.approvals ||
    (id.Some? && id.value in s.approvals && s.approvals[id.value].status == Approved && t.approvals == Spend(s, id.value).approvals)
  }

  lemma SpendingStep(s: State, t: State, w: WorkerId, x: Entry, id: Option<ApprovalId>)
    requires Evident(s) && MaySpend(s, t, id) && t.world == s.world
    requires t.journal == s.journal + [x] && x.world == s.world && !x.event.Effected?
    requires forall v :: v in t.workers && v != w ==> v in s.workers && t.workers[v] == s.workers[v]
    requires Papers(t, w)
    ensures Evident(t)
  {
    assert t.journal[|s.journal|] == x;
    assert Keeps(s, t);
    forall y ensures Provenance(t, y) {
      assert Provenance(s, y);
    }
    NoEffectProven(s.journal, x);
    StepKeepsEvident(s, t, w);
  }

  lemma IntentKeepsEvident(s: State, w: WorkerId)
    requires Evident(s) && w in s.workers && GatewaySafety.Committed(s, w).CommitIntent?
    ensures Evident(Authorize(s, w))
  {
    hide Evident, Proven, Clocked, Provenance, LookedIn, SpentIn, ConfirmedIn, Fits;
    var r, ticket := s.workers[w].request, s.workers[w].phase.ticket;
    var t := Authorize(s, w);
    var x := Entry(Intended(w, r, ticket), s.world);
    assert t.journal == s.journal + [x];
    assert Papers(s, w) by { PapersHold(s, w); }
    var a := Evidence(s, ticket);
    SpentNow(s.journal, x, a);
    assert Papers(t, w);
    SpendingStep(s, t, w, x, ticket.approval);
  }

  lemma PapersHold(s: State, w: WorkerId)
    requires Evident(s)
    ensures Papers(s, w)
  {
  }

  lemma ReadKeepsEvident(s: State, w: WorkerId)
    requires Evident(s) && w in s.workers && GatewaySafety.Committed(s, w).CommitRead?
    ensures Evident(Authorize(s, w))
  {
    hide Evident, Proven, Clocked, Provenance, LookedIn, SpentIn, ConfirmedIn, Fits;
    var id := s.workers[w].phase.ticket.approval;
    var t := Authorize(s, w);
    SpendingStep(s, t, w, Entry(ReadDone(w, id.value), s.world), id);
  }

  lemma AuthorizeKeepsEvident(s: State, w: WorkerId)
    requires Evident(s) && w in s.workers
    ensures Evident(Authorize(s, w))
  {
    hide Evident, Papers, SameStanding;
    match GatewaySafety.Committed(s, w) {
      case CommitIntent(_) => IntentKeepsEvident(s, w);
      case CommitRead(_) => ReadKeepsEvident(s, w);
      case NoCommit =>
        if At(s, w, Decided) {
          QuietStepKeepsEvident(s, Authorize(s, w), w);
        }
    }
  }

  // ------------------------------------------------------------------ Rulings, recovery, the world

  lemma RuleKeepsEvident(s: State, id: ApprovalId, approver: Subject, approve: bool)
    requires Evident(s)
    ensures Evident(DecideApproval(s, id, approver, approve))
  {
    var t := DecideApproval(s, id, approver, approve);
    if RulingProblem(s, id, approver).None? {
      var x := Entry(Ruled(id, approver, approve), s.world);
      assert t.journal == s.journal + [x] && t.journal[|s.journal|] == x;
      assert Keeps(s, t);
      forall y ensures Provenance(t, y) {
        assert Provenance(s, y);
        if y == id {
          if approve {
            RuledNow(s, t.approvals[id], x);
          }
        }
      }
      NoEffectProven(s.journal, x);
      NobodyMoves(s, t);
    }
  }

  lemma RuledNow(s: State, a: Approval, x: Entry)
    requires x.event.Ruled? && x.event.approve && a.approver == Some(x.event.approver) && Backed(x.world, a)
    ensures RuledIn(s.journal + [x], x.event.approval, Deed(a))
  {
    assert (s.journal + [x])[|s.journal|] == x;
  }

  lemma NobodyMoves(s: State, t: State)
    requires Evident(s) && Keeps(s, t) && t.workers == s.workers
    requires |t.journal| > |s.journal| ==> Proven(t.journal, |s.journal|)
    requires forall id :: Provenance(t, id)
    ensures Evident(t)
  {
    var w: WorkerId := 0;
    if w in s.workers {
      PapersKept(s, t, w);
    }
    StepKeepsEvident(s, t, w);
  }

  lemma SubmitKeepsEvident(s: State, w: WorkerId, r: Request)
    requires Evident(s) && w !in s.workers
    ensures Evident(s.(workers := s.workers[w := Worker(r, Received)]))
  {
    hide Evident;
    CalmKeepsEvident(s, s.(workers := s.workers[w := Worker(r, Received)]), w);
  }

  lemma OthersKeepEvident(s: State, t: State)
    requires Evident(s) && t.approvals == s.approvals && t.workers == s.workers && t.journal == s.journal
    requires t.world.clock >= s.world.clock
    ensures Evident(t)
  {
    hide Proven, Clocked, Papers, RuledIn, Provenance;
    forall id ensures Provenance(t, id) {
      SameApproval(s, t, id);
    }
    NobodyMoves(s, t);
  }

  lemma NextKeepsEvident(s: State, step: Step)
    requires Evident(s)
    ensures Evident(Next(s, step))
  {
    match step {
      case Submit(w, request) =>
        if w !in s.workers { SubmitKeepsEvident(s, w, request); }
      case DoResolve(w) =>
        if w in s.workers && s.workers[w].phase.Received? { ResolveKeepsEvident(s, w); }
      case DoDecide(w, newId) =>
        if w in s.workers { DecideKeepsEvident(s, w, newId); }
      case DoAuthorize(w) =>
        if w in s.workers { AuthorizeKeepsEvident(s, w); }
      case DoGrant(w, issued) =>
        if w in s.workers { GrantKeepsEvident(s, w, issued); }
      case DoStart(w) =>
        if w in s.workers { StartKeepsEvident(s, w); }
      case DoRecheck(w, tokenValid) =>
        if w in s.workers { RecheckKeepsEvident(s, w, tokenValid); }
      case DoExecute(w, how) =>
        if w in s.workers { ExecuteKeepsEvident(s, w, how); }
      case DoConclude(w) =>
        if w in s.workers { ConcludeKeepsEvident(s, w); }
      case Crash(w) =>
        if w in s.workers { CrashKeepsEvident(s, w); }
      case DoRuling(a, approver, approve) => RuleKeepsEvident(s, a, approver, approve);
      case DoRecover(before) => OthersKeepEvident(s, Recover(s, before));
      case Change(world) =>
        if world.clock >= s.world.clock { OthersKeepEvident(s, s.(world := world)); }
    }
  }

  lemma {:induction false} EvidentAlways(world: World, steps: seq<Step>)
    ensures Evident(Run(world, steps))
  {
    if steps == [] {
    } else {
      EvidentAlways(world, steps[..|steps| - 1]);
      NextKeepsEvident(Run(world, steps[..|steps| - 1]), steps[|steps| - 1]);
    }
  }

  // ------------------------------------------------------------------ Main results

  /** The entries behind an effect at `k` that spent approval `a`: ruling, lookup, intent and confirmation, in this
      order and all while the approval was unexpired; the approver held the capability at every one of them but the
      commit of the intent, which does not look. */
  ghost predicate Backing(j: seq<Entry>, k: nat, id: ApprovalId, a: Approval, d: nat, e: nat, c: nat, q: nat) {
    && d < e < c < q < k < |j| && j[k].event.Effected? && a.approver.Some?
    && j[d].event == Ruled(id, a.approver.value, true) && Backed(j[d].world, a)
    && j[e].event == Looked(j[k].event.worker, j[k].event.ticket) && Backed(j[e].world, a)
    && j[c].event == Intended(j[k].event.worker, j[k].event.request, j[k].event.ticket) && j[c].world.clock <= a.expiresAt
    && j[q].event == Confirmed(j[k].event.worker) && Backed(j[q].world, a)
    && Authorised(j[q].world, j[k].event.request, j[k].event.ticket)
  }

  /** Over every run: an effect whose evaluation needed an approval spent one granted for exactly that request, by
      someone other than its subject, with all the entries of `Backing` before it. */
  lemma ApprovalEvidence(world: World, steps: seq<Step>, k: nat)
    requires var j := Run(world, steps).journal; k < |j| && j[k].event.Effected? && j[k].event.ticket.needed
    ensures var j := Run(world, steps).journal; var effect := j[k].event;
            && effect.ticket.approval.Some? && effect.request.approvalId == effect.ticket.approval
            && exists a: Approval, d: nat, e: nat, c: nat, q: nat ::
                 Covers(a, effect.request, effect.ticket.hash) && Backing(j, k, effect.ticket.approval.value, a, d, e, c, q)
  {
    hide Run, ConfirmedIn, Covers, Provenance, Papers;
    EvidentAlways(world, steps);
    var s := Run(world, steps);
    var j := s.journal;
    var effect := j[k].event;
    assert Proven(j, k);
    var a: Option<Approval> :| Fits(effect.request, effect.ticket, a) && ConfirmedIn(j[..k], effect.worker, effect.request, effect.ticket, a);
    var d, e, c, q := Unfold(j, s.world.clock, k, a.value);
  }

  lemma Unfold(j: seq<Entry>, now: Time, k: nat, a: Approval) returns (d: nat, e: nat, c: nat, q: nat)
    requires Clocked(j, now) && k < |j| && j[k].event.Effected? && j[k].event.ticket.approval.Some?
    requires ConfirmedIn(j[..k], j[k].event.worker, j[k].event.request, j[k].event.ticket, Some(a))
    ensures Backing(j, k, j[k].event.ticket.approval.value, a, d, e, c, q)
  {
    var w, r, ticket, o := j[k].event.worker, j[k].event.request, j[k].event.ticket, Some(a);
    var q' :| 0 <= q' < k && j[..k][q'].event == Confirmed(w) && Authorised(j[..k][q'].world, r, ticket)
              && Backed(j[..k][q'].world, a) && SpentIn(j[..k][..q'], w, r, ticket, o);
    q := q';
    assert j[..k][..q] == j[..q] && j[..k][q] == j[q];
    d, e, c := UnfoldSpent(j, q, w, r, ticket, a);
    assert Backed(j[q].world, a) ==> j[q].world.clock <= a.expiresAt;
  }

  lemma UnfoldSpent(j: seq<Entry>, q: nat, w: WorkerId, r: Request, ticket: Ticket, a: Approval) returns (d: nat, e: nat, c: nat)
    requires q <= |j| && ticket.approval.Some? && SpentIn(j[..q], w, r, ticket, Some(a))
    ensures d < e < c < q && a.approver.Some?
    ensures j[d].event == Ruled(ticket.approval.value, a.approver.value, true) && Backed(j[d].world, a)
    ensures j[e].event == Looked(w, ticket) && Backed(j[e].world, a)
    ensures j[c].event == Intended(w, r, ticket)
  {
    hide Backed;
    c :| 0 <= c < q && j[..q][c].event == Intended(w, r, ticket) && LookedIn(j[..q][..c], w, ticket, Some(a));
    assert j[..q][..c] == j[..c];
    e :| 0 <= e < c && j[..c][e].event == Looked(w, ticket) && Backed(j[..c][e].world, a) && RuledIn(j[..c][..e], ticket.approval.value, a);
    assert j[..c][..e] == j[..e];
    d :| 0 <= d < e && a.approver.Some? && j[..e][d].event == Ruled(ticket.approval.value, a.approver.value, true) && Backed(j[..e][d].world, a);
  }

  /** Every effect, with or without an approval, was preceded by its intent and then by a second check of identity,
      authority and policy version. */
  lemma EffectsWereConfirmed(world: World, steps: seq<Step>, k: nat)
    requires var j := Run(world, steps).journal; k < |j| && j[k].event.Effected?
    ensures var j := Run(world, steps).journal; var e := j[k].event;
            exists c: nat, q: nat :: c < q < k && j[c].event == Intended(e.worker, e.request, e.ticket)
                             && j[q].event == Confirmed(e.worker) && Authorised(j[q].world, e.request, e.ticket)
  {
    hide Run, Fits, Provenance, Papers, Authorised, Backed, SpentIn;
    EvidentAlways(world, steps);
    var j := Run(world, steps).journal;
    var e := j[k].event;
    assert Proven(j, k);
    var a: Option<Approval> :| Fits(e.request, e.ticket, a) && ConfirmedIn(j[..k], e.worker, e.request, e.ticket, a);
    var q: nat :| q < k && j[..k][q].event == Confirmed(e.worker) && Authorised(j[..k][q].world, e.request, e.ticket)
                  && SpentIn(j[..k][..q], e.worker, e.request, e.ticket, a);
    assert j[..k][..q] == j[..q] && j[..k][q] == j[q];
    var c := IntentOf(j, q, e.worker, e.request, e.ticket, a);
  }

  lemma IntentOf(j: seq<Entry>, q: nat, w: WorkerId, r: Request, ticket: Ticket, a: Option<Approval>) returns (c: nat)
    requires q <= |j| && SpentIn(j[..q], w, r, ticket, a)
    ensures c < q && j[c].event == Intended(w, r, ticket)
  {
    hide LookedIn;
    c :| 0 <= c < q && j[..q][c].event == Intended(w, r, ticket) && LookedIn(j[..q][..c], w, ticket, a);
  }

  /** Under the built-in policy every write that is allowed needs an approval. */
  lemma BuiltInPolicyNeedsApproval(s: State, r: Request, hash: RequestHash, input: Input)
    requires s.world.policy == Some(DEFAULT_POLICY) && !input.readOnly
    ensures TicketFor(s, r, hash, input).needed
  {
    hide AnyApplies, DEFAULT_POLICY;
    DefaultEffects(input);
  }
}
