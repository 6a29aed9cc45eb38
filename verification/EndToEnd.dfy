/** The gateway over the synchronised graph: what an executed action rests on, down to the facts of its tenant. */
module EndToEnd {
  import opened Wrappers
  import opened Contracts
  import Store
  import Gateway
  import GatewayEvidence
  import AccessGraph
  import ControlPlane
  import Authority

  /** A state of the control plane's tables as one moment reads them: outside demonstrations, with the edge table in
      some order. `matches` is the shell-style match. */
  datatype Reading = Reading(
    db: Store.Db, edges: seq<Store.AccessEdge>, maxAge: int, matches: (string, string) -> bool)
  {
    function QueryFor(tenant: Tenant, now: Time): AccessGraph.Query {
      AccessGraph.Query(db.accessNodes, db.sources, edges, now, maxAge, false, Some(tenant))
    }

    ghost function PathFor(c: Gateway.Claim, now: Time): Option<AccessGraph.AccessPath> {
      AccessGraph.Answer(QueryFor(c.tenant, now), matches, c.subject, c.capability, c.resource)
    }

    /** A reachable state, read completely. */
    ghost predicate Sound() {
      ControlPlane.Invariant(db) && forall e :: e in edges <==> e in db.accessEdges
    }
  }

  /** The claims a moment of the gateway sees are those that resolve in the reading. */
  ghost predicate Observes(world: Gateway.World, r: Reading) {
    r.Sound() && forall c :: c in world.claims <==> r.PathFor(c, world.clock).Some?
  }

  /** The claim resolves to a path whose hops all lie in current, unrestricted sources of the tenant, and of which
      those of sources that have published are asserted by live facts. */
  ghost predicate RestsOnFacts(r: Reading, c: Gateway.Claim, now: Time) {
    && r.PathFor(c, now).Some?
    && forall e :: e in r.PathFor(c, now).value.hops ==>
         && Authority.ConfinedHop(r.db, r.QueryFor(c.tenant, now), e, c.tenant)
         && Authority.Backed(r.db, e)
  }

  lemma ClaimRestsOnFacts(world: Gateway.World, r: Reading, c: Gateway.Claim)
    requires Observes(world, r) && c in world.claims
    ensures RestsOnFacts(r, c, world.clock)
  {
    hide ControlPlane.Invariant, AccessGraph.Answer, Authority.ConfinedHop, Authority.Backed;
    var q := r.QueryFor(c.tenant, world.clock);
    assert Authority.Reads(q, r.db);
    Authority.PathsAreConfined(r.db, q, r.matches, c.subject, c.capability, c.resource, c.tenant);
    Authority.PathsAreBacked(r.db, q, r.matches, c.subject, c.capability, c.resource);
  }

  function SubjectClaim(r: Gateway.Request): Gateway.Claim {
    Gateway.Claim(r.subject, r.action.cloudAction, r.resource, r.tenant)
  }

  function ApproverClaim(a: Gateway.Approval): Gateway.Claim
    requires a.approver.Some?
  {
    Gateway.Claim(a.approver.value, a.capability, a.resource, a.tenant)
  }

  /** Over every run of the gateway on top of every run of the control plane: an action takes effect only after its
      subject's authority was found, at the second check, on a path confined to the request's tenant, whose hops of
      published sources are live facts. */
  lemma EffectsRestOnLiveFacts(world: Gateway.World, steps: seq<Gateway.Step>, readings: nat -> Reading, k: nat)
    requires var j := Gateway.Run(world, steps).journal;
             && k < |j| && j[k].event.Effected?
             && forall i: nat :: i < |j| ==> Observes(j[i].world, readings(i))
    ensures var j := Gateway.Run(world, steps).journal; var e := j[k].event;
            exists q: nat :: q < k && j[q].event == Gateway.Confirmed(e.worker)
                             && RestsOnFacts(readings(q), SubjectClaim(e.request), j[q].world.clock)
  {
    hide Gateway.Run, Observes, RestsOnFacts;
    GatewayEvidence.EffectsWereConfirmed(world, steps, k);
    var j := Gateway.Run(world, steps).journal;
    var e := j[k].event;
    var c: nat, q: nat :| c < q < k && j[c].event == Gateway.Intended(e.worker, e.request, e.ticket)
                          && j[q].event == Gateway.Confirmed(e.worker) && GatewayEvidence.Authorised(j[q].world, e.request, e.ticket);
    assert Observes(j[q].world, readings(q));
    ClaimRestsOnFacts(j[q].world, readings(q), SubjectClaim(e.request));
  }

  /** The same for the approver, at the ruling, at the lookup and at the second check. */
  lemma ApprovalsRestOnLiveFacts(world: Gateway.World, steps: seq<Gateway.Step>, readings: nat -> Reading, k: nat)
    requires var j := Gateway.Run(world, steps).journal;
             && k < |j| && j[k].event.Effected? && j[k].event.ticket.needed
             && forall i: nat :: i < |j| ==> Observes(j[i].world, readings(i))
    ensures var j := Gateway.Run(world, steps).journal; var e := j[k].event;
            exists a: Gateway.Approval, d: nat, l: nat, q: nat ::
              && d < l < q < k && GatewayEvidence.Covers(a, e.request, e.ticket.hash) && e.ticket.approval.Some?
              && j[d].event == Gateway.Ruled(e.ticket.approval.value, a.approver.value, true)
              && j[l].event == Gateway.Looked(e.worker, e.ticket) && j[q].event == Gateway.Confirmed(e.worker)
              && RestsOnFacts(readings(d), ApproverClaim(a), j[d].world.clock)
              && RestsOnFacts(readings(l), ApproverClaim(a), j[l].world.clock)
              && RestsOnFacts(readings(q), ApproverClaim(a), j[q].world.clock)
  {
    hide Gateway.Run, Observes, RestsOnFacts;
    GatewayEvidence.ApprovalEvidence(world, steps, k);
    var j := Gateway.Run(world, steps).journal;
    var e := j[k].event;
    var a: Gateway.Approval, d: nat, l: nat, c: nat, q: nat :|
      GatewayEvidence.Covers(a, e.request, e.ticket.hash) && GatewayEvidence.Backing(j, k, e.ticket.approval.value, a, d, l, c, q);
    assert Observes(j[d].world, readings(d)) && Observes(j[l].world, readings(l)) && Observes(j[q].world, readings(q));
    ClaimRestsOnFacts(j[d].world, readings(d), ApproverClaim(a));
    ClaimRestsOnFacts(j[l].world, readings(l), ApproverClaim(a));
    ClaimRestsOnFacts(j[q].world, readings(q), ApproverClaim(a));
  }
}
