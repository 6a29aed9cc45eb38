/** Particular runs of the gateway: one request let through under a policy that allows everything, and one that spends
    an approval under a policy that asks for it. */
module GatewayRuns {
  import opened Wrappers
  import opened Contracts
  import opened Policy
  import opened Gateway
  import opened GatewayRecovery

  const ALLOW_ALL := Rule("allow", ALLOW, Reason("everything is allowed"), [], [])
  const ASK_ALWAYS := Rule("ask", REQUIRE_APPROVAL, Reason("everything needs an approval"), [], [])

  /** Allows every request; or every request that brings an approval. */
  function Lenient(asks: bool): Document {
    Document("v1", if asks then [ASK_ALWAYS, ALLOW_ALL] else [ALLOW_ALL])
  }

  lemma LenientOutcome(asks: bool, input: Input)
    ensures OutcomeOf(Lenient(asks).rules, input) == Some(if asks && !input.approvalPresent then ApprovalRequired else Allowed)
    ensures AnyApplies(Lenient(asks).rules, input, REQUIRE_APPROVAL) <==> asks
  {
    var rules := Lenient(asks).rules;
    assert AppliesWith(ALLOW_ALL, input, ALLOW) && AppliesWith(ASK_ALWAYS, input, REQUIRE_APPROVAL);
    assert ALLOW_ALL in rules && (asks ==> rules[0] == ASK_ALWAYS);
    assert !Raises(rules, input);
    OutcomeIsMeaning(rules, input);
    assert Described(rules);
    DescribedIsRead(rules, input);
  }

  lemma LenientVersion(asks: bool)
    ensures Lenient(asks).version == "v1"
  {
  }

  lemma RunSnoc(world: World, steps: seq<Step>, step: Step)
    ensures Run(world, steps + [step]) == Next(Run(world, steps), step)
  {
    hide Next;
    assert (steps + [step])[..|steps|] == steps;
  }

  // ------------------------------------------------------------------ A request nobody else meets

  /** The surroundings of a request that is let through. */
  predicate Open(world: World, r: Request) {
    !r.action.readOnly && (r.subject, r.tenant) in world.mapped && world.policy == Some(Lenient(false))
  }

  function Free(r: Request): Ticket {
    Ticket(r.Hash("v1"), None, false, false, "v1")
  }

  /** Worker 0 at a stage of its request, with its record, and nothing else in the tables. */
  function Alone(world: World, r: Request, stage: Stage, record: ExecutionState, at: Time, journal: seq<Entry>): State {
    State(map[], map[r.Operation() := Execution(r.Hash("v1"), "v1", record, at)], world, map[0 := Worker(r, Flight(stage, Free(r)))], journal)
  }

  function Opening(world: World, r: Request): seq<Entry> {
    [Entry(Looked(0, Free(r)), world), Entry(Intended(0, r, Free(r)), world)]
  }

  const ENTRY: ApprovalId := "first"

  lemma Enters(world: World, r: Request, asks: bool)
    requires !r.action.readOnly && (r.subject, r.tenant) in world.mapped && world.policy == Some(Lenient(asks))
    ensures Run(world, [Submit(0, r), DoResolve(0)]) ==
            State(map[], map[], world, map[0 := Worker(r, Hashed(PathExists(world, r), r.Hash("v1")))], [])
  {
    hide PathExists, Lenient;
    LenientVersion(asks);
    RunSnoc(world, [], Submit(0, r));
    RunSnoc(world, [Submit(0, r)], DoResolve(0));
    assert [] + [Submit(0, r)] == [Submit(0, r)] && [Submit(0, r)] + [DoResolve(0)] == [Submit(0, r), DoResolve(0)];
    assert Run(world, []) == Initial(world);
  }

  lemma IsLetThrough(world: World, r: Request, path: bool)
    requires Open(world, r)
    ensures Next(State(map[], map[], world, map[0 := Worker(r, Hashed(path, r.Hash("v1")))], []), DoDecide(0, ENTRY)) ==
            State(map[], map[], world, map[0 := Worker(r, Flight(Decided, Free(r)))], [Entry(Looked(0, Free(r)), world)])
  {
    hide OutcomeOf, AnyApplies, Lenient;
    var s := State(map[], map[], world, map[0 := Worker(r, Hashed(path, r.Hash("v1")))], []);
    LenientVersion(false);
    LenientOutcome(false, PolicyInput(s, r, path, ApprovalValid(s, r, r.Hash("v1"))));
  }

  lemma IsIntended(world: World, r: Request)
    requires Open(world, r)
    ensures Next(State(map[], map[], world, map[0 := Worker(r, Flight(Decided, Free(r)))], [Entry(Looked(0, Free(r)), world)]),
              DoAuthorize(0)) == Alone(world, r, Intent, Authorized, world.clock, Opening(world, r))
  {
  }

  function Beginning(r: Request): seq<Step> {
    [Submit(0, r), DoResolve(0), DoDecide(0, ENTRY), DoAuthorize(0), DoGrant(0, true)]
  }

  /** Up to its grant, the request waits for nobody. */
  lemma Begins(world: World, r: Request)
    requires Open(world, r)
    ensures Run(world, Beginning(r)) == Alone(world, r, Granted, Authorized, world.clock, Opening(world, r))
  {
    hide PathExists, Lenient, Run, Decide, Authorize;
    var entered := [Submit(0, r), DoResolve(0)];
    Enters(world, r, false);
    IsLetThrough(world, r, PathExists(world, r));
    IsIntended(world, r);
    RunSnoc(world, entered, DoDecide(0, ENTRY));
    RunSnoc(world, entered + [DoDecide(0, ENTRY)], DoAuthorize(0));
    RunSnoc(world, entered + [DoDecide(0, ENTRY)] + [DoAuthorize(0)], DoGrant(0, true));
    assert Beginning(r) == entered + [DoDecide(0, ENTRY)] + [DoAuthorize(0)] + [DoGrant(0, true)];
  }

  // ------------------------------------------------------------------ Recovery while the worker lives

  function Ending(): seq<Step> {
    [DoStart(0), DoRecheck(0, true), DoExecute(0, Succeeds), DoConclude(0)]
  }

  lemma AfterFour(s: State, a: Step, b: Step, c: Step, d: Step)
    ensures After(s, [a, b, c, d]) == Next(Next(Next(Next(s, a), b), c), d)
  {
    hide Next;
    AfterThree(s, a, b, c);
    AfterSnoc(s, [a, b, c], d);
    assert [a, b, c] + [d] == [a, b, c, d];
  }

  /** Nothing the second check looks at stands in the way. */
  predicate StillOpen(world: World, r: Request) {
    Open(world, r) && Claim(r.subject, r.action.cloudAction, r.resource, r.tenant) in world.claims
  }

  lemma Starts(world: World, r: Request, record: ExecutionState, at: Time, j: seq<Entry>)
    ensures Next(Alone(world, r, Granted, record, at, j), DoStart(0)) == Alone(world, r, Started, Running, world.clock, j)
  {
  }

  lemma Confirms(world: World, r: Request, at: Time, j: seq<Entry>)
    requires StillOpen(world, r)
    ensures Next(Alone(world, r, Started, Running, at, j), DoRecheck(0, true)) ==
            Alone(world, r, Rechecked, Running, at, j + [Entry(Confirmed(0), world)])
  {
    hide Lenient;
    LenientVersion(false);
  }

  lemma Completes(world: World, r: Request, record: ExecutionState, at: Time, j: seq<Entry>)
    requires StillOpen(world, r)
    ensures After(Alone(world, r, Granted, record, at, j), Ending()).executions ==
            map[r.Operation() := Execution(r.Hash("v1"), "v1", Succeeded, world.clock)]
  {
    AfterFour(Alone(world, r, Granted, record, at, j), DoStart(0), DoRecheck(0, true), DoExecute(0, Succeeds), DoConclude(0));
    Starts(world, r, record, at, j);
    Confirms(world, r, world.clock, j);
    var confirmed := j + [Entry(Confirmed(0), world)];
  }

  /** From the first request on: recovery while its worker lives declares the outcome unknown, and the worker then turns
      the record into a success. */
  lemma RecoveryIsUndone(world: World, r: Request)
    requires StillOpen(world, r)
    ensures var recovered := Recover(Run(world, Beginning(r)), world.clock + 1);
            && recovered.executions == map[r.Operation() := Execution(r.Hash("v1"), "v1", OutcomeUnknown, world.clock)]
            && After(recovered, Ending()).executions == map[r.Operation() := Execution(r.Hash("v1"), "v1", Succeeded, world.clock)]
  {
    hide Run, After, Open, Beginning, Ending, Opening, Next;
    Begins(world, r);
    Completes(world, r, OutcomeUnknown, world.clock, Opening(world, r));
    assert Recover(Run(world, Beginning(r)), world.clock + 1)
        == Alone(world, r, Granted, OutcomeUnknown, world.clock, Opening(world, r));
  }
}
