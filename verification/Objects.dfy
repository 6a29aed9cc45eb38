/** The object inventory: bounded context around a resource, disclosed node by node and edge by edge. */
module Objects {
  import opened Wrappers
  import opened Contracts

  type ObjectId = string

  datatype ObjectNode = ObjectNode(kind: string, name: string, tenant: Option<Tenant>, attrs: map<string, string>, restricted: set<string>)

  datatype ObjectEdge = ObjectEdge(id: string, src: ObjectId, relation: string, dst: ObjectId) {
    predicate Touches(n: ObjectId) {
      src == n || dst == n
    }

    predicate Joins(u: ObjectId, v: ObjectId) {
      (src == u && dst == v) || (src == v && dst == u)
    }
  }

  /** The inventory as one tenant's subject sees it: `allowed` are the pairs of object name and capability for which
      a path resolves. */
  datatype Scope = Scope(nodes: map<ObjectId, ObjectNode>, edges: seq<ObjectEdge>, tenant: Tenant, allowed: iset<(string, string)>) {

    predicate Permits(n: ObjectId, capability: string) {
      n in nodes && (nodes[n].name, capability) in allowed
    }

    predicate Discovers(n: ObjectId) {
      n in nodes && nodes[n].tenant == Some(tenant) && Permits(n, "context:discover")
    }

    /** Both ends are discoverable objects of the tenant, and the source permits disclosing the relation. */
    predicate Visible(e: ObjectEdge) {
      Discovers(e.src) && Discovers(e.dst) && Permits(e.src, "context:relation:" + e.relation)
    }

    /** The edges at a node, whoever owns them, in the order of the table. */
    function Incident(n: ObjectId): seq<ObjectEdge> {
      IncidentIn(edges, n)
    }

    predicate IsCandidate(n: ObjectId, resource: string) {
      n in nodes && nodes[n].name == resource && nodes[n].tenant == Some(tenant)
    }
  }

  function IncidentIn(edges: seq<ObjectEdge>, n: ObjectId): seq<ObjectEdge> {
    if edges == [] then []
    else
      var last := edges[|edges| - 1];
      IncidentIn(edges[..|edges| - 1], n) + if last.Touches(n) then [last] else []
  }

  lemma {:induction false} IncidentFilters(edges: seq<ObjectEdge>, n: ObjectId)
    ensures forall e :: e in IncidentIn(edges, n) <==> e in edges && e.Touches(n)
  {
    if edges != [] {
      IncidentFilters(edges[..|edges| - 1], n);
      assert edges == edges[..|edges| - 1] + [edges[|edges| - 1]];
    }
  }

  /** The places of the table at which an edge has this object at an end. */
  ghost function Touching(edges: seq<ObjectEdge>, n: ObjectId): set<int> {
    set i | 0 <= i < |edges| && (edges[i].src == n || edges[i].dst == n)
  }

  lemma TouchingSnoc(front: seq<ObjectEdge>, last: ObjectEdge, n: ObjectId)
    ensures |Touching(front + [last], n)| == |Touching(front, n)| + if last.src == n || last.dst == n then 1 else 0
  {
    var longer := front + [last];
    assert forall i :: 0 <= i < |front| ==> front[i] == longer[i];
    assert Touching(longer, n) == Touching(front, n) + if last.src == n || last.dst == n then {|front|} else {};
  }

  /** How many edges of the table touch the object. */
  lemma {:induction false} IncidentCount(edges: seq<ObjectEdge>, n: ObjectId)
    ensures |IncidentIn(edges, n)| == |Touching(edges, n)|
  {
    if edges != [] {
      hide Touching;
      var front, last := edges[..|edges| - 1], edges[|edges| - 1];
      IncidentCount(front, n);
      TouchingSnoc(front, last, n);
      assert edges == front + [last];
    }
  }

  /** A relation is visible exactly if both its ends are objects of the tenant that the subject may discover, and the
      subject may see relations of this kind at its source. */
  lemma VisibleExactly(c: Scope, e: ObjectEdge)
    ensures c.Visible(e) <==>
            && e.src in c.nodes && c.nodes[e.src].tenant == Some(c.tenant) && (c.nodes[e.src].name, "context:discover") in c.allowed
            && e.dst in c.nodes && c.nodes[e.dst].tenant == Some(c.tenant) && (c.nodes[e.dst].name, "context:discover") in c.allowed
            && (c.nodes[e.src].name, "context:relation:" + e.relation) in c.allowed
  {
  }

  const MAX_DEPTH := 4
  const MAX_EXPANSION := 1000
  const MAX_OBJECTS := 1000

  // ------------------------------------------------------------------ Walks and distance

  /** A visible edge joins the two. */
  ghost predicate Adjacent(c: Scope, u: ObjectId, v: ObjectId) {
    exists e :: e in c.edges && c.Visible(e) && ((e.src == u && e.dst == v) || (e.src == v && e.dst == u))
  }

  ghost predicate Walk(c: Scope, p: seq<ObjectId>) {
    p != [] && forall i :: 0 < i < |p| ==> Adjacent(c, p[i - 1], p[i])
  }

  /** Some walk over visible edges leads from the root to `v` in fewer than `k` hops. */
  ghost predicate Within(c: Scope, root: ObjectId, k: nat, v: ObjectId) {
    exists p :: Walk(c, p) && p[0] == root && p[|p| - 1] == v && |p| <= k
  }

  /** The length of a shortest walk. */
  ghost predicate AtDistance(c: Scope, root: ObjectId, v: ObjectId, d: nat) {
    Within(c, root, d + 1, v) && !Within(c, root, d, v)
  }

  /** `v` is the root or adjacent to something expanded. */
  ghost predicate Found(c: Scope, root: ObjectId, expanded: set<ObjectId>, v: ObjectId) {
    v == root || exists u :: u in expanded && Adjacent(c, u, v)
  }

  lemma WithinMonotone(c: Scope, root: ObjectId, k: nat, l: nat, v: ObjectId)
    requires k <= l && Within(c, root, k, v)
    ensures Within(c, root, l, v)
  {
  }

  /** One more hop. */
  lemma FoundIsWithin(c: Scope, root: ObjectId, expanded: set<ObjectId>, k: nat, v: ObjectId)
    requires forall u :: u in expanded <==> Within(c, root, k, u)
    ensures Found(c, root, expanded, v) <==> Within(c, root, k + 1, v)
  {
    hide Adjacent;
    if v == root {
      assert Walk(c, [root]);
    } else if Found(c, root, expanded, v) {
      var u :| u in expanded && Adjacent(c, u, v);
      var p :| Walk(c, p) && p[0] == root && p[|p| - 1] == u && |p| <= k;
      assert Walk(c, p + [v]);
    }
    if Within(c, root, k + 1, v) && v != root {
      var p :| Walk(c, p) && p[0] == root && p[|p| - 1] == v && |p| <= k + 1;
      var q := p[..|p| - 1];
      assert Walk(c, q);
      assert Within(c, root, k, q[|q| - 1]);
      assert Adjacent(c, p[|p| - 2], p[|p| - 1]);
    }
  }

  // ------------------------------------------------------------------ Permission checks

  /** Permission checks by object and capability, remembered for one call. */
  class Checks {
    const scope: Scope
    var checked: map<(ObjectId, string), bool>

    /** Whatever is remembered is what a fresh check would say. */
    ghost predicate Valid()
      reads this
    {
      forall key :: key in checked ==> checked[key] == scope.Permits(key.0, key.1)
    }

    constructor (scope: Scope)
      ensures Valid() && this.scope == scope
    {
      this.scope := scope;
      this.checked := map[];
    }

    method Permits(n: ObjectId, capability: string) returns (r: bool)
      requires Valid()
      modifies this`checked
      ensures Valid() && r == (n in scope.nodes && (scope.nodes[n].name, capability) in scope.allowed)
    {
      var key := (n, capability);
      if key !in checked {
        checked := checked[key := scope.Permits(n, capability)];
      }
      r := checked[key];
    }
  }

  // ------------------------------------------------------------------ The search

  datatype ContextError = GrantNotLive | DepthOutOfRange | ExpansionLimit | ObjectLimit

  /** The distance of each object found, and the visible edges. */
  datatype Map = Map(distance: map<ObjectId, nat>, edges: set<ObjectEdge>)

  /** The visible edges with an end among the expanded objects. */
  ghost predicate EdgesOf(c: Scope, expanded: set<ObjectId>, edges: set<ObjectEdge>) {
    forall e :: e in edges <==> e in c.edges && c.Visible(e) && (e.src in expanded || e.dst in expanded)
  }

  /** The objects found are those adjacent to expanded ones, besides the root. */
  ghost predicate Frontier(c: Scope, root: ObjectId, expanded: set<ObjectId>, m: Map) {
    && (forall v :: v in m.distance <==> Found(c, root, expanded, v))
    && EdgesOf(c, expanded, m.edges)
  }

  /** What the edges at `n` looked at so far have added. */
  ghost predicate Partly(c: Scope, n: ObjectId, seen: seq<ObjectEdge>, before: Map, m: Map, hop: nat) {
    && (forall v :: v in m.distance <==> v in before.distance || exists e :: e in seen && c.Visible(e) && e.Joins(n, v))
    && (forall v :: v in m.distance ==> m.distance[v] == if v in before.distance then before.distance[v] else hop)
    && (forall e :: e in m.edges <==> e in before.edges || (e in seen && c.Visible(e)))
  }

  /** Looks at one edge. */
  method Consider(checks: Checks, e: ObjectEdge) returns (visible: bool)
    requires checks.Valid()
    modifies checks`checked
    ensures checks.Valid() && visible == checks.scope.Visible(e)
  {
    var c := checks.scope;
    if e.src !in c.nodes || e.dst !in c.nodes {
      return false;
    }
    if c.nodes[e.src].tenant != Some(c.tenant) || c.nodes[e.dst].tenant != Some(c.tenant) {
      return false;
    }
    var discoverSrc := checks.Permits(e.src, "context:discover");
    if !discoverSrc {
      return false;
    }
    var discoverDst := checks.Permits(e.dst, "context:discover");
    if !discoverDst {
      return false;
    }
    visible := checks.Permits(e.src, "context:relation:" + e.relation);
  }

  /** What a visible edge at `n` adds. */
  function Added(m: Map, e: ObjectEdge, n: ObjectId, hop: nat): Map {
    var other := if e.src == n then e.dst else e.src;
    Map(if other in m.distance then m.distance else m.distance[other := hop], m.edges + {e})
  }

  lemma PartlySnoc(c: Scope, n: ObjectId, seen: seq<ObjectEdge>, e: ObjectEdge, before: Map, m: Map, hop: nat)
    requires Partly(c, n, seen, before, m, hop) && e.Touches(n)
    ensures Partly(c, n, seen + [e], before, if c.Visible(e) then Added(m, e, n, hop) else m, hop)
  {
    hide Scope.Visible;
    assert forall x :: x in seen + [e] <==> x in seen || x == e;
    var other := if e.src == n then e.dst else e.src;
    assert forall v :: e.Joins(n, v) <==> v == other;
  }

  /** Expands one object: every visible edge at it is shown, and its other end is found at distance `hop` unless it
      was found before. */
  method Expand(checks: Checks, n: ObjectId, hop: nat, m: Map, frontier: seq<ObjectId>)
    returns (r: Result<(Map, seq<ObjectId>), ContextError>)
    requires checks.Valid() && |m.distance| <= MAX_OBJECTS
    modifies checks`checked
    ensures checks.Valid()
    ensures r.Success? ==> (
                && |checks.scope.Incident(n)| <= MAX_EXPANSION && |r.value.0.distance| <= MAX_OBJECTS
                && Partly(checks.scope, n, checks.scope.Incident(n), m, r.value.0, hop)
                && NewlyFound(frontier, m, r.value.1, r.value.0))
    ensures r.Failure? ==> || (r.error == ExpansionLimit && |checks.scope.Incident(n)| > MAX_EXPANSION)
                           || (r.error == ObjectLimit && TooManyBy(checks.scope, n, m))
  {
    var c := checks.scope;
    var edges := c.Incident(n);
    IncidentFilters(c.edges, n);
    if |edges| > MAX_EXPANSION {
      return Failure(ExpansionLimit);
    }
    var now, next := m, frontier;
    for i := 0 to |edges|
      invariant checks.Valid()
      invariant Partly(c, n, edges[..i], m, now, hop) && NewlyFound(frontier, m, next, now) && |now.distance| <= MAX_OBJECTS
    {
      var e := edges[i];
      assert edges[..i + 1] == edges[..i] + [e];
      assert e in edges;
      PartlySnoc(c, n, edges[..i], e, m, now, hop);
      var visible := Consider(checks, e);
      if visible {
        now, next := Add(now, next, e, n, hop, frontier, m);
        if |now.distance| > MAX_OBJECTS {
          CrowdedBy(c, n, edges, i + 1, m, now, hop);
          return Failure(ObjectLimit);
        }
      }
    }
    assert edges[..|edges|] == edges;
    return Success((now, next));
  }

  /** Shows an edge and, if its other end is new, finds it. */
  method Add(m: Map, next: seq<ObjectId>, e: ObjectEdge, n: ObjectId, hop: nat, ghost frontier: seq<ObjectId>, ghost before: Map)
    returns (m': Map, next': seq<ObjectId>)
    requires NewlyFound(frontier, before, next, m)
    ensures m' == Added(m, e, n, hop) && NewlyFound(frontier, before, next', m')
  {
    var other := if e.src == n then e.dst else e.src;
    m', next' := m.(edges := m.edges + {e}), next;
    if other !in m.distance {
      m' := m'.(distance := m.distance[other := hop]);
      next' := next + [other];
    }
  }

  /** The frontier grows by exactly the objects found. */
  ghost predicate NewlyFound(frontier: seq<ObjectId>, before: Map, next: seq<ObjectId>, m: Map) {
    && before.distance.Keys <= m.distance.Keys
    && forall v :: v in next <==> v in frontier || v in m.distance.Keys - before.distance.Keys
  }

  /** More objects than allowed have been found, or are adjacent to `n`. */
  ghost predicate TooManyBy(c: Scope, n: ObjectId, m: Map) {
    exists crowd: set<ObjectId> :: |crowd| > MAX_OBJECTS && FoundOrNear(c, n, m, crowd)
  }

  ghost predicate FoundOrNear(c: Scope, n: ObjectId, m: Map, crowd: set<ObjectId>) {
    forall v :: v in crowd ==> v in m.distance || Adjacent(c, n, v)
  }

  lemma CrowdedBy(c: Scope, n: ObjectId, edges: seq<ObjectEdge>, i: nat, before: Map, m: Map, hop: nat)
    requires i <= |edges| && Partly(c, n, edges[..i], before, m, hop) && |m.distance| > MAX_OBJECTS
    requires forall e :: e in edges ==> e in c.edges
    ensures TooManyBy(c, n, before)
  {
  }

  // ------------------------------------------------------------------ Hop by hop

  ghost function Elements(s: seq<ObjectId>): set<ObjectId> {
    set v | v in s
  }

  /** No expanded object has too many edges. */
  ghost predicate Quiet(c: Scope, expanded: set<ObjectId>) {
    forall n :: n in expanded ==> |c.Incident(n)| <= MAX_EXPANSION
  }

  lemma PartlyExpands(c: Scope, root: ObjectId, expanded: set<ObjectId>, n: ObjectId, m: Map, m': Map, hop: nat)
    requires Frontier(c, root, expanded, m) && Partly(c, n, c.Incident(n), m, m', hop)
    ensures Frontier(c, root, expanded + {n}, m')
  {
    hide Scope.Visible, IncidentIn;
    IncidentFilters(c.edges, n);
    forall v ensures v in m'.distance <==> Found(c, root, expanded + {n}, v) {
      assert (exists e :: e in c.Incident(n) && c.Visible(e) && e.Joins(n, v)) <==> Adjacent(c, n, v);
    }
  }

  /** Before hop `k + 1`: the objects found are those within `k` hops, at their distances; those within `k - 1` are
      expanded and the rest form the frontier. */
  ghost predicate Level(c: Scope, root: ObjectId, k: nat, expanded: set<ObjectId>, frontier: seq<ObjectId>, m: Map) {
    && (forall u :: u in expanded <==> Within(c, root, k, u))
    && Frontier(c, root, expanded, m) && Quiet(c, expanded) && |m.distance| <= MAX_OBJECTS
    && (forall v :: v in frontier <==> v in m.distance && v !in expanded)
    && (forall v :: v in m.distance ==> m.distance[v] <= k && AtDistance(c, root, v, m.distance[v]))
  }

  lemma LevelObjects(c: Scope, root: ObjectId, k: nat, expanded: set<ObjectId>, frontier: seq<ObjectId>, m: Map)
    requires Level(c, root, k, expanded, frontier, m)
    ensures forall v :: v in m.distance <==> Within(c, root, k + 1, v)
  {
    hide Within, Found;
    forall v ensures v in m.distance <==> Within(c, root, k + 1, v) {
      FoundIsWithin(c, root, expanded, k, v);
    }
  }

  /** Part of a hop: the frontier objects looked at so far are expanded too. */
  ghost predicate Hop(c: Scope, root: ObjectId, expanded: set<ObjectId>, done: seq<ObjectId>, before: Map, m: Map, next: seq<ObjectId>, hop: nat) {
    var all := expanded + Elements(done);
    && Frontier(c, root, all, m) && Quiet(c, all) && |m.distance| <= MAX_OBJECTS
    && NewlyFound([], before, next, m)
    && (forall v :: v in m.distance ==> m.distance[v] == if v in before.distance then before.distance[v] else hop)
  }

  lemma HopSnoc(
    c: Scope, root: ObjectId, expanded: set<ObjectId>, done: seq<ObjectId>, n: ObjectId, before: Map, m: Map, next: seq<ObjectId>,
    m': Map, next': seq<ObjectId>, hop: nat)
    requires Hop(c, root, expanded, done, before, m, next, hop)
    requires Partly(c, n, c.Incident(n), m, m', hop) && NewlyFound(next, m, next', m')
    requires |c.Incident(n)| <= MAX_EXPANSION && |m'.distance| <= MAX_OBJECTS
    ensures Hop(c, root, expanded, done + [n], before, m', next', hop)
  {
    hide Frontier, Scope.Visible, IncidentIn;
    var all := expanded + Elements(done);
    assert (expanded + Elements(done + [n])) == all + {n};
    PartlyExpands(c, root, all, n, m, m', hop);
  }

  /** A whole hop leads to the next level. */
  lemma HopEnds(c: Scope, root: ObjectId, k: nat, expanded: set<ObjectId>, frontier: seq<ObjectId>, before: Map, m: Map, next: seq<ObjectId>)
    requires Level(c, root, k, expanded, frontier, before) && Hop(c, root, expanded, frontier, before, m, next, k + 1)
    ensures Level(c, root, k + 1, expanded + Elements(frontier), next, m)
  {
    hide Within, Found, Scope.Incident, Scope.Visible, EdgesOf;
    var all := expanded + Elements(frontier);
    LevelObjects(c, root, k, expanded, frontier, before);
    forall u | u in expanded ensures Within(c, root, k + 1, u) {
      WithinMonotone(c, root, k, k + 1, u);
    }
    assert forall u :: u in all <==> Within(c, root, k + 1, u);
    forall v | v in m.distance ensures m.distance[v] <= k + 1 && AtDistance(c, root, v, m.distance[v]) {
      FoundIsWithin(c, root, all, k + 1, v);
    }
    forall v ensures v in next <==> v in m.distance && v !in all {
      assert v in before.distance <==> v in all;
    }
  }

  /** Within the depth some object has too many edges, or there are too many objects. */
  ghost predicate Busy(c: Scope, root: ObjectId, k: nat) {
    exists n :: Within(c, root, k, n) && |c.Incident(n)| > 1000
  }

  ghost predicate Crowded(c: Scope, root: ObjectId, k: nat) {
    exists crowd: set<ObjectId> :: |crowd| > 1000 && AllWithin(c, root, k, crowd)
  }

  ghost predicate AllWithin(c: Scope, root: ObjectId, k: nat, crowd: set<ObjectId>) {
    forall v :: v in crowd ==> Within(c, root, k, v)
  }

  lemma HopFails(c: Scope, root: ObjectId, k: nat, expanded: set<ObjectId>, frontier: seq<ObjectId>, i: nat, before: Map, m: Map, next: seq<ObjectId>)
    requires Level(c, root, k, expanded, frontier, before) && i < |frontier|
    requires Hop(c, root, expanded, frontier[..i], before, m, next, k + 1)
    ensures Within(c, root, k + 1, frontier[i])
    ensures TooManyBy(c, frontier[i], m) ==> Crowded(c, root, k + 2)
  {
    hide Within, Found, Scope.Incident, Scope.Visible, EdgesOf, AtDistance;
    LevelObjects(c, root, k, expanded, frontier, before);
    assert frontier[i] in frontier;
    forall u | u in expanded ensures u in before.distance {
      WithinMonotone(c, root, k, k + 1, u);
    }
    assert forall u :: u in frontier[..i] ==> u in frontier;
    if TooManyBy(c, frontier[i], m) {
      var crowd: set<ObjectId> :| |crowd| > MAX_OBJECTS && FoundOrNear(c, frontier[i], m, crowd);
      forall v | v in crowd ensures Within(c, root, k + 2, v) {
        ReachedByHop(c, root, k, before.distance.Keys, expanded + Elements(frontier[..i]), m, frontier[i], v);
      }
      assert AllWithin(c, root, k + 2, crowd);
    }
  }

  lemma ReachedByHop(c: Scope, root: ObjectId, k: nat, level: set<ObjectId>, all: set<ObjectId>, m: Map, n: ObjectId, v: ObjectId)
    requires forall u :: u in level <==> Within(c, root, k + 1, u)
    requires all <= level && n in level && Frontier(c, root, all, m) && (v in m.distance || Adjacent(c, n, v))
    ensures Within(c, root, k + 2, v)
  {
    hide Within, Adjacent, EdgesOf;
    FoundIsWithin(c, root, level, k + 1, v);
  }

  /** One hop. */
  method ExpandLevel(checks: Checks, ghost root: ObjectId, ghost k: nat, hop: nat, ghost expanded: set<ObjectId>, frontier: seq<ObjectId>, m: Map)
    returns (r: Result<(Map, seq<ObjectId>), ContextError>)
    requires checks.Valid() && hop == k + 1 && Level(checks.scope, root, k, expanded, frontier, m)
    modifies checks`checked
    ensures checks.Valid()
    ensures r.Success? ==> Level(checks.scope, root, k + 1, expanded + Elements(frontier), r.value.1, r.value.0)
    ensures r.Failure? ==> || (r.error == ExpansionLimit && Busy(checks.scope, root, k + 1))
                           || (r.error == ObjectLimit && Crowded(checks.scope, root, k + 2))
  {
    hide Level, Hop, Within, Partly, NewlyFound, TooManyBy, Crowded, Scope.Incident;
    var c := checks.scope;
    var now, next := m, [];
    HopStarts(c, root, k, expanded, frontier, m);
    for i := 0 to |frontier|
      invariant checks.Valid()
      invariant |now.distance| <= MAX_OBJECTS && Hop(c, root, expanded, frontier[..i], m, now, next, hop)
    {
      HopFails(c, root, k, expanded, frontier, i, m, now, next);
      var step := Expand(checks, frontier[i], hop, now, next);
      if step.Failure? {
        return Failure(step.error);
      }
      HopSnoc(c, root, expanded, frontier[..i], frontier[i], m, now, next, step.value.0, step.value.1, hop);
      assert frontier[..i + 1] == frontier[..i] + [frontier[i]];
      now, next := step.value.0, step.value.1;
    }
    assert frontier[..|frontier|] == frontier;
    HopEnds(c, root, k, expanded, frontier, m, now, next);
    return Success((now, next));
  }

  lemma HopStarts(c: Scope, root: ObjectId, k: nat, expanded: set<ObjectId>, frontier: seq<ObjectId>, m: Map)
    requires Level(c, root, k, expanded, frontier, m)
    ensures |m.distance| <= MAX_OBJECTS && Hop(c, root, expanded, frontier[..0], m, m, [], k + 1)
  {
  }

  // ------------------------------------------------------------------ The whole context

  /** Exactly the objects within `k` hops at their shortest distances, and exactly the visible edges at objects nearer
      than that. */
  ghost predicate IsContext(c: Scope, root: ObjectId, k: nat, m: Map) {
    && (forall v :: v in m.distance <==> Within(c, root, k + 1, v))
    && (forall v :: v in m.distance ==> AtDistance(c, root, v, m.distance[v]))
    && (forall e :: e in m.edges <==> e in c.edges && c.Visible(e) && (Within(c, root, k, e.src) || Within(c, root, k, e.dst)))
  }

  lemma LevelIsContext(c: Scope, root: ObjectId, k: nat, expanded: set<ObjectId>, frontier: seq<ObjectId>, m: Map)
    requires Level(c, root, k, expanded, frontier, m)
    ensures IsContext(c, root, k, m) && !Busy(c, root, k) && !Crowded(c, root, k + 1)
  {
    hide Within, Found, Scope.Incident, Scope.Visible, AtDistance;
    LevelObjects(c, root, k, expanded, frontier, m);
    if Crowded(c, root, k + 1) {
      var crowd: set<ObjectId> :| |crowd| > MAX_OBJECTS && AllWithin(c, root, k + 1, crowd);
      SubsetSize(crowd, m.distance.Keys);
    }
  }

  lemma {:induction false} SubsetSize(a: set<ObjectId>, b: set<ObjectId>)
    requires a <= b
    ensures |a| <= |b|
  {
    if a != {} {
      var x :| x in a;
      SubsetSize(a - {x}, b - {x});
    }
  }

  lemma StartLevel(c: Scope, root: ObjectId)
    ensures Level(c, root, 0, {}, [root], Map(map[root := 0], {}))
  {
  }

  /** Breadth first from the root: the exact context, or an error exactly when an expanded object has too many edges
      or there are too many objects. */
  method Explore(checks: Checks, root: ObjectId, maxHops: nat) returns (r: Result<Map, ContextError>)
    requires checks.Valid()
    modifies checks`checked
    ensures checks.Valid()
    ensures r.Failure? <==> Busy(checks.scope, root, maxHops) || Crowded(checks.scope, root, maxHops + 1)
    ensures r.Success? ==> IsContext(checks.scope, root, maxHops, r.value)
    ensures r.Failure? ==> r.error == ExpansionLimit || r.error == ObjectLimit
  {
    hide Level, Within, Busy, Crowded, IsContext;
    var c := checks.scope;
    var m, frontier := Map(map[root := 0], {}), [root];
    ghost var expanded: set<ObjectId> := {};
    StartLevel(c, root);
    for hop := 1 to maxHops + 1
      invariant checks.Valid() && Level(c, root, hop - 1, expanded, frontier, m)
    {
      var step := ExpandLevel(checks, root, hop - 1, hop, expanded, frontier, m);
      if step.Failure? {
        LimitsGrow(c, root, hop, maxHops);
        return Failure(step.error);
      }
      expanded := expanded + Elements(frontier);
      m, frontier := step.value.0, step.value.1;
    }
    LevelIsContext(c, root, maxHops, expanded, frontier, m);
    return Success(m);
  }

  lemma LimitsGrow(c: Scope, root: ObjectId, k: nat, l: nat)
    requires k <= l
    ensures Busy(c, root, k) ==> Busy(c, root, l)
    ensures Crowded(c, root, k + 1) ==> Crowded(c, root, l + 1)
  {
  }

  // ------------------------------------------------------------------ Disclosure

  /** Field names whose values are never shown without their own capability. */
  const SECRETS: set<string> := {"password", "secret", "secret_value", "token", "credentials", "private_key"}

  /** An attribute's value, or `None` where it is redacted. */
  function Disclosed(c: Scope, n: ObjectId, key: string): Option<string>
    requires n in c.nodes && key in c.nodes[n].attrs
  {
    if key in c.nodes[n].restricted + SECRETS && !c.Permits(n, "context:field:" + key) then None else Some(c.nodes[n].attrs[key])
  }

  /** `None` stands for attributes redacted as a whole. */
  datatype View = View(attrs: Option<map<string, Option<string>>>, distance: nat)

  ghost predicate IsView(c: Scope, n: ObjectId, distance: nat, v: View) {
    && n in c.nodes && v.distance == distance
    && ShowsAttributes(c.nodes[n], c.allowed, v)
  }

  /** The object's attributes are shown to whoever may read it, each with its own value unless it is restricted or names
      a secret and its capability is missing; otherwise none is. */
  ghost predicate ShowsAttributes(node: ObjectNode, allowed: iset<(string, string)>, v: View) {
    if (node.name, "context:read") !in allowed then v.attrs == None
    else
      && v.attrs.Some? && v.attrs.value.Keys == node.attrs.Keys
      && forall key :: key in node.attrs ==>
           v.attrs.value[key] ==
           if (node.name, "context:field:" + key) in allowed
              || (key !in node.restricted && key !in {"password", "secret", "secret_value", "token", "credentials", "private_key"})
           then Some(node.attrs[key]) else None
  }

  lemma ShownAsDisclosed(c: Scope, n: ObjectId, v: View)
    requires n in c.nodes && c.Permits(n, "context:read") && v.attrs.Some? && v.attrs.value.Keys == c.nodes[n].attrs.Keys
    requires forall key :: key in v.attrs.value ==> v.attrs.value[key] == Disclosed(c, n, key)
    ensures ShowsAttributes(c.nodes[n], c.allowed, v)
  {
  }

  method Disclose(checks: Checks, n: ObjectId, distance: nat) returns (v: View)
    requires checks.Valid() && n in checks.scope.nodes
    modifies checks`checked
    ensures checks.Valid() && IsView(checks.scope, n, distance, v)
  {
    var c := checks.scope;
    var readable := checks.Permits(n, "context:read");
    if !readable {
      return View(None, distance);
    }
    var node := c.nodes[n];
    var shown: map<string, Option<string>>, left := map[], node.attrs.Keys;
    while left != {}
      invariant checks.Valid() && left <= node.attrs.Keys && shown.Keys == node.attrs.Keys - left
      invariant forall key :: key in shown ==> key in node.attrs && shown[key] == Disclosed(c, n, key)
      decreases left
    {
      var key :| key in left;
      var permitted := key !in node.restricted + SECRETS;
      if !permitted {
        permitted := checks.Permits(n, "context:field:" + key);
      }
      shown := shown[key := if permitted then Some(node.attrs[key]) else None];
      left := left - {key};
    }
    assert forall key :: key in shown ==> shown[key] == Disclosed(c, n, key);
    ShownAsDisclosed(c, n, View(Some(shown), distance));
    return View(Some(shown), distance);
  }

  // ------------------------------------------------------------------ The operation

  datatype Grant = Grant(live: bool, tenant: Option<Tenant>)

  /** Nothing at all, or the objects by id with their views, and the visible edges. */
  datatype Context = Unavailable | Context(root: ObjectId, views: map<ObjectId, View>, edges: set<ObjectEdge>)

  /** An object of the tenant with this name. */
  ghost predicate IsNamed(c: Scope, resource: string, n: ObjectId) {
    n in c.nodes && c.nodes[n].name == resource && c.nodes[n].tenant == Some(c.tenant)
  }

  /** The resource names exactly one object of the tenant, and the subject may discover it. */
  ghost predicate IsRoot(c: Scope, resource: string, root: ObjectId) {
    && IsNamed(c, resource, root) && (forall n :: IsNamed(c, resource, n) ==> n == root)
    && (c.nodes[root].name, "context:discover") in c.allowed
  }

  ghost predicate ShowsContext(c: Scope, root: ObjectId, k: nat, r: Context) {
    && r.Context? && r.root == root
    && (forall v :: v in r.views <==> Within(c, root, k + 1, v))
    && (forall v :: v in r.views ==> AtDistance(c, root, v, r.views[v].distance) && IsView(c, v, r.views[v].distance, r.views[v]))
    && (forall e :: e in r.edges <==> e in c.edges && c.Visible(e) && (Within(c, root, k, e.src) || Within(c, root, k, e.dst)))
  }

  /** The candidates for the root; the query stops at the second. */
  method FindRoot(c: Scope, resource: string) returns (root: Option<ObjectId>)
    ensures root.Some? ==> IsNamed(c, resource, root.value) && forall n :: IsNamed(c, resource, n) ==> n == root.value
    ensures root.None? ==> forall n :: IsNamed(c, resource, n) ==> exists m :: IsNamed(c, resource, m) && m != n
  {
    var candidates := set n | n in c.nodes && c.IsCandidate(n, resource);
    assert forall n :: IsNamed(c, resource, n) <==> n in candidates;
    if n :| n in candidates {
      if m :| m in candidates && m != n {
        return None;
      }
      return Some(n);
    }
    return None;
  }

  /** The scoped context of a resource: exact when it succeeds; refused outright for a grant that is not live, a depth
      out of range, or a context over the limits; and empty, without a hint why, when the tenant, the object or the
      permission to discover it is missing. */
  method ScopedContext(
    nodes: map<ObjectId, ObjectNode>, edges: seq<ObjectEdge>, allowed: iset<(string, string)>, grant: Grant, resource: string, maxHops: int)
    returns (r: Result<Context, ContextError>)
    ensures !grant.live <==> r == Failure(GrantNotLive)
    ensures grant.live ==> (r == Failure(DepthOutOfRange) <==> maxHops < 0 || maxHops > 4)
    ensures grant.live && 0 <= maxHops <= 4 ==>
              if grant.tenant.None? || grant.tenant.value == "" then r == Success(Unavailable)
              else
                var c := Scope(nodes, edges, grant.tenant.value, allowed);
                if root :| IsRoot(c, resource, root)
                then if Busy(c, root, maxHops) || Crowded(c, root, maxHops + 1)
                     then r.Failure? && (r.error == ExpansionLimit || r.error == ObjectLimit)
                     else r.Success? && ShowsContext(c, root, maxHops, r.value)
                else r == Success(Unavailable)
    ensures r.Success? && r.value.Context? ==>
              && (forall n :: n in r.value.views ==>
                    && n in nodes && nodes[n].tenant == grant.tenant && (nodes[n].name, "context:discover") in allowed
                    && ShowsAttributes(nodes[n], allowed, r.value.views[n]))
              && (forall e :: e in r.value.edges ==>
                    && e.src in r.value.views && e.dst in r.value.views
                    && (nodes[e.src].name, "context:relation:" + e.relation) in allowed)
  {
    if !grant.live {
      return Failure(GrantNotLive);
    }
    if !(0 <= maxHops <= MAX_DEPTH) {
      return Failure(DepthOutOfRange);
    }
    if grant.tenant.None? || grant.tenant.value == "" {
      return Success(Unavailable);
    }
    var c := Scope(nodes, edges, grant.tenant.value, allowed);
    var root := FindRoot(c, resource);
    if root.None? {
      return Success(Unavailable);
    }
    var checks := new Checks(c);
    var discovered := checks.Permits(root.value, "context:discover");
    if !discovered {
      return Success(Unavailable);
    }
    assert IsRoot(c, resource, root.value);
    var search := Explore(checks, root.value, maxHops);
    if search.Failure? {
      return Failure(search.error);
    }
    ContextObjects(c, root.value, maxHops, search.value);
    var views := ShowAll(checks, search.value.distance);
    r := Success(Context(root.value, views, search.value.edges));
    assert ShowsContext(c, root.value, maxHops, r.value);
    ShownIsPermitted(c, root.value, maxHops, r.value);
  }

  /** Whatever is shown may be seen. */
  lemma ShownIsPermitted(c: Scope, root: ObjectId, k: nat, r: Context)
    requires c.Discovers(root) && ShowsContext(c, root, k, r)
    ensures forall n :: n in r.views ==>
              && n in c.nodes && c.nodes[n].tenant == Some(c.tenant) && (c.nodes[n].name, "context:discover") in c.allowed
              && ShowsAttributes(c.nodes[n], c.allowed, r.views[n])
    ensures forall e :: e in r.edges ==>
              && e.src in r.views && e.dst in r.views && e.src in c.nodes
              && (c.nodes[e.src].name, "context:relation:" + e.relation) in c.allowed
  {
    hide Within, AtDistance, ShowsAttributes;
    forall n | n in r.views ensures c.Discovers(n) {
      ReachIsDiscoverable(c, root, k + 1, n);
    }
    forall e | e in r.edges ensures e.src in r.views && e.dst in r.views {
      ShownEdgesAreClosed(c, root, k, r, e);
    }
  }

  /** The views of all objects found. */
  method ShowAll(checks: Checks, distance: map<ObjectId, nat>) returns (views: map<ObjectId, View>)
    requires checks.Valid() && distance.Keys <= checks.scope.nodes.Keys
    modifies checks`checked
    ensures checks.Valid() && views.Keys == distance.Keys
    ensures forall n :: n in views ==> IsView(checks.scope, n, distance[n], views[n])
  {
    hide IsView;
    views := map[];
    var left := distance.Keys;
    while left != {}
      invariant checks.Valid() && left <= distance.Keys && views.Keys == distance.Keys - left
      invariant forall n :: n in views ==> IsView(checks.scope, n, distance[n], views[n])
      decreases left
    {
      var n :| n in left;
      var view := Disclose(checks, n, distance[n]);
      views := views[n := view];
      left := left - {n};
    }
  }

  /** Every object within reach is discoverable by the subject and belongs to the tenant: nothing is crossed that the
      subject may not see. */
  lemma ReachIsDiscoverable(c: Scope, root: ObjectId, k: nat, v: ObjectId)
    requires c.Discovers(root) && Within(c, root, k, v)
    ensures c.Discovers(v)
  {
    var p :| Walk(c, p) && p[0] == root && p[|p| - 1] == v && |p| <= k;
    if |p| > 1 {
      assert Adjacent(c, p[|p| - 2], p[|p| - 1]);
    }
  }

  lemma ContextObjects(c: Scope, root: ObjectId, k: nat, m: Map)
    requires c.Discovers(root) && IsContext(c, root, k, m)
    ensures m.distance.Keys <= c.nodes.Keys
  {
    hide Within, AtDistance;
    forall v | v in m.distance ensures v in c.nodes {
      ReachIsDiscoverable(c, root, k + 1, v);
    }
  }

  /** Both ends of every edge shown are among the objects shown. */
  lemma ShownEdgesAreClosed(c: Scope, root: ObjectId, k: nat, r: Context, e: ObjectEdge)
    requires ShowsContext(c, root, k, r) && e in r.edges
    ensures e.src in r.views && e.dst in r.views
  {
    hide AtDistance, IsView;
    var (u, v) := if Within(c, root, k, e.src) then (e.src, e.dst) else (e.dst, e.src);
    assert Adjacent(c, u, v);
    WithinMonotone(c, root, k, k + 1, u);
    OneHop(c, root, k, u, v);
  }

  lemma OneHop(c: Scope, root: ObjectId, k: nat, u: ObjectId, v: ObjectId)
    requires Within(c, root, k, u) && Adjacent(c, u, v)
    ensures Within(c, root, k + 1, v)
  {
    hide Adjacent;
    var p :| Walk(c, p) && p[0] == root && p[|p| - 1] == u && |p| <= k;
    assert Walk(c, p + [v]);
    assert (p + [v])[|p + [v]| - 1] == v;
  }
}
