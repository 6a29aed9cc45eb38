/** Bounded search for a path of authority, and what its answer means.

    `Search` is the exact answer of the loop in `ResolvePath`, including the order of
    exploration and the expansion bound; `Authorised` says declaratively what a proof of
    authority is. The lemmas relate the two. */
module AccessGraph {
  import opened Wrappers
  import opened Contracts
  import opened Store

  const MAX_DEPTH := 8
  const MAX_EXPANSIONS := 10000

  type Trail = seq<AccessEdge>

  /** Everything a search reads. `edges` is the edge table in the order the database returns it. */
  datatype Query = Query(
    nodes: map<NodeId, AccessNode>,
    sources: map<SourceId, Source>,
    edges: seq<AccessEdge>,
    now: Time,
    maxAge: int,
    demo: bool,
    tenant: Option<Tenant>)
  {
    predicate InWindow(stamp: Option<Time>) {
      stamp.Some? && 0 <= now - stamp.value <= maxAge
    }

    predicate Fresh(sourceId: Option<SourceId>, tenant: Option<Tenant>, observedAt: Option<Time>) {
      match sourceId
      case None => demo
      case Some(s) =>
        && s in sources
        && sources[s].enabled
        && tenant == Some(sources[s].tenant)
        && InWindow(observedAt)
        && InWindow(sources[s].lastSyncAt)
    }

    predicate UsableNode(id: NodeId) {
      && id in nodes
      && (tenant.None? || nodes[id].tenant.None? || nodes[id].tenant == tenant)
      && Fresh(nodes[id].sourceId, nodes[id].tenant, nodes[id].observedAt)
    }

    /** The source asserts some edge that this reading of authority cannot express. */
    predicate Unsupported(sourceId: SourceId) {
      exists e :: e in edges && e.sourceId == Some(sourceId) && e.attributes.Withholds()
    }

    predicate UsableEdge(e: AccessEdge) {
      && e.relation in TRAVERSABLE
      && UsableNode(e.src)
      && UsableNode(e.dst)
      && Fresh(e.sourceId, e.tenant, e.observedAt)
      && (e.sourceId.Some? ==> !Unsupported(e.sourceId.value))
      && !e.attributes.Withholds()
    }
  }

  // ------------------------------------------------------------------ Authority, declaratively

  function End(start: NodeId, t: Trail): NodeId {
    if t == [] then start else t[|t| - 1].dst
  }

  function OnPath(start: NodeId, t: Trail): set<NodeId> {
    {start} + set e | e in t :: e.dst
  }

  /** Consecutive edges of `edges` from `start` that visit no node twice. */
  ghost predicate SimpleTrail(edges: seq<AccessEdge>, start: NodeId, t: Trail) {
    && (forall i :: 0 <= i < |t| ==> t[i] in edges)
    && (forall i :: 0 <= i < |t| ==> t[i].src == End(start, t[..i]))
    && (forall i :: 0 <= i < |t| ==> t[i].dst != start)
    && (forall i, j :: 0 <= i < j < |t| ==> t[i].dst != t[j].dst)
  }

  /** `matches(action, pattern)` is the shell-style match of the program. */
  predicate Permits(matches: (string, string) -> bool, action: string, t: Trail) {
    exists e, a :: e in t && a in e.attributes.actions && e.relation == "role_allows" && matches(action, a)
  }

  ghost predicate Authorised(
    edges: seq<AccessEdge>, start: NodeId, target: NodeId,
    matches: (string, string) -> bool, action: string, t: Trail)
  {
    && SimpleTrail(edges, start, t)
    && End(start, t) == target
    && |t| <= MAX_DEPTH
    && Permits(matches, action, t)
  }

  // ------------------------------------------------------------------ The order of exploration

  /** The edges leaving `node`, in table order. */
  function Leaving(edges: seq<AccessEdge>, node: NodeId): seq<AccessEdge> {
    if edges == [] then []
    else
      var last := edges[|edges| - 1];
      Leaving(edges[..|edges| - 1], node) + if last.src == node then [last] else []
  }

  function Extensions(start: NodeId, t: Trail, outs: seq<AccessEdge>): seq<Trail> {
    if outs == [] then []
    else
      var last := outs[|outs| - 1];
      Extensions(start, t, outs[..|outs| - 1]) + if last.dst in OnPath(start, t) then [] else [t + [last]]
  }

  function Children(edges: seq<AccessEdge>, start: NodeId, target: NodeId, t: Trail): seq<Trail> {
    if End(start, t) == target || |t| >= MAX_DEPTH then []
    else Extensions(start, t, Leaving(edges, End(start, t)))
  }

  function AllChildren(edges: seq<AccessEdge>, start: NodeId, target: NodeId, ts: seq<Trail>): seq<Trail> {
    if ts == [] then []
    else AllChildren(edges, start, target, ts[..|ts| - 1]) + Children(edges, start, target, ts[|ts| - 1])
  }

  /** The trails of length `n`, in the order a first-in first-out queue meets them. */
  function Level(edges: seq<AccessEdge>, start: NodeId, target: NodeId, n: nat): seq<Trail> {
    if n == 0 then [[]] else AllChildren(edges, start, target, Level(edges, start, target, n - 1))
  }

  /** The first `n` levels, one after the other. */
  function Levels(edges: seq<AccessEdge>, start: NodeId, target: NodeId, n: nat): seq<Trail> {
    if n == 0 then [] else Levels(edges, start, target, n - 1) + Level(edges, start, target, n - 1)
  }

  function Exploration(edges: seq<AccessEdge>, start: NodeId, target: NodeId): seq<Trail> {
    Levels(edges, start, target, MAX_DEPTH + 1)
  }

  predicate Proves(start: NodeId, target: NodeId, matches: (string, string) -> bool, action: string, t: Trail) {
    End(start, t) == target && Permits(matches, action, t)
  }

  function FirstProof(
    start: NodeId, target: NodeId, matches: (string, string) -> bool, action: string, ts: seq<Trail>): Option<Trail>
  {
    if ts == [] then None
    else
      var earlier := FirstProof(start, target, matches, action, ts[..|ts| - 1]);
      if earlier.Some? then earlier
      else if Proves(start, target, matches, action, ts[|ts| - 1]) then Some(ts[|ts| - 1])
      else None
  }

  /** The answer of the search: the first proof among the first 10000 trails explored. */
  function Search(
    edges: seq<AccessEdge>, start: NodeId, target: NodeId,
    matches: (string, string) -> bool, action: string): Option<Trail>
  {
    FirstProof(start, target, matches, action, Examined(edges, start, target))
  }

  // ------------------------------------------------------------------ The order is exhaustive

  lemma {:induction false} LeavingIsExact(edges: seq<AccessEdge>, node: NodeId, e: AccessEdge)
    ensures e in Leaving(edges, node) <==> e in edges && e.src == node
  {
    if edges != [] {
      LeavingIsExact(edges[..|edges| - 1], node, e);
      assert edges == edges[..|edges| - 1] + [edges[|edges| - 1]];
    }
  }

  lemma {:induction false} ExtensionsIsExact(start: NodeId, t: Trail, outs: seq<AccessEdge>, u: Trail)
    ensures u in Extensions(start, t, outs) <==>
            |u| == |t| + 1 && u[..|t|] == t && u[|t|] in outs && u[|t|].dst !in OnPath(start, t)
  {
    if outs != [] {
      ExtensionsIsExact(start, t, outs[..|outs| - 1], u);
      assert outs == outs[..|outs| - 1] + [outs[|outs| - 1]];
      if |u| == |t| + 1 && u[..|t|] == t {
        assert u == t + [u[|t|]];
      }
    }
  }

  lemma {:induction false} AllChildrenIsExact(
    edges: seq<AccessEdge>, start: NodeId, target: NodeId, ts: seq<Trail>, u: Trail)
    ensures u in AllChildren(edges, start, target, ts) <==> exists t :: t in ts && u in Children(edges, start, target, t)
  {
    if ts != [] {
      AllChildrenIsExact(edges, start, target, ts[..|ts| - 1], u);
      assert ts == ts[..|ts| - 1] + [ts[|ts| - 1]];
    }
  }

  lemma SimplePrefix(edges: seq<AccessEdge>, start: NodeId, t: Trail, k: nat)
    requires SimpleTrail(edges, start, t) && k <= |t|
    ensures SimpleTrail(edges, start, t[..k])
  {
  }

  lemma SimpleExtension(edges: seq<AccessEdge>, start: NodeId, t: Trail, e: AccessEdge)
    ensures SimpleTrail(edges, start, t + [e]) <==>
            SimpleTrail(edges, start, t) && e in edges && e.src == End(start, t) && e.dst !in OnPath(start, t)
  {
    var u := t + [e];
    assert u[..|t|] == t && u[|t|] == e;
    if SimpleTrail(edges, start, u) {
      SimplePrefix(edges, start, u, |t|);
      forall d | d in t ensures d.dst != e.dst {
        var i :| 0 <= i < |t| && t[i] == d;
        assert u[i] == d;
      }
    }
    if SimpleTrail(edges, start, t) && e in edges && e.src == End(start, t) && e.dst !in OnPath(start, t) {
      forall i | 0 <= i < |u| ensures u[i] in edges && u[i].src == End(start, u[..i]) && u[i].dst != start {
        assert i < |t| ==> u[..i] == t[..i];
      }
      forall i, j | 0 <= i < j < |u| ensures u[i].dst != u[j].dst {
        assert u[i] in t;
      }
    }
  }

  /** A trail passes the target only at its end. */
  ghost predicate StopsAt(start: NodeId, target: NodeId, t: Trail) {
    forall k :: 0 <= k < |t| ==> End(start, t[..k]) != target
  }

  lemma StopsAtExtension(start: NodeId, target: NodeId, t: Trail, e: AccessEdge)
    ensures StopsAt(start, target, t + [e]) <==> StopsAt(start, target, t) && End(start, t) != target
  {
    var u := t + [e];
    assert forall k :: 0 <= k <= |t| ==> u[..k] == t[..k];
    assert u[..|t|] == t;
  }

  ghost predicate Extends(edges: seq<AccessEdge>, start: NodeId, target: NodeId, p: Trail, e: AccessEdge) {
    End(start, p) != target && e in edges && e.src == End(start, p) && e.dst !in OnPath(start, p)
  }

  /** A simple trail that stops at the target, built edge by edge as the search builds it. */
  ghost predicate Walk(edges: seq<AccessEdge>, start: NodeId, target: NodeId, t: Trail) {
    t != [] ==> Walk(edges, start, target, t[..|t| - 1]) && Extends(edges, start, target, t[..|t| - 1], t[|t| - 1])
  }

  lemma {:induction false} WalkIsSimple(edges: seq<AccessEdge>, start: NodeId, target: NodeId, t: Trail)
    ensures Walk(edges, start, target, t) <==> SimpleTrail(edges, start, t) && StopsAt(start, target, t)
  {
    if t != [] {
      var p, e := t[..|t| - 1], t[|t| - 1];
      WalkIsSimple(edges, start, target, p);
      SimpleExtension(edges, start, p, e);
      StopsAtExtension(start, target, p, e);
      assert t == p + [e];
    }
  }

  lemma ChildrenExtend(edges: seq<AccessEdge>, start: NodeId, target: NodeId, p: Trail, t: Trail)
    ensures t in Children(edges, start, target, p) <==>
            |t| == |p| + 1 <= MAX_DEPTH && t[..|p|] == p && Extends(edges, start, target, p, t[|p|])
  {
    ExtensionsIsExact(start, p, Leaving(edges, End(start, p)), t);
    if |t| == |p| + 1 {
      LeavingIsExact(edges, End(start, p), t[|p|]);
    }
    hide Leaving, Extensions, OnPath, End;
  }

  /** The children of a walk are exactly the walks one edge longer, up to the depth limit. */
  lemma ChildrenAreWalks(edges: seq<AccessEdge>, start: NodeId, target: NodeId, p: Trail, t: Trail)
    requires Walk(edges, start, target, p)
    ensures t in Children(edges, start, target, p) <==>
            Walk(edges, start, target, t) && |t| == |p| + 1 <= MAX_DEPTH && t[..|p|] == p
  {
    hide Children, Extends;
    ChildrenExtend(edges, start, target, p, t);
  }

  /** Level `n` holds exactly the walks of length `n`. */
  lemma {:induction false} LevelIsExact(edges: seq<AccessEdge>, start: NodeId, target: NodeId, n: nat, t: Trail)
    ensures t in Level(edges, start, target, n) <==> Walk(edges, start, target, t) && |t| == n && n <= MAX_DEPTH
  {
    hide AllChildren, Children, OnPath;
    if n > 0 {
      var before := Level(edges, start, target, n - 1);
      AllChildrenIsExact(edges, start, target, before, t);
      if t in Level(edges, start, target, n) {
        var p :| p in before && t in Children(edges, start, target, p);
        LevelIsExact(edges, start, target, n - 1, p);
        ChildrenAreWalks(edges, start, target, p, t);
      }
      if Walk(edges, start, target, t) && |t| == n && n <= MAX_DEPTH {
        LevelIsExact(edges, start, target, n - 1, t[..n - 1]);
        ChildrenAreWalks(edges, start, target, t[..n - 1], t);
      }
    }
  }

  lemma {:induction false} LevelsIsExact(edges: seq<AccessEdge>, start: NodeId, target: NodeId, n: nat, t: Trail)
    ensures t in Levels(edges, start, target, n) <==> Walk(edges, start, target, t) && |t| < n && |t| <= MAX_DEPTH
  {
    hide AllChildren, Walk;
    if n > 0 {
      LevelsIsExact(edges, start, target, n - 1, t);
      LevelIsExact(edges, start, target, n - 1, t);
    }
  }

  /** Lengths never decrease along the order of exploration. */
  lemma {:induction false} LevelsAreSorted(
    edges: seq<AccessEdge>, start: NodeId, target: NodeId, n: nat, i: nat, j: nat)
    requires i <= j < |Levels(edges, start, target, n)|
    ensures |Levels(edges, start, target, n)[i]| <= |Levels(edges, start, target, n)[j]|
  {
    hide AllChildren, Walk;
    var before, level := Levels(edges, start, target, n - 1), Level(edges, start, target, n - 1);
    if j < |before| {
      LevelsAreSorted(edges, start, target, n - 1, i, j);
    } else {
      LevelIsExact(edges, start, target, n - 1, level[j - |before|]);
      if i < |before| {
        LevelsIsExact(edges, start, target, n - 1, before[i]);
      } else {
        LevelIsExact(edges, start, target, n - 1, level[i - |before|]);
      }
    }
  }

  lemma {:induction false} NoProofIsNone(
    start: NodeId, target: NodeId, matches: (string, string) -> bool, action: string, ts: seq<Trail>)
    ensures FirstProof(start, target, matches, action, ts).None? <==>
            forall t :: t in ts ==> !Proves(start, target, matches, action, t)
  {
    hide Proves;
    if ts != [] {
      NoProofIsNone(start, target, matches, action, ts[..|ts| - 1]);
      assert ts == ts[..|ts| - 1] + [ts[|ts| - 1]];
    }
  }

  /** The rank of the first proof: nothing before it is a proof. */
  lemma {:induction false} FirstProofRank(
    start: NodeId, target: NodeId, matches: (string, string) -> bool, action: string, ts: seq<Trail>) returns (k: nat)
    requires FirstProof(start, target, matches, action, ts).Some?
    ensures k < |ts| && FirstProof(start, target, matches, action, ts) == Some(ts[k])
    ensures Proves(start, target, matches, action, ts[k])
    ensures forall j :: 0 <= j < k ==> !Proves(start, target, matches, action, ts[j])
  {
    hide Proves;
    var front := ts[..|ts| - 1];
    if FirstProof(start, target, matches, action, front).Some? {
      k := FirstProofRank(start, target, matches, action, front);
    } else {
      k := |ts| - 1;
      NoProofIsNone(start, target, matches, action, front);
      forall j | 0 <= j < k ensures !Proves(start, target, matches, action, ts[j]) {
        assert ts[j] == front[j] && front[j] in front;
      }
    }
  }

  /** Every authorised trail is explored somewhere, at the rank of its length. */
  lemma AuthorisedIsExplored(
    edges: seq<AccessEdge>, start: NodeId, target: NodeId,
    matches: (string, string) -> bool, action: string, t: Trail)
    requires start != target
    ensures Authorised(edges, start, target, matches, action, t) <==>
            t in Exploration(edges, start, target) && Proves(start, target, matches, action, t)
  {
    LevelsIsExact(edges, start, target, MAX_DEPTH + 1, t);
    WalkIsSimple(edges, start, target, t);
    if SimpleTrail(edges, start, t) && End(start, t) == target {
      forall k | 0 <= k < |t| ensures End(start, t[..k]) != target {
        if k > 0 {
          assert t[..k][k - 1] == t[k - 1];
        }
      }
    }
  }

  /** The trails the search looks at before its bound stops it. */
  function Examined(edges: seq<AccessEdge>, start: NodeId, target: NodeId): seq<Trail> {
    var all := Exploration(edges, start, target);
    if |all| <= MAX_EXPANSIONS then all else all[..MAX_EXPANSIONS]
  }

  /** Soundness: an answer is an authorised trail, and none is shorter. */
  lemma SearchIsSound(
    edges: seq<AccessEdge>, start: NodeId, target: NodeId, matches: (string, string) -> bool, action: string)
    requires start != target
    ensures var r := Search(edges, start, target, matches, action);
            r.Some? ==>
              && Authorised(edges, start, target, matches, action, r.value)
              && forall t :: Authorised(edges, start, target, matches, action, t) ==> |r.value| <= |t|
  {
    hide Authorised, Proves, Levels, FirstProof;
    var all, r := Exploration(edges, start, target), Search(edges, start, target, matches, action);
    if r.Some? {
      var k := FirstProofRank(start, target, matches, action, Examined(edges, start, target));
      assert forall j :: 0 <= j <= k ==> all[j] == Examined(edges, start, target)[j];
      AuthorisedIsExplored(edges, start, target, matches, action, r.value);
      forall t | Authorised(edges, start, target, matches, action, t) ensures |all[k]| <= |t| {
        AuthorisedIsExplored(edges, start, target, matches, action, t);
        var j :| 0 <= j < |all| && all[j] == t;
        LevelsAreSorted(edges, start, target, MAX_DEPTH + 1, k, j);
      }
    }
  }

  /** Completeness: no answer means no authority, unless the search was cut off, in which case
      every authorised trail lies beyond the 10000 it examined. */
  lemma SearchIsComplete(
    edges: seq<AccessEdge>, start: NodeId, target: NodeId, matches: (string, string) -> bool, action: string)
    requires start != target
    ensures var examined := Examined(edges, start, target);
            Search(edges, start, target, matches, action).None? <==>
              forall t :: Authorised(edges, start, target, matches, action, t) ==>
                |examined| == MAX_EXPANSIONS && t !in examined
  {
    hide Authorised, Proves, Levels, FirstProof;
    NoProofIsNone(start, target, matches, action, Examined(edges, start, target));
    forall t ensures Authorised(edges, start, target, matches, action, t) <==>
                     t in Exploration(edges, start, target) && Proves(start, target, matches, action, t)
    {
      AuthorisedIsExplored(edges, start, target, matches, action, t);
    }
    hide Exploration;
  }

  // ------------------------------------------------------------------ The search loop

  datatype AccessPath = AccessPath(hops: Trail, allowedActions: set<string>)

  function AllowedActions(t: Trail): set<string> {
    set e, a | e in t && e.relation == "role_allows" && a in e.attributes.actions :: a
  }

  /** The usable edges of the query, in table order. */
  function UsableEdges(q: Query, edges: seq<AccessEdge>): seq<AccessEdge> {
    if edges == [] then []
    else
      var last := edges[|edges| - 1];
      UsableEdges(q, edges[..|edges| - 1]) + if q.UsableEdge(last) then [last] else []
  }

  lemma {:induction false} UsableEdgesIsExact(q: Query, edges: seq<AccessEdge>, e: AccessEdge)
    ensures e in UsableEdges(q, edges) <==> e in edges && q.UsableEdge(e)
  {
    if edges != [] {
      UsableEdgesIsExact(q, edges[..|edges| - 1], e);
      assert edges == edges[..|edges| - 1] + [edges[|edges| - 1]];
    }
  }

  ghost predicate IsNamed(nodes: map<NodeId, AccessNode>, kind: string, name: string, id: NodeId) {
    id in nodes && nodes[id].kind == kind && nodes[id].name == name
  }

  ghost function NodeNamed(nodes: map<NodeId, AccessNode>, kind: string, name: string): Option<NodeId> {
    if id :| IsNamed(nodes, kind, name, id) then Some(id) else None
  }

  /** What a query answers: the search from the subject's node to the resource's node over usable edges. */
  ghost function Answer(
    q: Query, matches: (string, string) -> bool, subject: string, action: string, resource: string): Option<AccessPath>
  {
    var start, target := NodeNamed(q.nodes, "user", subject), NodeNamed(q.nodes, "asset", resource);
    if start.None? || target.None? || !q.UsableNode(start.value) || !q.UsableNode(target.value) then None
    else
      match Search(UsableEdges(q, q.edges), start.value, target.value, matches, action)
      case None => None
      case Some(t) => Some(AccessPath(t, AllowedActions(t)))
  }

  lemma {:induction false} FirstProofOfPrefix(
    start: NodeId, target: NodeId, matches: (string, string) -> bool, action: string, prefix: seq<Trail>, ts: seq<Trail>)
    requires prefix <= ts && FirstProof(start, target, matches, action, prefix).Some?
    ensures FirstProof(start, target, matches, action, ts) == FirstProof(start, target, matches, action, prefix)
  {
    hide Proves;
    if |prefix| < |ts| {
      FirstProofOfPrefix(start, target, matches, action, prefix, ts[..|ts| - 1]);
    } else {
      assert prefix == ts;
    }
  }

  /** All trails taken from the queue before the `i`-th one of level `n`. */
  ghost function Visited(edges: seq<AccessEdge>, start: NodeId, target: NodeId, n: nat, i: nat): seq<Trail>
    requires i <= |Level(edges, start, target, n)|
  {
    Levels(edges, start, target, n) + Level(edges, start, target, n)[..i]
  }

  /** The queue when the `i`-th trail of level `n` is next. */
  ghost function Pending(edges: seq<AccessEdge>, start: NodeId, target: NodeId, n: nat, i: nat): seq<Trail>
    requires i <= |Level(edges, start, target, n)|
  {
    Level(edges, start, target, n)[i..] + AllChildren(edges, start, target, Level(edges, start, target, n)[..i])
  }

  lemma {:induction false} VisitedIsPrefix(edges: seq<AccessEdge>, start: NodeId, target: NodeId, n: nat, i: nat, m: nat)
    requires n < m && i <= |Level(edges, start, target, n)|
    ensures Visited(edges, start, target, n, i) <= Levels(edges, start, target, m)
  {
    hide AllChildren;
    if n + 1 < m {
      VisitedIsPrefix(edges, start, target, n, i, m - 1);
    }
  }

  lemma {:induction false} NothingBeyond(edges: seq<AccessEdge>, start: NodeId, target: NodeId, n: nat, m: nat)
    requires n <= m && Level(edges, start, target, n) == []
    ensures Level(edges, start, target, m) == [] && Levels(edges, start, target, m) == Levels(edges, start, target, n)
    decreases m
  {
    if n < m {
      NothingBeyond(edges, start, target, n, m - 1);
    }
  }

  lemma BeginExploration(
    edges: seq<AccessEdge>, start: NodeId, target: NodeId, matches: (string, string) -> bool, action: string)
    ensures |Level(edges, start, target, 0)| == 1
    ensures Pending(edges, start, target, 0, 0) == [[]] && Visited(edges, start, target, 0, 0) == []
    ensures FirstProof(start, target, matches, action, []).None?
  {
  }

  /** When a level is used up, the queue is the next level. */
  lemma NextLevel(edges: seq<AccessEdge>, start: NodeId, target: NodeId, n: nat)
    requires Pending(edges, start, target, n, |Level(edges, start, target, n)|) != []
    ensures n + 1 <= MAX_DEPTH && Level(edges, start, target, n + 1) != []
    ensures Pending(edges, start, target, n + 1, 0) == Pending(edges, start, target, n, |Level(edges, start, target, n)|)
    ensures Visited(edges, start, target, n + 1, 0) == Visited(edges, start, target, n, |Level(edges, start, target, n)|)
  {
    hide AllChildren;
    var level, next := Level(edges, start, target, n), Level(edges, start, target, n + 1);
    AllChildrenOfNone(edges, start, target);
    assert level[..|level|] == level && level[|level|..] == [];
    assert next[..0] == [];
    LevelIsExact(edges, start, target, n + 1, next[0]);
  }

  lemma AllChildrenSnoc(edges: seq<AccessEdge>, start: NodeId, target: NodeId, ts: seq<Trail>, t: Trail)
    ensures AllChildren(edges, start, target, ts + [t]) == AllChildren(edges, start, target, ts) + Children(edges, start, target, t)
  {
    hide Children;
    assert (ts + [t])[..|ts|] == ts;
  }

  lemma AllChildrenOfNone(edges: seq<AccessEdge>, start: NodeId, target: NodeId)
    ensures AllChildren(edges, start, target, []) == []
  {
  }

  /** Taking the next trail from the queue puts its children at the end. */
  lemma VisitNext(
    edges: seq<AccessEdge>, start: NodeId, target: NodeId, matches: (string, string) -> bool, action: string, n: nat, i: nat)
    requires i < |Level(edges, start, target, n)|
    requires FirstProof(start, target, matches, action, Visited(edges, start, target, n, i)).None?
    ensures var t := Level(edges, start, target, n)[i];
            && Pending(edges, start, target, n, i) != []
            && Pending(edges, start, target, n, i)[0] == t
            && Pending(edges, start, target, n, i + 1) ==
               Pending(edges, start, target, n, i)[1..] + Children(edges, start, target, t)
            && Visited(edges, start, target, n, i + 1) == Visited(edges, start, target, n, i) + [t]
            && FirstProof(start, target, matches, action, Visited(edges, start, target, n, i + 1)) ==
               if Proves(start, target, matches, action, t) then Some(t) else None
  {
    hide *;
    var level, visited := Level(edges, start, target, n), Visited(edges, start, target, n, i);
    QueueStep(edges, start, target, n, i);
    VisitedStep(edges, start, target, n, i);
    FirstProofSnoc(start, target, matches, action, visited, level[i]);
  }

  lemma QueueStep(edges: seq<AccessEdge>, start: NodeId, target: NodeId, n: nat, i: nat)
    requires i < |Level(edges, start, target, n)|
    ensures Pending(edges, start, target, n, i) != [] && Pending(edges, start, target, n, i)[0] == Level(edges, start, target, n)[i]
    ensures Pending(edges, start, target, n, i + 1) ==
            Pending(edges, start, target, n, i)[1..] + Children(edges, start, target, Level(edges, start, target, n)[i])
  {
    hide Level, Children, AllChildren;
    var level := Level(edges, start, target, n);
    AllChildrenSnoc(edges, start, target, level[..i], level[i]);
    Turn(level, i, AllChildren(edges, start, target, level[..i]), Children(edges, start, target, level[i]));
  }

  lemma Turn(level: seq<Trail>, i: nat, behind: seq<Trail>, more: seq<Trail>)
    requires i < |level|
    ensures level[..i + 1] == level[..i] + [level[i]]
    ensures (level[i..] + behind)[1..] == level[i + 1..] + behind
    ensures (level[i..] + behind)[1..] + more == level[i + 1..] + (behind + more)
  {
  }

  lemma VisitedStep(edges: seq<AccessEdge>, start: NodeId, target: NodeId, n: nat, i: nat)
    requires i < |Level(edges, start, target, n)|
    ensures Visited(edges, start, target, n, i + 1) == Visited(edges, start, target, n, i) + [Level(edges, start, target, n)[i]]
  {
    hide Level, Levels;
    Turn(Level(edges, start, target, n), i, [], []);
  }

  lemma FirstProofSnoc(
    start: NodeId, target: NodeId, matches: (string, string) -> bool, action: string, ts: seq<Trail>, t: Trail)
    requires FirstProof(start, target, matches, action, ts).None?
    ensures FirstProof(start, target, matches, action, ts + [t]) == if Proves(start, target, matches, action, t) then Some(t) else None
  {
    hide Proves;
    assert (ts + [t])[..|ts|] == ts;
  }

  lemma SearchSucceeds(
    edges: seq<AccessEdge>, start: NodeId, target: NodeId, matches: (string, string) -> bool, action: string, n: nat, i: nat)
    requires n <= MAX_DEPTH && i <= |Level(edges, start, target, n)|
    requires |Visited(edges, start, target, n, i)| <= MAX_EXPANSIONS
    requires FirstProof(start, target, matches, action, Visited(edges, start, target, n, i)).Some?
    ensures Search(edges, start, target, matches, action) ==
            FirstProof(start, target, matches, action, Visited(edges, start, target, n, i))
  {
    hide Level, Levels, FirstProof;
    VisitedIsPrefix(edges, start, target, n, i, MAX_DEPTH + 1);
    FirstProofOfPrefix(start, target, matches, action, Visited(edges, start, target, n, i), Examined(edges, start, target));
  }

  lemma SearchIsCutOff(
    edges: seq<AccessEdge>, start: NodeId, target: NodeId, matches: (string, string) -> bool, action: string, n: nat, i: nat)
    requires n <= MAX_DEPTH && i < |Level(edges, start, target, n)|
    requires |Visited(edges, start, target, n, i)| == MAX_EXPANSIONS
    requires FirstProof(start, target, matches, action, Visited(edges, start, target, n, i)).None?
    ensures Search(edges, start, target, matches, action).None?
  {
    hide Level, Levels, FirstProof;
    VisitedIsPrefix(edges, start, target, n, i, MAX_DEPTH + 1);
    VisitedIsPrefix(edges, start, target, n, i + 1, MAX_DEPTH + 1);
    assert Examined(edges, start, target) == Visited(edges, start, target, n, i);
  }

  lemma SearchIsExhausted(
    edges: seq<AccessEdge>, start: NodeId, target: NodeId, matches: (string, string) -> bool, action: string, n: nat, i: nat)
    requires n <= MAX_DEPTH && i <= |Level(edges, start, target, n)|
    requires Pending(edges, start, target, n, i) == []
    requires |Visited(edges, start, target, n, i)| <= MAX_EXPANSIONS
    requires FirstProof(start, target, matches, action, Visited(edges, start, target, n, i)).None?
    ensures Search(edges, start, target, matches, action).None?
  {
    var level := Level(edges, start, target, n);
    assert level[..i] == level;
    assert Level(edges, start, target, n + 1) == [];
    assert Visited(edges, start, target, n, i) == Levels(edges, start, target, n + 1);
    hide AllChildren, FirstProof;
    NothingBeyond(edges, start, target, n + 1, MAX_DEPTH + 1);
  }

  method GetNode(nodes: map<NodeId, AccessNode>, kind: string, name: string) returns (r: Option<NodeId>)
    requires UniqueNames(nodes)
    ensures r == NodeNamed(nodes, kind, name)
    ensures match r
            case None => forall id :: id in nodes ==> !(nodes[id].kind == kind && nodes[id].name == name)
            case Some(id) => id in nodes && nodes[id].kind == kind && nodes[id].name == name
  {
    r := None;
    var rest := nodes.Keys;
    while rest != {}
      invariant rest <= nodes.Keys
      invariant r == None
      invariant forall id :: id in nodes && id !in rest ==> !IsNamed(nodes, kind, name, id)
      decreases rest
    {
      var id :| id in rest;
      rest := rest - {id};
      if nodes[id].kind == kind && nodes[id].name == name {
        assert IsNamed(nodes, kind, name, id);
        return Some(id);
      }
    }
  }

  lemma UsableEdgesAppend(q: Query, edges: seq<AccessEdge>, e: AccessEdge)
    ensures UsableEdges(q, edges + [e]) == UsableEdges(q, edges) + if q.UsableEdge(e) then [e] else []
  {
    assert (edges + [e])[..|edges|] == edges;
  }

  /** `out` lists the edges by the node they leave, in order. */
  ghost predicate Groups(out: map<NodeId, seq<AccessEdge>>, edges: seq<AccessEdge>) {
    forall x :: Leaving(edges, x) == if x in out then out[x] else []
  }

  lemma GroupsAppend(out: map<NodeId, seq<AccessEdge>>, edges: seq<AccessEdge>, e: AccessEdge)
    requires Groups(out, edges)
    ensures Groups(out[e.src := (if e.src in out then out[e.src] else []) + [e]], edges + [e])
  {
  }

  /** Groups the usable edges by the node they leave, keeping their order. */
  method OutEdges(q: Query) returns (out: map<NodeId, seq<AccessEdge>>)
    ensures Groups(out, UsableEdges(q, q.edges))
  {
    var nodes := set id | id in q.nodes && q.UsableNode(id);
    var unsupported := set e | e in q.edges && e.sourceId.Some? && e.attributes.Withholds() :: e.sourceId.value;
    out := map[];
    ghost var usable: seq<AccessEdge> := [];
    for i := 0 to |q.edges|
      invariant usable == UsableEdges(q, q.edges[..i])
      invariant Groups(out, usable)
    {
      var e := q.edges[i];
      assert q.edges[..i + 1] == q.edges[..i] + [e];
      UsableEdgesAppend(q, q.edges[..i], e);
      if && e.relation in TRAVERSABLE && e.src in nodes && e.dst in nodes
         && q.Fresh(e.sourceId, e.tenant, e.observedAt)
         && (e.sourceId.None? || e.sourceId.value !in unsupported)
         && !e.attributes.Withholds()
      {
        GroupsAppend(out, usable, e);
        usable := usable + [e];
        out := out[e.src := (if e.src in out then out[e.src] else []) + [e]];
      }
    }
    assert q.edges[..|q.edges|] == q.edges;
  }

  /** An entry of the queue: a node and the trail that reached it. */
  datatype Entry = Entry(node: NodeId, trail: Trail)

  ghost predicate Holds(queue: seq<Entry>, start: NodeId, ts: seq<Trail>) {
    |queue| == |ts| && forall k :: 0 <= k < |ts| ==> queue[k] == Entry(End(start, ts[k]), ts[k])
  }

  /** Appends to the queue one extension for each edge that leads off the trail. */
  method Enqueue(queue: seq<Entry>, start: NodeId, trail: Trail, outs: seq<AccessEdge>, ghost ts: seq<Trail>)
    returns (r: seq<Entry>)
    requires Holds(queue, start, ts)
    ensures Holds(r, start, ts + Extensions(start, trail, outs))
  {
    var onPath := {start} + set e | e in trail :: e.dst;
    r := queue;
    for i := 0 to |outs|
      invariant Holds(r, start, ts + Extensions(start, trail, outs[..i]))
    {
      assert outs[..i + 1][..i] == outs[..i];
      if outs[i].dst !in onPath {
        r := r + [Entry(outs[i].dst, trail + [outs[i]])];
      }
    }
    assert outs[..|outs|] == outs;
  }

  lemma PermitsByActions(matches: (string, string) -> bool, action: string, t: Trail)
    ensures Permits(matches, action, t) <==> exists a :: a in AllowedActions(t) && matches(action, a)
  {
  }

  /** The breadth-first loop over a first-in first-out queue, with its depth limit and expansion bound. */
  method Explore(
    ghost edges: seq<AccessEdge>, outEdges: map<NodeId, seq<AccessEdge>>, start: NodeId, target: NodeId,
    matches: (string, string) -> bool, action: string) returns (r: Option<Trail>)
    requires Groups(outEdges, edges)
    ensures r == Search(edges, start, target, matches, action)
  {
    hide Leaving, Extensions, Levels, FirstProof, Level, AllChildren, Pending, Visited, Permits, Search, AllowedActions;
    var queue := [Entry(start, [])];
    var expanded := 0;
    ghost var n, i := 0, 0;
    BeginExploration(edges, start, target, matches, action);
    while queue != []
      invariant n <= MAX_DEPTH && i <= |Level(edges, start, target, n)|
      invariant Holds(queue, start, Pending(edges, start, target, n, i))
      invariant expanded == |Visited(edges, start, target, n, i)| <= MAX_EXPANSIONS
      invariant FirstProof(start, target, matches, action, Visited(edges, start, target, n, i)).None?
      decreases MAX_EXPANSIONS - expanded
    {
      if i == |Level(edges, start, target, n)| {
        NextLevel(edges, start, target, n);
        n, i := n + 1, 0;
      }
      expanded := expanded + 1;
      if expanded > MAX_EXPANSIONS {
        SearchIsCutOff(edges, start, target, matches, action, n, i);
        return None;
      }
      var node, trail := queue[0].node, queue[0].trail;
      ghost var rest := Pending(edges, start, target, n, i)[1..];
      VisitNext(edges, start, target, matches, action, n, i);
      queue := queue[1..];
      i := i + 1;
      if node == target {
        var actions := AllowedActions(trail);
        PermitsByActions(matches, action, trail);
        if exists a :: a in actions && matches(action, a) {
          SearchSucceeds(edges, start, target, matches, action, n, i);
          return Some(trail);
        }
        continue;
      }
      if |trail| >= MAX_DEPTH {
        continue;
      }
      queue := Enqueue(queue, start, trail, if node in outEdges then outEdges[node] else [], rest);
    }
    SearchIsExhausted(edges, start, target, matches, action, n, i);
    return None;
  }

  method ResolvePath(
    q: Query, matches: (string, string) -> bool, subject: string, action: string, resource: string)
    returns (r: Option<AccessPath>)
    requires UniqueNames(q.nodes)
    ensures r == Answer(q, matches, subject, action, resource)
  {
    var user := GetNode(q.nodes, "user", subject);
    var asset := GetNode(q.nodes, "asset", resource);
    if user.None? || asset.None? || !q.UsableNode(user.value) || !q.UsableNode(asset.value) {
      return None;
    }
    var outEdges := OutEdges(q);
    hide NodeNamed, UsableEdges, Search;
    var t := Explore(UsableEdges(q, q.edges), outEdges, user.value, asset.value, matches, action);
    r := if t.None? then None else Some(AccessPath(t.value, AllowedActions(t.value)));
  }

  // ------------------------------------------------------------------ What an answer means

  /** A record may carry authority now: it belongs to no source, in a demonstration; or to an enabled source of its own
      tenant, where neither the record nor the source was last seen in the future or longer ago than the age limit. */
  ghost predicate Current(q: Query, sourceId: Option<SourceId>, tenant: Option<Tenant>, observedAt: Option<Time>) {
    match sourceId
    case None => q.demo
    case Some(s) =>
      && s in q.sources && q.sources[s].enabled && tenant == Some(q.sources[s].tenant)
      && observedAt.Some? && observedAt.value <= q.now <= observedAt.value + q.maxAge
      && q.sources[s].lastSyncAt.Some? && q.sources[s].lastSyncAt.value <= q.now <= q.sources[s].lastSyncAt.value + q.maxAge
  }

  /** The node is there, is current, and belongs to the tenant asked for or to none. */
  ghost predicate OpenNode(q: Query, n: NodeId) {
    && n in q.nodes && Current(q, q.nodes[n].sourceId, q.nodes[n].tenant, q.nodes[n].observedAt)
    && (q.tenant.Some? && q.nodes[n].tenant.Some? ==> q.nodes[n].tenant.value == q.tenant.value)
  }

  ghost predicate Unconditional(a: Attributes) {
    a.conditions == false && a.unsupported == false && a.effect == "allow"
  }

  /** A current edge of a relation that transfers authority, between open nodes, from a source all of whose edges are
      unconditional. */
  ghost predicate OpenEdge(q: Query, e: AccessEdge) {
    && e.relation in {"member_of", "assigned", "can_assume", "role_allows", "account_contains", "contains", "grants"}
    && OpenNode(q, e.src) && OpenNode(q, e.dst)
    && Current(q, e.sourceId, e.tenant, e.observedAt) && Unconditional(e.attributes)
    && (e.sourceId.Some? ==> forall f :: f in q.edges && f.sourceId == e.sourceId ==> Unconditional(f.attributes))
  }

  /** What the resolver may use, in terms of the tables. */
  lemma UsableNodeExactly(q: Query, n: NodeId)
    ensures q.UsableNode(n) <==> OpenNode(q, n)
  {
  }

  lemma UsableEdgeExactly(q: Query, e: AccessEdge)
    ensures q.UsableEdge(e) <==> OpenEdge(q, e)
  {
    hide OpenNode, Query.UsableNode;
    UsableNodeExactly(q, e.src);
    UsableNodeExactly(q, e.dst);
  }

  /** At most 8 open hops from the subject's node to the resource's node, no node twice, one of which is an edge that
      allows the action. */
  ghost predicate ProofOfAuthority(
    q: Query, matches: (string, string) -> bool, subject: string, action: string, resource: string, t: Trail)
  {
    var start, target := NodeNamed(q.nodes, "user", subject), NodeNamed(q.nodes, "asset", resource);
    && start.Some? && OpenNode(q, start.value) && q.nodes[start.value].kind == "user" && q.nodes[start.value].name == subject
    && target.Some? && OpenNode(q, target.value) && q.nodes[target.value].kind == "asset" && q.nodes[target.value].name == resource
    && SimpleTrail(q.edges, start.value, t) && End(start.value, t) == target.value && |t| <= 8
    && (exists e, a :: e in t && a in e.attributes.actions && e.relation == "role_allows" && matches(action, a))
    && (forall e :: e in t ==> OpenEdge(q, e))
  }

  lemma AuthorisedOverUsable(
    q: Query, start: NodeId, target: NodeId, matches: (string, string) -> bool, action: string, t: Trail)
    ensures Authorised(UsableEdges(q, q.edges), start, target, matches, action, t) <==>
            Authorised(q.edges, start, target, matches, action, t) && forall e :: e in t ==> q.UsableEdge(e)
  {
    forall e ensures e in UsableEdges(q, q.edges) <==> e in q.edges && q.UsableEdge(e) {
      UsableEdgesIsExact(q, q.edges, e);
    }
    hide UsableEdges, Query.UsableEdge, Permits;
    assert forall e :: e in t ==> exists i :: 0 <= i < |t| && t[i] == e;
  }

  /** The trails examined before the expansion bound stops the search; all of them if it never does. */
  ghost function ExaminedFor(q: Query, subject: string, resource: string): seq<Trail> {
    var start, target := NodeNamed(q.nodes, "user", subject), NodeNamed(q.nodes, "asset", resource);
    if start.None? || target.None? then [] else Examined(UsableEdges(q, q.edges), start.value, target.value)
  }

  /** The search was cut off: it examined its full allowance of trails. */
  ghost predicate CutOff(q: Query, subject: string, resource: string) {
    |ExaminedFor(q, subject, resource)| == 10000
  }

  lemma ProofsAreAuthorised(
    q: Query, matches: (string, string) -> bool, subject: string, action: string, resource: string,
    start: NodeId, target: NodeId)
    requires NodeNamed(q.nodes, "user", subject) == Some(start) && q.UsableNode(start)
    requires NodeNamed(q.nodes, "asset", resource) == Some(target) && q.UsableNode(target)
    ensures start != target
    ensures forall t :: Authorised(UsableEdges(q, q.edges), start, target, matches, action, t) <==>
                        ProofOfAuthority(q, matches, subject, action, resource, t)
  {
    hide Query.UsableNode, OpenNode;
    UsableNodeExactly(q, start);
    UsableNodeExactly(q, target);
    forall t ensures Authorised(UsableEdges(q, q.edges), start, target, matches, action, t) <==>
                     ProofOfAuthority(q, matches, subject, action, resource, t)
    {
      hide UsableEdges, Query.UsableEdge, OpenEdge, SimpleTrail, End;
      AuthorisedOverUsable(q, start, target, matches, action, t);
      forall e ensures q.UsableEdge(e) <==> OpenEdge(q, e) {
        UsableEdgeExactly(q, e);
      }
    }
  }

  /** An answer is a shortest proof of authority. */
  lemma AnswerIsSound(
    q: Query, matches: (string, string) -> bool, subject: string, action: string, resource: string)
    ensures var r := Answer(q, matches, subject, action, resource);
            r.Some? ==>
              && ProofOfAuthority(q, matches, subject, action, resource, r.value.hops)
              && (forall a :: a in r.value.allowedActions <==>
                    exists e :: e in r.value.hops && e.relation == "role_allows" && a in e.attributes.actions)
              && forall t :: ProofOfAuthority(q, matches, subject, action, resource, t) ==> |r.value.hops| <= |t|
  {
    hide Authorised, ProofOfAuthority, NodeNamed, UsableEdges, Search, Query.UsableNode;
    var from, to := NodeNamed(q.nodes, "user", subject), NodeNamed(q.nodes, "asset", resource);
    if from.Some? && to.Some? && q.UsableNode(from.value) && q.UsableNode(to.value) {
      ProofsAreAuthorised(q, matches, subject, action, resource, from.value, to.value);
      SearchIsSound(UsableEdges(q, q.edges), from.value, to.value, matches, action);
    }
  }

  /** No answer means there is no proof of authority, unless the search was cut off before it. */
  lemma AnswerIsComplete(
    q: Query, matches: (string, string) -> bool, subject: string, action: string, resource: string)
    ensures Answer(q, matches, subject, action, resource).None? <==>
              forall t :: ProofOfAuthority(q, matches, subject, action, resource, t) ==>
                CutOff(q, subject, resource) && t !in ExaminedFor(q, subject, resource)
  {
    hide Authorised, NodeNamed, UsableEdges, Search, AllowedActions, Query.UsableNode, Examined, Query.UsableEdge, OpenNode, OpenEdge;
    var from, to := NodeNamed(q.nodes, "user", subject), NodeNamed(q.nodes, "asset", resource);
    if from.Some? && to.Some? {
      UsableNodeExactly(q, from.value);
      UsableNodeExactly(q, to.value);
    }
    if from.Some? && to.Some? && q.UsableNode(from.value) && q.UsableNode(to.value) {
      ProofsAreAuthorised(q, matches, subject, action, resource, from.value, to.value);
      SearchIsComplete(UsableEdges(q, q.edges), from.value, to.value, matches, action);
    }
  }
}
