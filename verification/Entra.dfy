/** The directory collector: paginated reads that end, and scans closed under reference. */
module Entra {
  import opened Wrappers
  import opened Contracts

  // ------------------------------------------------------------------ Pagination

  datatype Url = Url(scheme: string, host: string, path: string, query: string, fragment: string)

  const HOST := "graph.microsoft.com"

  /** The target stays on the service and on the resource asked for. */
  predicate Safe(url: Url, path: string) {
    url.scheme == "https" && url.host == HOST && url.path == path && url.fragment == ""
  }

  /** A target as it is written. */
  type Text = string

  /** A cursor in an answer; an absent one and an empty one both end the walk. */
  datatype Link = NoLink | LinkTo(target: Text) | BadLink

  /** The body of a successful answer. */
  datatype Body<T> = Oversized | NotAPage | Rows(rows: seq<T>, next: Link)

  datatype Response<T> = Response(status: int, body: Body<T>)

  datatype PageError = UnsafeTarget | LoopOrLimit | CollectionFailed | PageTooLarge | IncompletePage | InvalidCursor

  const ATTEMPTS := 4

  predicate Retryable(status: int) {
    status == 429 || status == 503
  }

  /** The request for a page starts at number `at` and is answered at number `a`, the fourth at the latest, all answers
      before being throttled ones. */
  ghost predicate AnsweredAt<T>(server: nat -> Response<T>, at: nat, a: nat) {
    && at <= a < at + 4 && server(a).status == 200
    && forall i: nat :: at <= i < a ==> server(i).status == 429 || server(i).status == 503
  }

  /** One page: throttled answers are retried, at most `ATTEMPTS` requests in all. `server(i)` is the answer to the
      request number `i`. */
  method Fetch<T>(server: nat -> Response<T>, at: nat) returns (r: Result<Body<T>, PageError>, next: nat)
    ensures at < next <= at + 4
    ensures forall a: nat :: AnsweredAt(server, at, a) <==> a == next - 1 && server(a).status == 200
    ensures match r
            case Success(body) => server(next - 1).status == 200 && body == server(next - 1).body && !body.Oversized?
            case Failure(PageTooLarge) => server(next - 1).status == 200 && server(next - 1).body.Oversized?
            case Failure(e) => e == CollectionFailed && server(next - 1).status != 200
  {
    next := at;
    var attempt := 0;
    while true
      invariant attempt < ATTEMPTS && next == at + attempt
      invariant forall i :: at <= i < next ==> Retryable(server(i).status)
      decreases ATTEMPTS - attempt
    {
      var response := server(next);
      next := next + 1;
      if Retryable(response.status) && attempt < ATTEMPTS - 1 {
        attempt := attempt + 1;
        continue;
      }
      if response.status != 200 {
        return Failure(CollectionFailed), next;
      }
      if response.body.Oversized? {
        return Failure(PageTooLarge), next;
      }
      return Success(response.body), next;
    }
  }

  ghost predicate IsPage<T>(response: Response<T>, rows: seq<T>, next: Link) {
    response.status == 200 && response.body == Rows(rows, next)
  }

  /** The target is on the service, on the same resource, and names no part of it. */
  ghost predicate OnService(url: Url, path: string) {
    url.scheme == "https" && url.host == "graph.microsoft.com" && url.path == path && |url.fragment| == 0
  }

  lemma SafeExactly(url: Url, path: string)
    ensures Safe(url, path) <==> OnService(url, path)
  {
  }

  /** A target, the number of the request that was answered with its page, and the page. */
  datatype Visit<T> = Visit(target: Text, answer: nat, rows: seq<T>)

  /** The number of the request that visit `i` starts with. */
  ghost function From<T>(at: nat, visits: seq<Visit<T>>, i: nat): nat
    requires i <= |visits|
  {
    if i == 0 then at else visits[i - 1].answer + 1
  }

  /** Where visit `i` leads: to the next target, or, from the last page, to `last`. */
  ghost function Cursor<T>(visits: seq<Visit<T>>, i: nat, last: Link): Link {
    if i + 1 < |visits| then LinkTo(visits[i + 1].target) else last
  }

  /** A target on the service, requested from number `from` on, and answered by this page, which leads on to `next`. */
  ghost predicate GoodPage<T>(server: nat -> Response<T>, split: Text -> Url, path: string, from: nat, v: Visit<T>, next: Link) {
    OnService(split(v.target), path) && AnsweredAt(server, from, v.answer) && IsPage(server(v.answer), v.rows, next)
  }

  /** Visit `i` starts where the one before was answered, and leads to the next. */
  ghost predicate Follows<T>(
    server: nat -> Response<T>, split: Text -> Url, path: string, at: nat, visits: seq<Visit<T>>, last: Link, i: nat)
  {
    i < |visits| && GoodPage(server, split, path, From(at, visits, i), visits[i], Cursor(visits, i, last))
  }

  lemma FollowsStill<T>(
    server: nat -> Response<T>, split: Text -> Url, path: string, at: nat, visits: seq<Visit<T>>, v: Visit<T>, last: Link, i: nat)
    requires Follows(server, split, path, at, visits, LinkTo(v.target), i)
    ensures Follows(server, split, path, at, visits + [v], last, i)
  {
    hide GoodPage;
    var more := visits + [v];
    assert From(at, more, i) == From(at, visits, i) && more[i] == visits[i];
    assert Cursor(more, i, last) == Cursor(visits, i, LinkTo(v.target));
  }

  lemma FollowsLast<T>(server: nat -> Response<T>, split: Text -> Url, path: string, at: nat, visits: seq<Visit<T>>, v: Visit<T>, last: Link)
    requires GoodPage(server, split, path, From(at, visits, |visits|), v, last)
    ensures Follows(server, split, path, at, visits + [v], last, |visits|)
  {
    hide GoodPage;
    assert From(at, visits + [v], |visits|) == From(at, visits, |visits|);
  }

  /** Each visit follows the one before, no two have the same target, and the last page leads to `last`. */
  ghost predicate Chain<T>(server: nat -> Response<T>, split: Text -> Url, path: string, at: nat, visits: seq<Visit<T>>, last: Link) {
    && (forall i: nat :: i < |visits| ==> Follows(server, split, path, at, visits, last, i))
    && (forall i, j :: 0 <= i < j < |visits| ==> visits[i].target != visits[j].target)
  }

  lemma ChainSnoc<T>(
    server: nat -> Response<T>, split: Text -> Url, path: string, at: nat, visits: seq<Visit<T>>, v: Visit<T>, last: Link)
    requires Chain(server, split, path, at, visits, LinkTo(v.target)) && GoodPage(server, split, path, From(at, visits, |visits|), v, last)
    requires forall i :: 0 <= i < |visits| ==> visits[i].target != v.target
    ensures Chain(server, split, path, at, visits + [v], last)
  {
    hide GoodPage, Follows;
    FollowsLast(server, split, path, at, visits, v, last);
    forall i: nat | i < |visits| ensures Follows(server, split, path, at, visits + [v], last, i) {
      FollowsStill(server, split, path, at, visits, v, last, i);
    }
  }

  ghost predicate Distinct(split: Text -> Url, urls: seq<Text>, path: string) {
    && (forall u :: u in urls ==> OnService(split(u), path))
    && (forall i, j :: 0 <= i < j < |urls| ==> urls[i] != urls[j])
  }

  /** At most `maxPages` visits lead from the first target to an answer without a cursor. */
  ghost predicate IsWalk<T>(
    server: nat -> Response<T>, split: Text -> Url, first: Text, at: nat, maxPages: nat, visits: seq<Visit<T>>)
  {
    0 < |visits| <= maxPages && visits[0].target == first && Chain(server, split, split(first).path, at, visits, NoLink)
  }

  /** The answers make up a walk. */
  ghost predicate Walkable<T(!new)>(server: nat -> Response<T>, split: Text -> Url, first: Text, at: nat, maxPages: nat) {
    exists walk :: IsWalk(server, split, first, at, maxPages, walk)
  }

  /** A request has one answer. */
  lemma SamePage<T>(
    server: nat -> Response<T>, split: Text -> Url, path: string, from: nat, v: Visit<T>, next: Link, w: Visit<T>, after: Link)
    requires GoodPage(server, split, path, from, v, next) && GoodPage(server, split, path, from, w, after) && v.target == w.target
    ensures v == w && next == after
  {
  }

  lemma SameVisit<T>(
    server: nat -> Response<T>, split: Text -> Url, path: string, at: nat, walk: seq<Visit<T>>, made: seq<Visit<T>>, url: Text, i: nat)
    requires Follows(server, split, path, at, made, LinkTo(url), i) && Follows(server, split, path, at, walk, NoLink, i)
    requires made[..i] == walk[..i] && made[i].target == walk[i].target
    ensures made[i] == walk[i] && i + 1 < |walk| && walk[i + 1].target == if i + 1 < |made| then made[i + 1].target else url
  {
    hide GoodPage;
    assert i > 0 ==> made[..i][i - 1] == walk[..i][i - 1];
    SamePage(server, split, path, From(at, made, i), made[i], Cursor(made, i, LinkTo(url)), walk[i], Cursor(walk, i, NoLink));
  }

  /** A walk begins like every part of one that was made so far. */
  lemma {:induction false} WalkBegins<T>(
    server: nat -> Response<T>, split: Text -> Url, first: Text, at: nat, maxPages: nat, walk: seq<Visit<T>>, made: seq<Visit<T>>, url: Text, n: nat)
    requires IsWalk(server, split, first, at, maxPages, walk)
    requires Chain(server, split, split(first).path, at, made, LinkTo(url)) && (if made == [] then url else made[0].target) == first
    requires n <= |made|
    ensures n < |walk| && made[..n] == walk[..n] && walk[n].target == if n < |made| then made[n].target else url
  {
    hide GoodPage, Follows;
    if n > 0 {
      var i := n - 1;
      WalkBegins(server, split, first, at, maxPages, walk, made, url, i);
      SameVisit(server, split, split(first).path, at, walk, made, url, i);
      assert made[..n] == made[..i] + [made[i]] && walk[..n] == walk[..i] + [walk[i]];
    }
  }

  lemma NextVisit<T>(server: nat -> Response<T>, split: Text -> Url, path: string, at: nat, walk: seq<Visit<T>>, made: seq<Visit<T>>)
    requires made <= walk && |made| < |walk| && Follows(server, split, path, at, walk, NoLink, |made|)
    ensures var n := |made|; GoodPage(server, split, path, From(at, made, n), walk[n], Cursor(walk, n, NoLink))
  {
    hide GoodPage;
    assert From(at, walk, |made|) == From(at, made, |made|);
  }

  /** What every walk does next: a target that is safe and new, within the allowance, and answered by a good page. */
  lemma WalkGoesOn<T>(
    server: nat -> Response<T>, split: Text -> Url, first: Text, at: nat, maxPages: nat, walk: seq<Visit<T>>, made: seq<Visit<T>>, url: Text)
    requires IsWalk(server, split, first, at, maxPages, walk)
    requires Chain(server, split, split(first).path, at, made, LinkTo(url)) && (if made == [] then url else made[0].target) == first
    ensures |made| < maxPages && forall i :: 0 <= i < |made| ==> made[i].target != url
    ensures exists v: Visit<T>, next: Link :: v.target == url && !next.BadLink? &&
                              GoodPage(server, split, split(first).path, From(at, made, |made|), v, next)
  {
    hide GoodPage, Follows;
    var n := |made|;
    WalkBegins(server, split, first, at, maxPages, walk, made, url, n);
    assert made[..n] == made == walk[..n];
    NextVisit(server, split, split(first).path, at, walk, made);
    assert forall i: nat :: i < n ==> made[i] == walk[i];
  }

  /** All pages of a resource. Whatever the server answers, the reading ends: it asks for at most `maxPages` targets, no
      two written alike and all safe, with at most four requests each. It succeeds exactly if the answers make up a walk,
      and then returns the pages of one. */
  method Pages<T(!new)>(server: nat -> Response<T>, split: Text -> Url, first: Text, at: nat, maxPages: nat)
    returns (r: Result<seq<seq<T>>, PageError>, next: nat, ghost asked: seq<Text>, ghost visits: seq<Visit<T>>)
    requires Safe(split(first), split(first).path)
    ensures |asked| <= maxPages && Distinct(split, asked, split(first).path)
    ensures at <= next <= at + 4 * |asked|
    ensures r.Success? <==> Walkable(server, split, first, at, maxPages)
    ensures r.Success? ==>
              && IsWalk(server, split, first, at, maxPages, visits)
              && |r.value| == |visits| && forall i :: 0 <= i < |visits| ==> r.value[i] == visits[i].rows
  {
    var pages: seq<seq<T>>, cursor, seen: set<Text> := [], LinkTo(first), {};
    var path := split(first).path;
    hide Safe, IsWalk, Reading, OnService, AnsweredAt, Distinct, Walkable;
    next, asked, visits := at, [], [];
    ReadingStarts(server, split, first, at, maxPages);
    while cursor.LinkTo?
      invariant Reading(server, split, first, at, maxPages, visits, pages, asked, seen, cursor, next)
      invariant |seen| <= maxPages && at <= next && !cursor.BadLink?
      decreases maxPages - |seen|, cursor.LinkTo?
    {
      var url := cursor.target;
      SafeExactly(split(url), path);
      ghost var start := next;
      ReadingMeans(server, split, first, at, maxPages, visits, pages, asked, seen, url, next);
      if !Safe(split(url), path) {
        r := Failure(UnsafeTarget);
        return;
      }
      if url in seen || |seen| >= maxPages {
        r := Failure(LoopOrLimit);
        return;
      }
      AskedGrows(split, asked, path, url);
      seen := seen + {url};
      asked := asked + [url];
      var body;
      body, next := Fetch(server, next);
      if body.Failure? {
        assert !GoodAnswer(server, start);
        r := Failure(body.error);
        return;
      }
      if !body.value.Rows? {
        assert !GoodAnswer(server, start);
        r := Failure(IncompletePage);
        return;
      }
      if body.value.next.BadLink? {
        assert !GoodAnswer(server, start);
        r := Failure(InvalidCursor);
        return;
      }
      ghost var v := Visit(url, next - 1, body.value.rows);
      ReadingGoesOn(server, split, first, at, maxPages, visits, pages, asked[..|asked| - 1], seen - {url}, start, v, body.value.next);
      visits := visits + [v];
      pages := pages + [body.value.rows];
      cursor := body.value.next;
    }
    ReadingEnds(server, split, first, at, maxPages, visits, pages, asked, seen, next);
    r := Success(pages);
  }

  /** What has been read so far, before following `cursor` with request number `next`. */
  ghost predicate Reading<T>(
    server: nat -> Response<T>, split: Text -> Url, first: Text, at: nat, maxPages: nat,
    visits: seq<Visit<T>>, pages: seq<seq<T>>, asked: seq<Text>, seen: set<Text>, cursor: Link, next: nat)
  {
    && Chain(server, split, split(first).path, at, visits, cursor) && next == From(at, visits, |visits|)
    && |pages| == |visits| == |asked|
    && (forall i :: 0 <= i < |visits| ==> pages[i] == visits[i].rows && asked[i] == visits[i].target)
    && (if visits == [] then cursor == LinkTo(first) else visits[0].target == first)
    && seen == (set u | u in asked) && |seen| == |asked| <= maxPages
    && at <= next <= at + 4 * |asked| && Distinct(split, asked, split(first).path)
  }

  lemma ReadingStarts<T>(server: nat -> Response<T>, split: Text -> Url, first: Text, at: nat, maxPages: nat)
    ensures Reading<T>(server, split, first, at, maxPages, [], [], [], {}, LinkTo(first), at)
  {
  }

  lemma ReadingMeans<T(!new)>(
    server: nat -> Response<T>, split: Text -> Url, first: Text, at: nat, maxPages: nat,
    visits: seq<Visit<T>>, pages: seq<seq<T>>, asked: seq<Text>, seen: set<Text>, url: Text, next: nat)
    requires Reading(server, split, first, at, maxPages, visits, pages, asked, seen, LinkTo(url), next)
    ensures Walkable(server, split, first, at, maxPages) ==>
              |seen| < maxPages && url !in seen && OnService(split(url), split(first).path) && GoodAnswer(server, next)
    ensures |asked| == |seen| <= maxPages && at <= next <= at + 4 * |asked| && Distinct(split, asked, split(first).path)
    ensures url in seen <==> url in asked
  {
    hide Chain, IsWalk, GoodPage, OnService, GoodAnswer, From;
    forall walk | IsWalk(server, split, first, at, maxPages, walk)
      ensures |seen| < maxPages && url !in seen && OnService(split(url), split(first).path) && GoodAnswer(server, next)
    {
      WalkGoesOn(server, split, first, at, maxPages, walk, visits, url);
      GoodPageIsGood(server, split, split(first).path, next, url);
    }
  }

  lemma AskedGrows(split: Text -> Url, asked: seq<Text>, path: string, url: Text)
    requires Distinct(split, asked, path) && OnService(split(url), path) && url !in asked
    ensures Distinct(split, asked + [url], path)
  {
    hide OnService;
  }

  lemma ReadingGoesOn<T>(
    server: nat -> Response<T>, split: Text -> Url, first: Text, at: nat, maxPages: nat,
    visits: seq<Visit<T>>, pages: seq<seq<T>>, asked: seq<Text>, seen: set<Text>, start: nat, v: Visit<T>, cursor: Link)
    requires Reading(server, split, first, at, maxPages, visits, pages, asked, seen, LinkTo(v.target), start)
    requires |seen| < maxPages && v.target !in seen && OnService(split(v.target), split(first).path)
    requires AnsweredAt(server, start, v.answer) && server(v.answer).body == Rows(v.rows, cursor)
    ensures Reading(server, split, first, at, maxPages, visits + [v], pages + [v.rows], asked + [v.target], seen + {v.target}, cursor, v.answer + 1)
  {
    hide Chain, OnService, GoodPage, Distinct;
    PageIsGood(server, split, split(first).path, start, v, cursor);
    assert forall i :: 0 <= i < |visits| ==> asked[i] in asked;
    ChainSnoc(server, split, split(first).path, at, visits, v, cursor);
    AskedGrows(split, asked, split(first).path, v.target);
    assert (set u | u in asked + [v.target]) == seen + {v.target};
    assert start <= v.answer < start + 4;
  }

  lemma ReadingEnds<T(!new)>(
    server: nat -> Response<T>, split: Text -> Url, first: Text, at: nat, maxPages: nat,
    visits: seq<Visit<T>>, pages: seq<seq<T>>, asked: seq<Text>, seen: set<Text>, next: nat)
    requires Reading(server, split, first, at, maxPages, visits, pages, asked, seen, NoLink, next)
    ensures IsWalk(server, split, first, at, maxPages, visits) && Walkable(server, split, first, at, maxPages)
    ensures |pages| == |visits| && |asked| <= maxPages
    ensures forall i :: 0 <= i < |visits| ==> pages[i] == visits[i].rows
    ensures at <= next <= at + 4 * |asked| && Distinct(split, asked, split(first).path)
  {
    hide Chain, Distinct;
  }

  /** A page without a bad cursor answers the request that starts at this number. */
  ghost predicate GoodAnswer<T>(server: nat -> Response<T>, from: nat) {
    exists a: nat :: AnsweredAt(server, from, a) && server(a).body.Rows? && !server(a).body.next.BadLink?
  }

  lemma GoodPageIsGood<T>(server: nat -> Response<T>, split: Text -> Url, path: string, from: nat, url: Text)
    requires exists v: Visit<T>, next: Link :: v.target == url && !next.BadLink? && GoodPage(server, split, path, from, v, next)
    ensures OnService(split(url), path) && GoodAnswer(server, from)
  {
  }

  lemma PageIsGood<T>(server: nat -> Response<T>, split: Text -> Url, path: string, from: nat, v: Visit<T>, next: Link)
    requires OnService(split(v.target), path) && AnsweredAt(server, from, v.answer) && server(v.answer).body == Rows(v.rows, next)
    ensures GoodPage(server, split, path, from, v, next)
  {
  }

  // ------------------------------------------------------------------ What the directory answered

  /** `enabled` is absent if the answer does not say. */
  datatype UserRow = UserRow(id: string, name: string, enabled: Option<bool>)

  datatype GroupRow = GroupRow(id: string, name: string)

  datatype MemberType = UserMember | GroupMember | OtherMember | Untyped

  datatype MemberRow = MemberRow(id: string, kind: MemberType)

  /** The pages of the three kinds of reads; `members` has an entry for every group. */
  datatype Directory = Directory(users: seq<seq<UserRow>>, groups: seq<seq<GroupRow>>, members: map<string, seq<seq<MemberRow>>>)

  function Flat<T>(pages: seq<seq<T>>): seq<T> {
    if pages == [] then [] else Flat(pages[..|pages| - 1]) + pages[|pages| - 1]
  }

  ghost function UserIds(rows: seq<UserRow>, enabled: bool): set<string> {
    set row | row in rows && row.enabled == Some(enabled) :: row.id
  }

  ghost function GroupIds(rows: seq<GroupRow>): set<string> {
    set row | row in rows :: row.id
  }

  function Native(id: string): string {
    "entra:" + id
  }

  function UserRef(sid: SourceId, id: string): Reference {
    Reference(sid, Native(id), "user")
  }

  function GroupRef(sid: SourceId, id: string): Reference {
    Reference(sid, Native(id), "group")
  }

  function MemberRef(sid: SourceId, row: MemberRow): Reference {
    if row.kind.UserMember? then UserRef(sid, row.id) else GroupRef(sid, row.id)
  }

  function UserRecord(sid: SourceId, row: UserRow, at: Time): Record {
    ObjectRecord(UserRef(sid, row.id), row.name, at, NO_ATTRIBUTES)
  }

  function GroupRecord(sid: SourceId, row: GroupRow, at: Time): Record {
    ObjectRecord(GroupRef(sid, row.id), row.name, at, NO_ATTRIBUTES)
  }

  function Membership(sid: SourceId, row: MemberRow, group: string, at: Time): Record {
    RelationshipRecord(MemberRef(sid, row), "member_of", GroupRef(sid, group), at, NO_ATTRIBUTES)
  }

  /** Stands for any time: every record is stamped when it is made, so a fact is a record up to its time. */
  const SOME_TIME: Time := 0

  ghost function Undated(r: Record): Record {
    r.(observedAt := SOME_TIME)
  }

  /** Some record states the fact. */
  ghost predicate States(records: seq<Record>, fact: Record) {
    exists r :: r in records && Undated(r) == fact
  }

  lemma StatesSnoc(records: seq<Record>, r: Record, fact: Record)
    ensures States(records + [r], fact) <==> States(records, fact) || Undated(r) == fact
  {
    assert forall x :: x in records + [r] <==> x in records || x == r;
  }

  lemma StatesNothing()
    ensures forall fact :: !States([], fact)
  {
  }

  // ------------------------------------------------------------------ The scan, page by page

  datatype ScanError = StateUnavailable | DuplicateUser | DuplicateGroup | TypeUnavailable | DirectoryChanged

  /** Every account says whether it is enabled, and none occurs twice. */
  ghost predicate UsersOk(known: set<string>, rows: seq<UserRow>) {
    && (forall i :: 0 <= i < |rows| ==> rows[i].enabled.Some? && rows[i].id !in known)
    && (forall i, j :: 0 <= i < j < |rows| ==> rows[i].id != rows[j].id)
  }

  ghost predicate GroupsOk(known: set<string>, rows: seq<GroupRow>) {
    && (forall i :: 0 <= i < |rows| ==> rows[i].id !in known)
    && (forall i, j :: 0 <= i < j < |rows| ==> rows[i].id != rows[j].id)
  }

  /** The rows of members that count: direct members of the supported types that are not disabled. */
  ghost predicate Kept(disabled: set<string>, row: MemberRow) {
    row.id !in disabled && (row.kind.UserMember? || row.kind.GroupMember?)
  }

  /** A member is disabled, of another type, or an enabled user or group seen in this scan. */
  ghost predicate MemberOk(users: set<string>, disabled: set<string>, groups: set<string>, row: MemberRow) {
    row.id in disabled ||
    match row.kind
    case Untyped => false
    case OtherMember => true
    case UserMember => row.id in users
    case GroupMember => row.id in groups
  }

  lemma UsersStart(known: set<string>)
    ensures UsersOk(known, []) && UserIds([], true) == {} && UserIds([], false) == {}
  {
  }

  lemma SeenUser(known: set<string>, front: seq<UserRow>, id: string)
    requires UsersOk(known, front)
    ensures id in UserIds(front, true) + UserIds(front, false) <==> exists j :: 0 <= j < |front| && front[j].id == id
  {
    if j :| 0 <= j < |front| && front[j].id == id {
      assert front[j] in front && front[j].enabled.Some?;
      assert front[j].id in UserIds(front, front[j].enabled.value);
    }
    if id in UserIds(front, true) + UserIds(front, false) {
      var row :| row in front && row.id == id;
      var j :| 0 <= j < |front| && front[j] == row;
    }
  }

  lemma UserIdsSnoc(front: seq<UserRow>, row: UserRow, enabled: bool)
    ensures UserIds(front + [row], enabled) == UserIds(front, enabled) + if row.enabled == Some(enabled) then {row.id} else {}
  {
    assert forall x :: x in front + [row] <==> x in front || x == row;
  }

  lemma UsersOkSnoc(known: set<string>, front: seq<UserRow>, row: UserRow)
    requires UsersOk(known, front)
    ensures UsersOk(known, front + [row]) <==>
            row.enabled.Some? && row.id !in known && row.id !in UserIds(front, true) + UserIds(front, false)
  {
    SeenUser(known, front, row.id);
    hide UserIds;
    var longer := front + [row];
    assert longer[|front|] == row && forall i :: 0 <= i < |front| ==> longer[i] == front[i];
  }

  lemma UsersOkPrefix(known: set<string>, rows: seq<UserRow>, i: nat)
    requires UsersOk(known, rows) && i <= |rows|
    ensures UsersOk(known, rows[..i])
  {
  }

  /** One more account. */
  lemma UsersSnoc(known: set<string>, rows: seq<UserRow>, i: nat)
    requires i < |rows| && UsersOk(known, rows[..i])
    ensures var row, seen := rows[i], known + UserIds(rows[..i], true) + UserIds(rows[..i], false);
            && (UsersOk(known, rows) ==> row.enabled.Some? && row.id !in seen)
            && (row.enabled.Some? && row.id !in seen ==>
                  && UsersOk(known, rows[..i] + [row])
                  && (forall enabled :: UserIds(rows[..i] + [row], enabled) ==
                        UserIds(rows[..i], enabled) + if row.enabled.value == enabled then {row.id} else {}))
  {
    var row, front := rows[i], rows[..i];
    UsersOkSnoc(known, front, row);
    UserIdsSnoc(front, row, true);
    UserIdsSnoc(front, row, false);
    assert rows[..i + 1] == front + [row];
    if UsersOk(known, rows) {
      UsersOkPrefix(known, rows, i + 1);
    }
    hide UsersOk, UserIds;
  }

  /** The facts that rows of each kind give. */
  ghost predicate IsUser(sid: SourceId, rows: seq<UserRow>, x: Record) {
    exists row :: row in rows && row.enabled == Some(true) &&
      x == ObjectRecord(Reference(sid, "entra:" + row.id, "user"), row.name, SOME_TIME, Attributes(false, false, "allow", true, [], ""))
  }

  ghost predicate IsGroup(sid: SourceId, rows: seq<GroupRow>, x: Record) {
    exists row :: row in rows &&
      x == ObjectRecord(Reference(sid, "entra:" + row.id, "group"), row.name, SOME_TIME, Attributes(false, false, "allow", true, [], ""))
  }

  ghost predicate IsMember(sid: SourceId, group: string, disabled: set<string>, rows: seq<MemberRow>, x: Record) {
    exists row :: row in rows && Kept(disabled, row) &&
      x == RelationshipRecord(
        Reference(sid, "entra:" + row.id, if row.kind == UserMember then "user" else "group"), "member_of",
        Reference(sid, "entra:" + group, "group"), SOME_TIME, Attributes(false, false, "allow", true, [], ""))
  }

  lemma NoUser(sid: SourceId)
    ensures forall x :: !IsUser(sid, [], x)
  {
  }

  lemma IsUserSnoc(sid: SourceId, front: seq<UserRow>, row: UserRow, x: Record)
    ensures IsUser(sid, front + [row], x) <==>
            IsUser(sid, front, x) || (row.enabled == Some(true) && x == UserRecord(sid, row, SOME_TIME))
  {
    assert forall y :: y in front + [row] <==> y in front || y == row;
  }

  class Scan {
    const sid: SourceId
    /** What the clock says, reading after reading. */
    const clock: nat -> Time
    var readings: nat
    var users: set<string>
    var disabled: set<string>
    var groups: set<string>

    constructor (sid: SourceId, clock: nat -> Time)
      ensures this.sid == sid && this.clock == clock && users == {} && disabled == {} && groups == {}
    {
      this.sid, this.clock := sid, clock;
      readings, users, disabled, groups := 0, {}, {}, {};
    }

    method Now() returns (t: Time)
      modifies this`readings
      ensures t == clock(old(readings)) && readings == old(readings) + 1
    {
      t := clock(readings);
      readings := readings + 1;
    }

    /** One page of accounts: the records of the enabled ones. */
    method TakeUsers(rows: seq<UserRow>) returns (r: Result<seq<Record>, ScanError>)
      modifies this`users, this`disabled, this`readings
      ensures r.Success? <==> UsersOk(old(users) + old(disabled), rows)
      ensures r.Success? ==> (
                  && users == old(users) + UserIds(rows, true) && disabled == old(disabled) + UserIds(rows, false)
                  && forall x :: States(r.value, x) <==> IsUser(sid, rows, x))
    {
      hide UsersOk, UserIds, States, IsUser;
      var objects: seq<Record> := [];
      UsersStart(users + disabled);
      StatesNothing();
      NoUser(sid);
      for i := 0 to |rows|
        invariant UsersOk(old(users) + old(disabled), rows[..i])
        invariant users == old(users) + UserIds(rows[..i], true) && disabled == old(disabled) + UserIds(rows[..i], false)
        invariant forall x :: States(objects, x) <==> IsUser(sid, rows[..i], x)
      {
        var row := rows[i];
        assert rows[..i + 1] == rows[..i] + [row];
        UsersSnoc(old(users) + old(disabled), rows, i);
        forall x ensures IsUser(sid, rows[..i + 1], x) <==>
                         IsUser(sid, rows[..i], x) || (row.enabled == Some(true) && x == UserRecord(sid, row, SOME_TIME)) {
          IsUserSnoc(sid, rows[..i], row, x);
        }
        if row.enabled.None? {
          return Failure(StateUnavailable);
        }
        if row.id in users || row.id in disabled {
          return Failure(DuplicateUser);
        }
        if !row.enabled.value {
          disabled := disabled + {row.id};
        } else {
          users := users + {row.id};
          var now := Now();
          ghost var before := objects;
          objects := objects + [UserRecord(sid, row, now)];
          forall x ensures States(objects, x) <==> States(before, x) || x == UserRecord(sid, row, SOME_TIME) {
            StatesSnoc(before, UserRecord(sid, row, now), x);
          }
          assert row.enabled == Some(true);
        }
      }
      assert rows[..|rows|] == rows;
      return Success(objects);
    }

    /** One page of groups. */
    method TakeGroups(rows: seq<GroupRow>) returns (r: Result<seq<Record>, ScanError>)
      modifies this`groups, this`readings
      ensures r.Success? <==> GroupsOk(old(groups), rows)
      ensures r.Success? ==> (
                  && groups == old(groups) + GroupIds(rows)
                  && forall x :: States(r.value, x) <==> IsGroup(sid, rows, x))
    {
      hide States;
      var objects: seq<Record> := [];
      StatesNothing();
      for i := 0 to |rows|
        invariant GroupsOk(old(groups), rows[..i]) && groups == old(groups) + GroupIds(rows[..i])
        invariant forall x :: States(objects, x) <==> IsGroup(sid, rows[..i], x)
      {
        var row := rows[i];
        assert rows[..i + 1] == rows[..i] + [row];
        if row.id in groups {
          return Failure(DuplicateGroup);
        }
        assert forall j :: 0 <= j < i ==> rows[j] in rows[..i];
        groups := groups + {row.id};
        var now := Now();
        ghost var before := objects;
        objects := objects + [GroupRecord(sid, row, now)];
        forall x ensures States(objects, x) <==> States(before, x) || x == GroupRecord(sid, row, SOME_TIME) {
          StatesSnoc(before, GroupRecord(sid, row, now), x);
        }
      }
      assert rows[..|rows|] == rows;
      return Success(objects);
    }

    /** One page of the members of a group. */
    method TakeMembers(group: string, rows: seq<MemberRow>) returns (r: Result<seq<Record>, ScanError>)
      modifies this`readings
      ensures r.Success? <==> forall row :: row in rows ==> MemberOk(users, disabled, groups, row)
      ensures r.Success? ==> forall x :: States(r.value, x) <==> IsMember(sid, group, disabled, rows, x)
    {
      hide States;
      var relations: seq<Record> := [];
      StatesNothing();
      for i := 0 to |rows|
        invariant forall row :: row in rows[..i] ==> MemberOk(users, disabled, groups, row)
        invariant forall x :: States(relations, x) <==> IsMember(sid, group, disabled, rows[..i], x)
      {
        var row := rows[i];
        assert rows[..i + 1] == rows[..i] + [row];
        assert row in rows;
        if row.id in disabled || row.kind.OtherMember? {
          continue;
        }
        if row.kind.Untyped? {
          return Failure(TypeUnavailable);
        }
        if (row.kind.UserMember? && row.id !in users) || (row.kind.GroupMember? && row.id !in groups) {
          return Failure(DirectoryChanged);
        }
        var now := Now();
        ghost var before := relations;
        relations := relations + [Membership(sid, row, group, now)];
        forall x ensures States(relations, x) <==> States(before, x) || x == Membership(sid, row, group, SOME_TIME) {
          StatesSnoc(before, Membership(sid, row, group, now), x);
        }
      }
      assert rows[..|rows|] == rows;
      return Success(relations);
    }
  }

  // ------------------------------------------------------------------ The whole scan

  lemma {:induction false} UsersOkAppend(known: set<string>, a: seq<UserRow>, b: seq<UserRow>)
    ensures UsersOk(known, a + b) <==> UsersOk(known, a) && UsersOk(known + UserIds(a, true) + UserIds(a, false), b)
    ensures forall e :: UserIds(a + b, e) == UserIds(a, e) + UserIds(b, e)
  {
    if b == [] {
      assert a + b == a;
      UsersStart(known + UserIds(a, true) + UserIds(a, false));
    } else {
      var front, last := b[..|b| - 1], b[|b| - 1];
      assert b == front + [last] && a + b == (a + front) + [last];
      UsersOkAppend(known, a, front);
      UserIdsSnoc(a + front, last, true);
      UserIdsSnoc(a + front, last, false);
      UserIdsSnoc(front, last, true);
      UserIdsSnoc(front, last, false);
      AppendStep(known, a, front, last);
    }
  }

  lemma AppendStep(known: set<string>, a: seq<UserRow>, front: seq<UserRow>, last: UserRow)
    requires UsersOk(known, a + front) <==> UsersOk(known, a) && UsersOk(known + UserIds(a, true) + UserIds(a, false), front)
    requires forall e :: UserIds(a + front, e) == UserIds(a, e) + UserIds(front, e)
    ensures UsersOk(known, a + front + [last]) <==>
            UsersOk(known, a) && UsersOk(known + UserIds(a, true) + UserIds(a, false), front + [last])
  {
    hide UserIds, UsersOk;
    var all, seen := a + front + [last], known + UserIds(a, true) + UserIds(a, false);
    if UsersOk(known, all) {
      UsersOkPrefix(known, all, |a + front|);
      assert all[..|a + front|] == a + front;
    }
    if UsersOk(seen, front + [last]) {
      UsersOkPrefix(seen, front + [last], |front|);
      assert (front + [last])[..|front|] == front;
    }
    if UsersOk(known, a + front) {
      UsersOkSnoc(known, a + front, last);
      UsersOkSnoc(seen, front, last);
    }
  }

  lemma GroupsOkAppend(known: set<string>, a: seq<GroupRow>, b: seq<GroupRow>)
    ensures GroupsOk(known, a + b) <==> GroupsOk(known, a) && GroupsOk(known + GroupIds(a), b)
    ensures GroupIds(a + b) == GroupIds(a) + GroupIds(b)
  {
    var all := a + b;
    assert (forall i :: 0 <= i < |a| ==> all[i] == a[i]) && (forall i :: 0 <= i < |b| ==> all[|a| + i] == b[i]);
    if GroupsOk(known, all) {
      forall i | 0 <= i < |b| ensures b[i].id !in known + GroupIds(a) {
        assert all[|a| + i].id !in known;
      }
      forall i, j | 0 <= i < j < |b| ensures b[i].id != b[j].id {
        assert all[|a| + i].id != all[|a| + j].id;
      }
    }
    if GroupsOk(known, a) && GroupsOk(known + GroupIds(a), b) {
      forall i, j | 0 <= i < j < |all| ensures all[i].id != all[j].id {
        if i < |a| <= j {
          assert a[i] in a && b[j - |a|].id !in GroupIds(a);
        } else if |a| <= i {
          assert b[i - |a|].id != b[j - |a|].id;
        }
      }
      forall i | 0 <= i < |all| ensures all[i].id !in known {
        if |a| <= i {
          assert b[i - |a|].id !in known;
        }
      }
    }
  }

  datatype ScanPage = ScanPage(objects: seq<Record>, relationships: seq<Record>)

  /** Some record of the pages states the fact. */
  ghost predicate InPages(pages: seq<ScanPage>, x: Record) {
    exists p :: p in pages && (States(p.objects, x) || States(p.relationships, x))
  }

  lemma InPagesSnoc(pages: seq<ScanPage>, p: ScanPage, x: Record)
    ensures InPages(pages + [p], x) <==> InPages(pages, x) || States(p.objects, x) || States(p.relationships, x)
  {
    hide States;
    assert forall q :: q in pages + [p] <==> q in pages || q == p;
  }

  lemma NoPages()
    ensures forall x :: !InPages([], x)
  {
  }

  ghost function Users(d: Directory): set<string> {
    UserIds(Flat(d.users), true)
  }

  ghost function DisabledUsers(d: Directory): set<string> {
    UserIds(Flat(d.users), false)
  }

  ghost function Groups(d: Directory): set<string> {
    GroupIds(Flat(d.groups))
  }

  ghost predicate Answered(d: Directory) {
    Groups(d) <= d.members.Keys
  }

  ghost predicate MembersOk(d: Directory, group: string)
    requires group in d.members
  {
    forall row :: row in Flat(d.members[group]) ==> MemberOk(Users(d), DisabledUsers(d), Groups(d), row)
  }

  /** A scan succeeds exactly on such answers. */
  ghost predicate Scannable(d: Directory)
    requires Answered(d)
  {
    && UsersOk({}, Flat(d.users)) && GroupsOk({}, Flat(d.groups))
    && forall g :: g in Groups(d) ==> MembersOk(d, g)
  }

  ghost predicate IsMembershipOf(sid: SourceId, d: Directory, group: string, x: Record)
    requires group in d.members
  {
    IsMember(sid, group, DisabledUsers(d), Flat(d.members[group]), x)
  }

  ghost predicate IsMembership(sid: SourceId, d: Directory, x: Record)
    requires Answered(d)
  {
    exists g :: g in Groups(d) && IsMembershipOf(sid, d, g, x)
  }

  /** Exactly the enabled users, the groups, and the memberships that count. */
  ghost predicate IsScan(sid: SourceId, d: Directory, facts: Record -> bool)
    requires Answered(d)
  {
    forall x :: facts(x) <==> IsUser(sid, Flat(d.users), x) || IsGroup(sid, Flat(d.groups), x) || IsMembership(sid, d, x)
  }

  lemma IsUserAppend(sid: SourceId, a: seq<UserRow>, b: seq<UserRow>, x: Record)
    ensures IsUser(sid, a + b, x) <==> IsUser(sid, a, x) || IsUser(sid, b, x)
  {
    assert forall row :: row in a + b <==> row in a || row in b;
  }

  lemma IsGroupAppend(sid: SourceId, a: seq<GroupRow>, b: seq<GroupRow>, x: Record)
    ensures IsGroup(sid, a + b, x) <==> IsGroup(sid, a, x) || IsGroup(sid, b, x)
  {
    assert forall row :: row in a + b <==> row in a || row in b;
  }

  lemma IsMemberAppend(sid: SourceId, group: string, disabled: set<string>, a: seq<MemberRow>, b: seq<MemberRow>, x: Record)
    ensures IsMember(sid, group, disabled, a + b, x) <==> IsMember(sid, group, disabled, a, x) || IsMember(sid, group, disabled, b, x)
  {
    assert forall row :: row in a + b <==> row in a || row in b;
  }

  method ScanUsers(scan: Scan, pages: seq<seq<UserRow>>) returns (r: Result<seq<ScanPage>, ScanError>)
    requires scan.users == {} == scan.disabled
    modifies scan
    ensures scan.groups == old(scan.groups)
    ensures r.Success? <==> UsersOk({}, Flat(pages))
    ensures r.Success? ==> (
                && scan.users == UserIds(Flat(pages), true) && scan.disabled == UserIds(Flat(pages), false)
                && forall x :: InPages(r.value, x) <==> IsUser(scan.sid, Flat(pages), x))
  {
    hide UsersOk, UserIds, InPages, Flat, States, IsUser;
    var out: seq<ScanPage> := [];
    UsersStart({});
    FlatSteps(pages, 0);
    NoPages();
    NoUser(scan.sid);
    for i := 0 to |pages|
      invariant UsersOk({}, Flat(pages[..i])) && scan.groups == old(scan.groups)
      invariant scan.users == UserIds(Flat(pages[..i]), true) && scan.disabled == UserIds(Flat(pages[..i]), false)
      invariant forall x :: InPages(out, x) <==> IsUser(scan.sid, Flat(pages[..i]), x)
    {
      FlatSteps(pages, i);
      UsersOkAppend({}, Flat(pages[..i]), pages[i]);
      assert scan.users + scan.disabled == {} + UserIds(Flat(pages[..i]), true) + UserIds(Flat(pages[..i]), false);
      var objects := scan.TakeUsers(pages[i]);
      if objects.Failure? {
        PrefixFails(pages, i + 1);
        return Failure(objects.error);
      }
      ghost var before := out;
      out := out + [ScanPage(objects.value, [])];
      forall x ensures InPages(out, x) <==> IsUser(scan.sid, Flat(pages[..i + 1]), x) {
        IsUserAppend(scan.sid, Flat(pages[..i]), pages[i], x);
        ObjectPage(before, objects.value, x);
      }
    }
    assert pages[..|pages|] == pages;
    return Success(out);
  }

  lemma ObjectPage(pages: seq<ScanPage>, objects: seq<Record>, x: Record)
    ensures InPages(pages + [ScanPage(objects, [])], x) <==> InPages(pages, x) || States(objects, x)
  {
    hide InPages, States;
    InPagesSnoc(pages, ScanPage(objects, []), x);
    StatesNothing();
  }

  lemma RelationPage(pages: seq<ScanPage>, relations: seq<Record>, x: Record)
    ensures InPages(pages + [ScanPage([], relations)], x) <==> InPages(pages, x) || States(relations, x)
  {
    hide InPages, States;
    InPagesSnoc(pages, ScanPage([], relations), x);
    StatesNothing();
  }

  lemma FlatSteps<T>(pages: seq<seq<T>>, i: nat)
    requires i <= |pages|
    ensures Flat<T>([]) == [] && pages[..0] == []
    ensures i < |pages| ==> Flat(pages[..i + 1]) == Flat(pages[..i]) + pages[i]
  {
    if i < |pages| {
      assert pages[..i + 1][..i] == pages[..i];
    }
  }

  lemma {:induction false} FlatPrefix<T>(pages: seq<seq<T>>, i: nat)
    requires i <= |pages|
    ensures Flat(pages[..i]) <= Flat(pages)
    decreases |pages| - i
  {
    if i < |pages| {
      FlatPrefix(pages, i + 1);
      FlatSteps(pages, i);
    } else {
      assert pages[..i] == pages;
    }
  }

  lemma PrefixFails(pages: seq<seq<UserRow>>, i: nat)
    requires i <= |pages| && !UsersOk({}, Flat(pages[..i]))
    ensures !UsersOk({}, Flat(pages))
  {
    FlatPrefix(pages, i);
    var front := Flat(pages[..i]);
    assert Flat(pages)[..|front|] == front;
    if UsersOk({}, Flat(pages)) {
      UsersOkPrefix({}, Flat(pages), |front|);
    }
  }

  method ScanGroups(scan: Scan, pages: seq<seq<GroupRow>>) returns (r: Result<seq<ScanPage>, ScanError>)
    requires scan.groups == {}
    modifies scan
    ensures scan.users == old(scan.users) && scan.disabled == old(scan.disabled)
    ensures r.Success? <==> GroupsOk({}, Flat(pages))
    ensures r.Success? ==> (
                && scan.groups == GroupIds(Flat(pages))
                && forall x :: InPages(r.value, x) <==> IsGroup(scan.sid, Flat(pages), x))
  {
    hide GroupsOk, InPages, Flat, GroupIds, States, IsGroup;
    var out: seq<ScanPage> := [];
    FlatSteps(pages, 0);
    NoPages();
    NoGroups(scan.sid);
    for i := 0 to |pages|
      invariant scan.users == old(scan.users) && scan.disabled == old(scan.disabled)
      invariant GroupsOk({}, Flat(pages[..i])) && scan.groups == GroupIds(Flat(pages[..i]))
      invariant forall x :: InPages(out, x) <==> IsGroup(scan.sid, Flat(pages[..i]), x)
    {
      FlatSteps(pages, i);
      GroupsOkAppend({}, Flat(pages[..i]), pages[i]);
      assert {} + GroupIds(Flat(pages[..i])) == scan.groups;
      var objects := scan.TakeGroups(pages[i]);
      if objects.Failure? {
        GroupPrefixFails(pages, i + 1);
        return Failure(objects.error);
      }
      ghost var before := out;
      out := out + [ScanPage(objects.value, [])];
      forall x ensures InPages(out, x) <==> IsGroup(scan.sid, Flat(pages[..i + 1]), x) {
        IsGroupAppend(scan.sid, Flat(pages[..i]), pages[i], x);
        ObjectPage(before, objects.value, x);
      }
    }
    assert pages[..|pages|] == pages;
    return Success(out);
  }

  lemma NoGroups(sid: SourceId)
    ensures GroupsOk({}, []) && GroupIds([]) == {} && forall x :: !IsGroup(sid, [], x)
  {
  }

  lemma GroupPrefixFails(pages: seq<seq<GroupRow>>, i: nat)
    requires i <= |pages| && !GroupsOk({}, Flat(pages[..i]))
    ensures !GroupsOk({}, Flat(pages))
  {
    FlatPrefix(pages, i);
    var front := Flat(pages[..i]);
    assert forall k :: 0 <= k < |front| ==> front[k] == Flat(pages)[k];
  }

  /** The pages of one group's members. */
  method ScanMembers(scan: Scan, group: string, pages: seq<seq<MemberRow>>) returns (r: Result<seq<ScanPage>, ScanError>)
    modifies scan`readings
    ensures r.Success? <==> forall row :: row in Flat(pages) ==> MemberOk(scan.users, scan.disabled, scan.groups, row)
    ensures r.Success? ==> forall x :: InPages(r.value, x) <==> IsMember(scan.sid, group, scan.disabled, Flat(pages), x)
  {
    hide InPages, Flat, MemberOk, Kept, States, IsMember;
    var out: seq<ScanPage> := [];
    FlatSteps(pages, 0);
    NoPages();
    NoMember(scan.sid, group, scan.disabled);
    for i := 0 to |pages|
      invariant forall row :: row in Flat(pages[..i]) ==> MemberOk(scan.users, scan.disabled, scan.groups, row)
      invariant forall x :: InPages(out, x) <==> IsMember(scan.sid, group, scan.disabled, Flat(pages[..i]), x)
    {
      FlatSteps(pages, i);
      var relations := scan.TakeMembers(group, pages[i]);
      if relations.Failure? {
        FlatPrefix(pages, i + 1);
        ghost var row :| row in pages[i] && !MemberOk(scan.users, scan.disabled, scan.groups, row);
        assert row in Flat(pages[..i + 1]);
        return Failure(relations.error);
      }
      ghost var before := out;
      out := out + [ScanPage([], relations.value)];
      forall x ensures InPages(out, x) <==> IsMember(scan.sid, group, scan.disabled, Flat(pages[..i + 1]), x) {
        IsMemberAppend(scan.sid, group, scan.disabled, Flat(pages[..i]), pages[i], x);
        RelationPage(before, relations.value, x);
      }
    }
    assert pages[..|pages|] == pages;
    return Success(out);
  }

  lemma NoMember(sid: SourceId, group: string, disabled: set<string>)
    ensures forall x :: !IsMember(sid, group, disabled, [], x)
  {
  }

  lemma InPagesAppend(a: seq<ScanPage>, b: seq<ScanPage>, x: Record)
    ensures InPages(a + b, x) <==> InPages(a, x) || InPages(b, x)
  {
    assert forall q :: q in a + b <==> q in a || q in b;
  }

  /** One complete scan: it succeeds exactly on consistent answers, and then emits exactly the facts of `IsScan`. */
  method Snapshot(sid: SourceId, clock: nat -> Time, d: Directory) returns (r: Result<seq<ScanPage>, ScanError>)
    requires Answered(d)
    ensures r.Success? <==> Scannable(d)
    ensures r.Success? ==> IsScan(sid, d, x => InPages(r.value, x))
  {
    hide UsersOk, GroupsOk, UserIds, GroupIds, InPages, Flat, MemberOk, Kept, IsUser, IsGroup, IsMember;
    var scan := new Scan(sid, clock);
    var users := ScanUsers(scan, d.users);
    if users.Failure? {
      return Failure(users.error);
    }
    var groups := ScanGroups(scan, d.groups);
    if groups.Failure? {
      return Failure(groups.error);
    }
    var rows := Flat(d.groups);
    GroupRowsAre(rows);
    var out: seq<ScanPage> := [];
    NoPages();
    for i := 0 to |rows|
      invariant scan.users == Users(d) && scan.disabled == DisabledUsers(d) && scan.groups == Groups(d)
      invariant forall k :: 0 <= k < i ==> MembersOk(d, rows[k].id)
      invariant forall x :: InPages(out, x) <==> exists k :: 0 <= k < i && IsMembershipOf(sid, d, rows[k].id, x)
    {
      assert rows[i].id in Groups(d);
      var members := ScanMembers(scan, rows[i].id, d.members[rows[i].id]);
      if members.Failure? {
        assert !MembersOk(d, rows[i].id);
        return Failure(members.error);
      }
      ghost var before := out;
      out := out + members.value;
      forall x ensures InPages(out, x) <==> exists k :: 0 <= k < i + 1 && IsMembershipOf(sid, d, rows[k].id, x) {
        InPagesAppend(before, members.value, x);
        assert InPages(members.value, x) <==> IsMembershipOf(sid, d, rows[i].id, x);
      }
    }
    r := Success(users.value + groups.value + out);
    forall x ensures InPages(r.value, x) <==>
                     IsUser(sid, Flat(d.users), x) || IsGroup(sid, Flat(d.groups), x) || IsMembership(sid, d, x)
    {
      InPagesAppend(users.value + groups.value, out, x);
      InPagesAppend(users.value, groups.value, x);
    }
  }

  lemma GroupRowsAre(rows: seq<GroupRow>)
    ensures forall i :: 0 <= i < |rows| ==> rows[i].id in GroupIds(rows)
    ensures forall g :: g in GroupIds(rows) ==> exists i :: 0 <= i < |rows| && rows[i].id == g
  {
  }

  // ------------------------------------------------------------------ What a finished scan guarantees

  /** The records of a finished scan. */
  ghost predicate Finished(sid: SourceId, d: Directory, facts: seq<Record>) {
    Answered(d) && Scannable(d) && IsScan(sid, d, x => States(facts, x))
  }

  ghost predicate Emitted(facts: seq<Record>, ref: Reference) {
    exists r :: r in facts && r.ObjectRecord? && r.ref == ref
  }

  ghost predicate Mentions(r: Record, ref: Reference) {
    match r
    case ObjectRecord(own, _, _, _) => own == ref
    case RelationshipRecord(subject, _, target, _, _) => subject == ref || target == ref
  }

  /** What a record of a finished scan states. */
  lemma RecordsAreFacts(sid: SourceId, d: Directory, facts: seq<Record>, r: Record)
    requires Finished(sid, d, facts) && r in facts
    ensures if r.RelationshipRecord? then IsMembership(sid, d, Undated(r))
            else IsUser(sid, Flat(d.users), Undated(r)) || IsGroup(sid, Flat(d.groups), Undated(r))
  {
    assert States(facts, Undated(r));
  }

  lemma UserIsEmitted(sid: SourceId, d: Directory, facts: seq<Record>, id: string)
    requires Finished(sid, d, facts) && id in Users(d)
    ensures Emitted(facts, UserRef(sid, id))
  {
    var row :| row in Flat(d.users) && row.enabled == Some(true) && row.id == id;
    assert IsUser(sid, Flat(d.users), UserRecord(sid, row, SOME_TIME));
    assert States(facts, UserRecord(sid, row, SOME_TIME));
  }

  lemma GroupIsEmitted(sid: SourceId, d: Directory, facts: seq<Record>, id: string)
    requires Finished(sid, d, facts) && id in Groups(d)
    ensures Emitted(facts, GroupRef(sid, id))
  {
    var row :| row in Flat(d.groups) && row.id == id;
    assert IsGroup(sid, Flat(d.groups), GroupRecord(sid, row, SOME_TIME));
    assert States(facts, GroupRecord(sid, row, SOME_TIME));
  }

  /** A row of `group`'s members that counts. */
  ghost predicate Counts(d: Directory, group: string, row: MemberRow)
    requires Answered(d)
  {
    group in Groups(d) && row in Flat(d.members[group]) && Kept(DisabledUsers(d), row)
  }

  lemma MembershipHasRow(sid: SourceId, d: Directory, x: Record) returns (group: string, row: MemberRow)
    requires Answered(d) && IsMembership(sid, d, x)
    ensures Counts(d, group, row) && x == Membership(sid, row, group, SOME_TIME)
  {
    group :| group in Groups(d) && IsMembershipOf(sid, d, group, x);
    row :| row in Flat(d.members[group]) && Kept(DisabledUsers(d), row) && x == Membership(sid, row, group, SOME_TIME);
  }

  /** Every relationship is a membership whose two ends were emitted. */
  lemma ScanIsClosed(sid: SourceId, d: Directory, facts: seq<Record>, r: Record)
    requires Finished(sid, d, facts) && r in facts && r.RelationshipRecord?
    ensures r.relation == "member_of" && Emitted(facts, r.subject) && Emitted(facts, r.target)
    ensures IsMembership(sid, d, Undated(r))
  {
    hide Emitted, Flat, States, IsUser, IsGroup, IsMembership;
    RecordsAreFacts(sid, d, facts, r);
    var g, row := MembershipHasRow(sid, d, Undated(r));
    assert MembersOk(d, g);
    assert MemberOk(Users(d), DisabledUsers(d), Groups(d), row);
    GroupIsEmitted(sid, d, facts, g);
    if row.kind.UserMember? {
      UserIsEmitted(sid, d, facts, row.id);
    } else {
      GroupIsEmitted(sid, d, facts, row.id);
    }
  }

  lemma NativeIsInjective(a: string, b: string)
    requires Native(a) == Native(b)
    ensures a == b
  {
    assert Native(a)[6..] == a && Native(b)[6..] == b;
  }

  lemma EnabledIsNotDisabled(d: Directory, id: string)
    requires UsersOk({}, Flat(d.users))
    ensures !(id in Users(d) && id in DisabledUsers(d))
  {
  }

  /** No record mentions a disabled user. */
  lemma DisabledAreAbsent(sid: SourceId, d: Directory, facts: seq<Record>, r: Record, id: string)
    requires Finished(sid, d, facts) && r in facts && id in DisabledUsers(d)
    ensures !Mentions(r, UserRef(sid, id))
  {
    hide Flat, Finished, IsMembership;
    assert UsersOk({}, Flat(d.users)) && Answered(d) by { FinishedIsSound(sid, d, facts); }
    EnabledIsNotDisabled(d, id);
    RecordsAreFacts(sid, d, facts, r);
    if r.RelationshipRecord? {
      var g, row := MembershipHasRow(sid, d, Undated(r));
      if r.subject == UserRef(sid, id) {
        NativeIsInjective(row.id, id);
      }
    } else if row :| row in Flat(d.users) && row.enabled == Some(true) && Undated(r) == UserRecord(sid, row, SOME_TIME) {
      assert row.id in Users(d);
      if r.ref == UserRef(sid, id) {
        NativeIsInjective(row.id, id);
      }
    }
  }

  lemma FinishedIsSound(sid: SourceId, d: Directory, facts: seq<Record>)
    requires Finished(sid, d, facts)
    ensures UsersOk({}, Flat(d.users)) && Answered(d)
  {
  }
}
