/** Versions of the policy document: propose, activate, roll back, and refuse edits made behind their back. */
module PolicyLifecycle {
  import opened Wrappers
  import opened Contracts
  import opened Policy

  datatype Status = Draft | Active | Retired

  datatype Checksum = ChecksumOf(document: Document)

  datatype PolicyRecord = PolicyRecord(document: Document, status: Status, checksum: Checksum, activatedAt: Option<Time>)

  /** Records by version, which is unique. */
  type Table = map<string, PolicyRecord>

  datatype PolicyError =
    | NoPolicyInProduction | FailedIntegrityCheck | InvalidDocument | VersionExists | EvaluatorRaised | UnknownVersion
    | AlreadyActive | NothingToRollBack

  predicate IsActive(t: Table, v: string) {
    v in t && t[v].status == Active
  }

  predicate IsRetired(t: Table, v: string) {
    v in t && t[v].status == Retired
  }

  /** Strictly later; a record that was never activated explicitly is older than any other. */
  predicate Later(a: Option<Time>, b: Option<Time>) {
    a.Some? && (b.None? || a.value > b.value)
  }

  /** The one retired version activated last. */
  predicate IsLatestRetired(t: Table, v: string) {
    IsRetired(t, v) && forall w <- t :: IsRetired(t, w) && w != v ==> Later(t[v].activatedAt, t[w].activatedAt)
  }

  ghost predicate AtMostOneActive(t: Table) {
    forall v, w :: IsActive(t, v) && IsActive(t, w) ==> v == w
  }

  ghost function ActiveVersion(t: Table): Option<string> {
    if v :| IsActive(t, v) then Some(v) else None
  }

  lemma ActiveVersionIs(t: Table, v: string)
    requires AtMostOneActive(t) && IsActive(t, v)
    ensures ActiveVersion(t) == Some(v)
  {
    var w :| IsActive(t, w) && ActiveVersion(t) == Some(w);
  }

  const DEFAULT_RECORD := PolicyRecord(DEFAULT_POLICY, Active, ChecksumOf(DEFAULT_POLICY), None)

  predicate Intact(r: PolicyRecord) {
    r.checksum == ChecksumOf(r.document)
  }

  // ------------------------------------------------------------------ Operations on the table

  /** Outside production the built-in policy becomes active when nothing is. */
  ghost function Settled(t: Table, production: bool): Result<Table, PolicyError> {
    if ActiveVersion(t).Some? then Success(t)
    else if production then Failure(NoPolicyInProduction)
    else if DEFAULT_POLICY.version in t then Failure(VersionExists)
    else Success(t[DEFAULT_POLICY.version := DEFAULT_RECORD])
  }

  ghost function Proposed(t: Table, d: Document): Result<Table, PolicyError> {
    if !DocumentWellFormed(d) then Failure(InvalidDocument)
    else if d.version in t then Failure(VersionExists)
    else if !PassesSimulation(d.rules) then Failure(EvaluatorRaised)
    else Success(t[d.version := PolicyRecord(d, Draft, ChecksumOf(d), None)])
  }

  function Retire(t: Table, v: string): Table
    requires v in t
  {
    t[v := t[v].(status := Retired)]
  }

  ghost function Activated(t: Table, version: string, now: Time): Result<Table, PolicyError> {
    if version !in t then Failure(UnknownVersion)
    else if IsActive(t, version) then Failure(AlreadyActive)
    else if !Intact(t[version]) then Failure(FailedIntegrityCheck)
    else
      var rest := if ActiveVersion(t).Some? && ActiveVersion(t).value in t then Retire(t, ActiveVersion(t).value) else t;
      Success(rest[version := rest[version].(status := Active, activatedAt := Some(now))])
  }

  ghost function RolledBack(t: Table, now: Time): Result<Table, PolicyError> {
    if v :| IsLatestRetired(t, v) then Activated(t, v, now) else Failure(NothingToRollBack)
  }

  // ------------------------------------------------------------------ What the operations do to the rows

  /** What reading the active policy leaves: the table as it is if a version is active; outside production a new table row
      for the built-in policy, active and without a time, unless its version is taken. */
  lemma SettledExactly(t: Table, production: bool)
    ensures Settled(t, production) ==
            if exists v :: v in t && t[v].status == Active then Success(t)
            else if production then Failure(NoPolicyInProduction)
            else if "2026-09-06.1" in t then Failure(VersionExists)
            else Success(t["2026-09-06.1" := PolicyRecord(DEFAULT_POLICY, Active, ChecksumOf(DEFAULT_POLICY), None)])
  {
    assert forall v :: v in t && t[v].status == Active ==> IsActive(t, v);
    assert DEFAULT_POLICY.version == "2026-09-06.1";
    hide DEFAULT_POLICY;
  }

  /** An input that a proposal is tried on. */
  ghost predicate IsTried(input: Input) {
    && input.risk in {None, Some(0), Some(99)} && input.caseId in {Null, Str("SIM-1")}
    && input.environment in {Str("production"), Null} && input.classification in {Str("sensitive"), Str("internal")}
  }

  /** A proposal becomes a draft with its own checksum if it is well formed, its version is new, and no rule raises on any
      input it is tried on; otherwise the first of these that is missing is reported. */
  lemma ProposedExactly(t: Table, d: Document)
    ensures Proposed(t, d) ==
            if !DocumentWellFormed(d) then Failure(InvalidDocument)
            else if d.version in t then Failure(VersionExists)
            else if exists input :: IsTried(input) && exists r :: r in d.rules && Applies(r.when, input).None? then Failure(EvaluatorRaised)
            else Success(t[d.version := PolicyRecord(d, Draft, ChecksumOf(d), None)])
  {
    hide Applies, DocumentWellFormed;
    forall input: Input ensures input in SIMULATION <==> IsTried(input) {
    }
  }

  /** The rows after an activation: the version given is active since now, the one that was active is retired, and nothing
      else changes. */
  ghost predicate ActivatesRow(t: Table, u: Table, version: string, now: Time) {
    && version in t && u.Keys == t.Keys
    && forall v :: v in t ==>
         u[v] == if v == version then PolicyRecord(t[v].document, Active, t[v].checksum, Some(now))
                 else if t[v].status == Active then PolicyRecord(t[v].document, Retired, t[v].checksum, t[v].activatedAt)
                 else t[v]
  }

  /** A version is activated if it is there, not active, and its document is the one its checksum was taken of. */
  lemma ActivatedExactly(t: Table, version: string, now: Time)
    requires AtMostOneActive(t)
    ensures match Activated(t, version, now)
            case Success(u) =>
              && ActivatesRow(t, u, version, now) && t[version].status != Active && t[version].checksum == ChecksumOf(t[version].document)
            case Failure(e) =>
              e == if version !in t then UnknownVersion else if t[version].status == Active then AlreadyActive else FailedIntegrityCheck
    ensures Activated(t, version, now).Success? <==>
            version in t && t[version].status != Active && t[version].checksum == ChecksumOf(t[version].document)
  {
    assert forall v :: v in t && t[v].status == Active ==> IsActive(t, v);
    if v :| IsActive(t, v) {
      ActiveVersionIs(t, v);
    }
  }

  /** A rollback activates a retired version that was activated strictly later than every other retired one; a row that was
      never activated explicitly counts as oldest. */
  lemma RolledBackExactly(t: Table, now: Time, v: string)
    requires v in t && t[v].status == Retired
    requires forall w :: w in t && w != v && t[w].status == Retired ==>
               t[v].activatedAt.Some? && (t[w].activatedAt.None? || t[w].activatedAt.value < t[v].activatedAt.value)
    ensures RolledBack(t, now) == Activated(t, v, now)
  {
    hide Activated;
    assert IsLatestRetired(t, v);
    assert forall w :: IsLatestRetired(t, w) ==> w == v;
  }

  lemma NothingRolledBackExactly(t: Table, now: Time)
    ensures RolledBack(t, now) == Failure(NothingToRollBack) <==>
            forall v :: v in t && t[v].status == Retired ==>
              exists w :: w in t && w != v && t[w].status == Retired
                          && !(t[v].activatedAt.Some? && (t[w].activatedAt.None? || t[w].activatedAt.value < t[v].activatedAt.value))
  {
    assert forall w :: w in t && t[w].status == Retired <==> IsRetired(t, w);
    if forall v :: !IsLatestRetired(t, v) {
      forall v | v in t && t[v].status == Retired
        ensures exists w :: w in t && w != v && t[w].status == Retired
                            && !(t[v].activatedAt.Some? && (t[w].activatedAt.None? || t[w].activatedAt.value < t[v].activatedAt.value))
      {
        assert !IsLatestRetired(t, v);
      }
    }
  }

  /** The store, updated in place; an error leaves it alone. */
  class PolicyStore {
    var records: Table

    constructor ()
      ensures records == map[]
    {
      records := map[];
    }

    /** The active version, or an error; a record whose document no longer matches its checksum is never returned. */
    method ActivePolicy(production: bool) returns (r: Result<string, PolicyError>)
      requires AtMostOneActive(records)
      modifies this
      ensures match Settled(old(records), production)
              case Failure(e) => r == Failure(e) && records == old(records)
              case Success(t) =>
                && ActiveVersion(t).Some? && IsActive(t, ActiveVersion(t).value)
                && var v := ActiveVersion(t).value;
                   if t[v].checksum == ChecksumOf(t[v].document) then r == Success(v) && records == t
                   else r == Failure(FailedIntegrityCheck) && records == old(records)
    {
      var version := DEFAULT_POLICY.version;
      if v :| v in records && IsActive(records, v) {
        version := v;
        ActiveVersionIs(records, v);
      } else {
        assert ActiveVersion(records).None?;
        if production {
          return Failure(NoPolicyInProduction);
        }
        if DEFAULT_POLICY.version in records {
          return Failure(VersionExists);
        }
        records := records[DEFAULT_POLICY.version := DEFAULT_RECORD];
        ActiveVersionIs(records, DEFAULT_POLICY.version);
      }
      if !Intact(records[version]) {
        return Failure(FailedIntegrityCheck);
      }
      return Success(version);
    }

    method ProposePolicy(d: Document) returns (r: Result<string, PolicyError>)
      modifies this
      ensures match Proposed(old(records), d)
              case Failure(e) => r == Failure(e) && records == old(records)
              case Success(t) => r == Success(d.version) && records == t
    {
      var errors := ValidateDocument(d);
      if errors != [] {
        return Failure(InvalidDocument);
      }
      if d.version in records {
        return Failure(VersionExists);
      }
      if !PassesSimulation(d.rules) {
        return Failure(EvaluatorRaised);
      }
      records := records[d.version := PolicyRecord(d, Draft, ChecksumOf(d), None)];
      return Success(d.version);
    }

    method ActivatePolicy(version: string, now: Time) returns (r: Result<string, PolicyError>)
      requires AtMostOneActive(records)
      modifies this
      ensures match Activated(old(records), version, now)
              case Failure(e) => r == Failure(e) && records == old(records)
              case Success(t) => r == Success(version) && records == t
    {
      if version !in records {
        return Failure(UnknownVersion);
      }
      if records[version].status == Active {
        return Failure(AlreadyActive);
      }
      if !Intact(records[version]) {
        return Failure(FailedIntegrityCheck);
      }
      if v :| v in records && IsActive(records, v) {
        ActiveVersionIs(records, v);
        records := records[v := records[v].(status := Retired)];
      } else {
        assert ActiveVersion(records).None?;
      }
      records := records[version := records[version].(status := Active, activatedAt := Some(now))];
      return Success(version);
    }

    method RollbackPolicy(now: Time) returns (r: Result<string, PolicyError>)
      requires AtMostOneActive(records)
      modifies this
      ensures match RolledBack(old(records), now)
              case Failure(e) => r == Failure(e) && records == old(records)
              case Success(t) => r.Success? && IsLatestRetired(old(records), r.value) && records == t
    {
      if v :| v in records && IsLatestRetired(records, v) {
        assert forall w :: IsLatestRetired(records, w) ==> w == v;
        r := ActivatePolicy(v, now);
      } else {
        return Failure(NothingToRollBack);
      }
    }
  }

  // ------------------------------------------------------------------ Runs

  /** What can happen to the store. Activations take `after` further units of time, so the clock strictly increases.
      `Edit` rewrites a stored document directly, outside the lifecycle. */
  datatype Event =
    | ReadActive(production: bool)
    | Propose(document: Document)
    | Activate(version: string, after: nat)
    | Rollback(after: nat)
    | Edit(edited: string, replacement: Document)

  /** The table, the latest time handed out, and every version that became active, in order. */
  datatype Lifecycle = Lifecycle(table: Table, clock: Time, history: seq<string>)

  ghost function Effect(s: Lifecycle, e: Event): Result<Table, PolicyError> {
    match e
    case ReadActive(production) => Settled(s.table, production)
    case Propose(document) => Proposed(s.table, document)
    case Activate(version, after) => Activated(s.table, version, s.clock + 1 + after)
    case Rollback(after) => RolledBack(s.table, s.clock + 1 + after)
    case Edit(edited, replacement) =>
      if edited in s.table then Success(s.table[edited := s.table[edited].(document := replacement)]) else Failure(UnknownVersion)
  }

  function Advanced(clock: Time, e: Event): Time {
    clock + 1 + match e case Activate(_, after) => after case Rollback(after) => after case _ => 0
  }

  ghost function Observed(history: seq<string>, t: Table): seq<string> {
    match ActiveVersion(t)
    case Some(v) => if history != [] && history[|history| - 1] == v then history else history + [v]
    case None => history
  }

  /** A failure rolls back. */
  ghost function Next(s: Lifecycle, e: Event): Lifecycle {
    var t := match Effect(s, e) case Success(t) => t case Failure(_) => s.table;
    Lifecycle(t, Advanced(s.clock, e), Observed(s.history, t))
  }

  ghost function Run(events: seq<Event>): Lifecycle {
    if events == [] then Lifecycle(map[], 0, []) else Next(Run(events[..|events| - 1]), events[|events| - 1])
  }

  ghost predicate ActiveIsLast(t: Table, history: seq<string>) {
    forall v :: IsActive(t, v) <==> history != [] && v == history[|history| - 1]
  }

  ghost predicate ActiveIsLatest(t: Table) {
    forall v, w :: IsActive(t, v) && IsRetired(t, w) ==> Later(t[v].activatedAt, t[w].activatedAt)
  }

  ghost predicate PreviousIsLatestRetired(t: Table, history: seq<string>) {
    if |history| >= 2 then IsLatestRetired(t, history[|history| - 2]) else forall w :: !IsRetired(t, w)
  }

  ghost predicate NoneLater(t: Table, clock: Time) {
    forall v :: v in t && t[v].activatedAt.Some? ==> t[v].activatedAt.value <= clock
  }

  /** The last version of the history is the active one, and its activation is the latest; the one before is the
      retired version activated last. */
  ghost predicate Invariant(s: Lifecycle) {
    && ActiveIsLast(s.table, s.history) && ActiveIsLatest(s.table)
    && PreviousIsLatestRetired(s.table, s.history) && NoneLater(s.table, s.clock)
  }

  lemma LastIsActive(t: Table, history: seq<string>)
    requires ActiveIsLast(t, history)
    ensures AtMostOneActive(t)
    ensures ActiveVersion(t) == if history == [] then None else Some(history[|history| - 1])
  {
    if history != [] {
      assert IsActive(t, history[|history| - 1]);
      ActiveVersionIs(t, history[|history| - 1]);
    }
  }

  lemma LastIsStored(t: Table, history: seq<string>)
    requires ActiveIsLast(t, history) && history != []
    ensures history[|history| - 1] in t
  {
    assert IsActive(t, history[|history| - 1]);
  }

  /** What an activation does to each row. */
  lemma ActivatedRows(t: Table, history: seq<string>, version: string, now: Time)
    requires ActiveIsLast(t, history) && Activated(t, version, now).Success?
    ensures version in t && !IsActive(t, version)
    ensures var u := Activated(t, version, now).value;
            && u.Keys == t.Keys && u[version].status == Active && u[version].activatedAt == Some(now)
            && forall v :: v in t && v != version ==> (
                   && u[v].activatedAt == t[v].activatedAt
                   && u[v].status == if history != [] && v == history[|history| - 1] then Retired else t[v].status)
  {
    LastIsActive(t, history);
    if history != [] {
      assert IsActive(t, history[|history| - 1]);
    }
  }

  lemma ActivationKeeps(s: Lifecycle, version: string, now: Time)
    requires Invariant(s) && now > s.clock && Activated(s.table, version, now).Success?
    ensures var t := Activated(s.table, version, now).value;
            Observed(s.history, t) == s.history + [version] && Invariant(Lifecycle(t, now, s.history + [version]))
  {
    var t, n := Activated(s.table, version, now).value, |s.history|;
    ActivatedRows(s.table, s.history, version, now);
    forall v ensures IsActive(t, v) <==> v == version {
      assert IsActive(s.table, v) <==> n > 0 && v == s.history[n - 1];
    }
    LastIsActive(t, s.history + [version]);
    assert n > 0 ==> IsActive(s.table, s.history[n - 1]);
    assert Observed(s.history, t) == s.history + [version];
    PreviousKept(s, t, version);
  }

  lemma PreviousKept(s: Lifecycle, t: Table, version: string)
    requires Invariant(s) && version in s.table && t.Keys == s.table.Keys && t[version].status == Active && !IsActive(s.table, version)
    requires forall v :: v in t && v != version ==> (
                 && t[v].activatedAt == s.table[v].activatedAt
                 && t[v].status == if s.history != [] && v == s.history[|s.history| - 1] then Retired else s.table[v].status)
    ensures PreviousIsLatestRetired(t, s.history + [version])
  {
    var n := |s.history|;
    if n > 0 {
      var p := s.history[n - 1];
      assert IsActive(s.table, p);
      forall w | IsRetired(t, w) && w != p ensures Later(t[p].activatedAt, t[w].activatedAt) {
        assert IsRetired(s.table, w);
      }
      assert IsLatestRetired(t, p);
    } else {
      forall w ensures !IsRetired(t, w) {
        assert !IsRetired(s.table, w);
      }
    }
  }

  /** Nothing but drafts is added and only documents are rewritten. */
  lemma RestKeeps(s: Lifecycle, t: Table, clock: Time)
    requires Invariant(s) && clock >= s.clock
    requires forall v :: v in s.table ==> v in t && t[v].status == s.table[v].status && t[v].activatedAt == s.table[v].activatedAt
    requires forall v :: v in t && v !in s.table ==> t[v].status == Draft && t[v].activatedAt.None?
    ensures Observed(s.history, t) == s.history && Invariant(Lifecycle(t, clock, s.history))
  {
    forall v ensures IsActive(t, v) <==> IsActive(s.table, v) {
    }
    forall v ensures IsRetired(t, v) <==> IsRetired(s.table, v) {
    }
    LastIsActive(t, s.history);
  }

  lemma SettledKeeps(s: Lifecycle, production: bool)
    requires Invariant(s)
    ensures Invariant(Next(s, ReadActive(production)))
  {
    hide DEFAULT_POLICY;
    var t := Next(s, ReadActive(production)).table;
    LastIsActive(s.table, s.history);
    if t == s.table {
      RestKeeps(s, t, s.clock + 1);
    } else {
      assert s.history == [];
      forall v ensures IsActive(t, v) <==> v == DEFAULT_POLICY.version {
        assert !IsActive(s.table, v);
      }
      forall v ensures !IsRetired(t, v) {
        assert !IsRetired(s.table, v);
      }
      LastIsActive(t, [DEFAULT_POLICY.version]);
    }
  }

  lemma InvariantKept(s: Lifecycle, e: Event)
    requires Invariant(s)
    ensures Invariant(Next(s, e))
  {
    hide Invariant, Activated, Settled, Observed, DocumentWellFormed, PassesSimulation, IsLatestRetired, DEFAULT_POLICY;
    if Effect(s, e).Failure? {
      RestKeeps(s, s.table, Advanced(s.clock, e));
    } else {
      match e {
        case ReadActive(production) => SettledKeeps(s, production);
        case Activate(version, after) => ActivationKeeps(s, version, s.clock + 1 + after);
        case Rollback(after) =>
          var v :| IsLatestRetired(s.table, v) && Effect(s, e) == Activated(s.table, v, s.clock + 1 + after);
          ActivationKeeps(s, v, s.clock + 1 + after);
        case Propose(document) => RestKeeps(s, Next(s, e).table, s.clock + 1);
        case Edit(edited, replacement) => RestKeeps(s, Next(s, e).table, s.clock + 1);
      }
    }
  }

  /** Over every run: at most one version is active, its activation is the latest of all, and the version active
      before it is the next candidate for a rollback. */
  lemma {:induction false} InvariantAlways(events: seq<Event>)
    ensures Invariant(Run(events)) && AtMostOneActive(Run(events).table)
  {
    if events != [] {
      InvariantAlways(events[..|events| - 1]);
      InvariantKept(Run(events[..|events| - 1]), events[|events| - 1]);
    }
    LastIsActive(Run(events).table, Run(events).history) by {
      InvariantMeans(Run(events));
    }
  }

  lemma InvariantMeans(s: Lifecycle)
    requires Invariant(s)
    ensures ActiveIsLast(s.table, s.history) && PreviousIsLatestRetired(s.table, s.history)
  {
  }

  /** A rollback that succeeds makes active the version that was active immediately before; it is refused only if
      no other version was ever active, or that version's document was edited. */
  lemma RollbackRestoresPrevious(events: seq<Event>, after: nat)
    ensures var s, t := Run(events), Run(events + [Rollback(after)]); var n := |s.history|;
            if n < 2 then t.table == s.table && t.history == s.history
            else
              var previous := s.history[n - 2];
              && previous in s.table
              && if Intact(s.table[previous])
                 then ActiveVersion(t.table) == Some(previous) && t.history == s.history + [previous]
                 else t.table == s.table && t.history == s.history
  {
    hide Invariant, Activated, Observed, IsLatestRetired;
    var s, e := Run(events), Rollback(after);
    assert (events + [e])[..|events|] == events;
    InvariantAlways(events);
    InvariantMeans(s);
    RollbackPicksPrevious(s);
    RollbackStep(s, after);
  }

  lemma RollbackStep(s: Lifecycle, after: nat)
    requires Invariant(s)
    ensures var t := Next(s, Rollback(after)); var n := |s.history|;
            if n < 2 then t.table == s.table && t.history == s.history
            else
              var previous := s.history[n - 2];
              && previous in s.table
              && if Intact(s.table[previous])
                 then ActiveVersion(t.table) == Some(previous) && t.history == s.history + [previous]
                 else t.table == s.table && t.history == s.history
  {
    var n, now := |s.history|, s.clock + 1 + after;
    RollbackPicksPrevious(s);
    if n >= 2 {
      var v := s.history[n - 2];
      assert IsLatestRetired(s.table, v);
      if Intact(s.table[v]) {
        ActivationKeeps(s, v, now);
        LastIsActive(Activated(s.table, v, now).value, s.history + [v]);
      }
    }
    if Effect(s, Rollback(after)).Failure? {
      RestKeeps(s, s.table, s.clock);
    }
  }

  lemma RollbackPicksPrevious(s: Lifecycle)
    requires Invariant(s)
    ensures forall v :: IsLatestRetired(s.table, v) <==> |s.history| >= 2 && v == s.history[|s.history| - 2]
    ensures |s.history| >= 2 ==> var v := s.history[|s.history| - 2]; v in s.table && !IsActive(s.table, v)
  {
  }

  /** The active version and the one before it are as they were proposed. */
  ghost predicate LastTwoIntact(s: Lifecycle) {
    var n := |s.history|;
    && n >= 2
    && (s.history[n - 1] in s.table ==> Intact(s.table[s.history[n - 1]]))
    && (s.history[n - 2] in s.table ==> Intact(s.table[s.history[n - 2]]))
  }

  lemma RunTwo(events: seq<Event>, a: Event, b: Event)
    ensures Run(events + [a, b]) == Next(Next(Run(events), a), b)
  {
    hide Next;
    assert (events + [a, b])[..|events| + 1] == events + [a];
    assert (events + [a])[..|events|] == events;
  }

  lemma RollbackKeepsIntact(s: Lifecycle, after: nat, v: string)
    requires v in s.table && Intact(s.table[v])
    ensures v in Next(s, Rollback(after)).table && Intact(Next(s, Rollback(after)).table[v])
  {
    hide IsLatestRetired, ActiveVersion;
  }

  /** Two rollbacks in a row return to the version they started from. */
  lemma TwoRollbacksReturn(events: seq<Event>, first: nat, second: nat)
    requires LastTwoIntact(Run(events))
    ensures ActiveVersion(Run(events + [Rollback(first), Rollback(second)]).table) == ActiveVersion(Run(events).table)
  {
    hide Run, Next, Invariant, ActiveVersion, Intact;
    var s := Run(events);
    RunTwo(events, Rollback(first), Rollback(second));
    InvariantAlways(events);
    InvariantMeans(s);
    LastIsActive(s.table, s.history);
    LastIsStored(s.table, s.history);
    RollbackStep(s, first);
    RollbackKeepsIntact(s, first, s.history[|s.history| - 1]);
    InvariantKept(s, Rollback(first));
    RollbackStep(Next(s, Rollback(first)), second);
  }

  // ------------------------------------------------------------------ Edits outside the lifecycle

  /** The document passed validation and simulation, or is the built-in one. */
  ghost predicate Accepted(d: Document) {
    d == DEFAULT_POLICY || (DocumentWellFormed(d) && PassesSimulation(d.rules))
  }

  ghost predicate Genuine(t: Table) {
    forall v :: v in t ==> t[v].checksum.document.version == v && Accepted(t[v].checksum.document)
  }

  /** Versions are never removed, and their checksums never change. */
  ghost predicate Extends(t: Table, u: Table) {
    forall v :: v in t ==> v in u && u[v].checksum == t[v].checksum
  }

  lemma StepExtends(s: Lifecycle, e: Event)
    requires Genuine(s.table)
    ensures Genuine(Next(s, e).table) && Extends(s.table, Next(s, e).table)
  {
    hide DEFAULT_POLICY, DocumentWellFormed, PassesSimulation, IsLatestRetired, Observed, Activated, ActiveVersion;
    if Effect(s, e).Success? {
      match e {
        case ReadActive(_) => assert Accepted(DEFAULT_POLICY);
        case Propose(_) =>
        case Activate(version, after) => ActivatedExtends(s.table, version, s.clock + 1 + after);
        case Rollback(after) =>
          var v :| IsLatestRetired(s.table, v) && Effect(s, e) == Activated(s.table, v, s.clock + 1 + after);
          ActivatedExtends(s.table, v, s.clock + 1 + after);
        case Edit(_, _) =>
      }
    }
  }

  lemma ActivatedExtends(t: Table, version: string, now: Time)
    requires Genuine(t) && Activated(t, version, now).Success?
    ensures Genuine(Activated(t, version, now).value) && Extends(t, Activated(t, version, now).value)
  {
    hide Accepted;
  }

  lemma {:induction false} RunIsGenuine(events: seq<Event>, n: nat)
    requires n <= |events|
    ensures Genuine(Run(events).table) && Genuine(Run(events[..n]).table) && Extends(Run(events[..n]).table, Run(events).table)
  {
    hide Next, Accepted;
    if n < |events| {
      assert events[..|events| - 1][..n] == events[..n];
      RunIsGenuine(events[..|events| - 1], n);
      StepExtends(Run(events[..|events| - 1]), events[|events| - 1]);
    } else if events != [] {
      assert events[..n] == events;
      RunIsGenuine(events[..|events| - 1], n - 1);
      StepExtends(Run(events[..|events| - 1]), events[|events| - 1]);
    } else {
      assert events[..n] == events;
    }
  }

  /** What `ActivePolicy` hands out once something is active: the active version's document, if it is intact. */
  ghost function Honoured(t: Table): Option<Document> {
    match ActiveVersion(t)
    case Some(v) => if v in t && Intact(t[v]) then Some(t[v].document) else None
    case None => None
  }

  /** Direct edits are never honoured: whatever happened before, a document handed out was accepted, and a version
      never stands for two documents over the same run. */
  lemma HonouredWasAccepted(events: seq<Event>, n: nat)
    requires n <= |events|
    ensures var later, sooner := Honoured(Run(events).table), Honoured(Run(events[..n]).table);
            && (later.Some? ==> Accepted(later.value))
            && (later.Some? && sooner.Some? && later.value.version == sooner.value.version ==> later == sooner)
  {
    hide Run, Accepted;
    RunIsGenuine(events, n);
  }

  /** An edit rewrites the document alone. From then on nothing is handed out under the version, unless the document is put
      back to the one its checksum was taken of. */
  lemma EditStopsVersion(events: seq<Event>, v: string, d: Document)
    requires v in Run(events).table
    ensures var t, u := Run(events).table, Run(events + [Edit(v, d)]).table;
            && u == t[v := PolicyRecord(d, t[v].status, t[v].checksum, t[v].activatedAt)]
            && (t[v].status == Active ==> Honoured(u) == if t[v].checksum == ChecksumOf(d) then Some(d) else None)
  {
    assert (events + [Edit(v, d)])[..|events|] == events;
    InvariantAlways(events + [Edit(v, d)]);
    var t, u := Run(events).table, Run(events + [Edit(v, d)]).table;
    if t[v].status == Active {
      ActiveVersionIs(u, v);
    }
  }
}
