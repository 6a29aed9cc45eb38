/** The hash-chained audit log and its signed anchors. */
module Audit {
  import opened Wrappers
  import opened Contracts

  /** Hashes as free constructors: a digest determines what was hashed and is never GENESIS.
      `Text` is any other string a column may hold. */
  datatype Hash =
    | Genesis
    | DigestV1(content: string, ts: Option<Time>, prev: Hash)
    | DigestV2(content: string, ts: Option<Time>, version: int, tenant: Option<Tenant>, prev: Hash)
    | Text(text: string)

  /** `content` stands for the chained fields together; a version of 0 stands for an absent one. */
  datatype AuditRecord = AuditRecord(
    number: int, content: string, ts: Option<Time>, hashVersion: int, tenant: Option<Tenant>, prevHash: Hash, hash: Hash)

  /** Version 1 hashes cover neither the version nor the tenant. No version covers `number`. */
  function RecordHash(r: AuditRecord, prev: Hash): Hash {
    if (if r.hashVersion == 0 then 1 else r.hashVersion) >= 2
    then DigestV2(r.content, r.ts, r.hashVersion, r.tenant, prev)
    else DigestV1(r.content, r.ts, prev)
  }

  /** The rows of the table in ascending order of their primary key. */
  ghost predicate Ordered(log: seq<AuditRecord>) {
    forall i, j :: 0 <= i < j < |log| ==> log[i].number < log[j].number
  }

  function HeadHash(log: seq<AuditRecord>): Hash {
    if log == [] then Genesis else log[|log| - 1].hash
  }

  predicate Linked(log: seq<AuditRecord>, i: nat)
    requires i < |log|
  {
    log[i].prevHash == HeadHash(log[..i]) && log[i].hash == RecordHash(log[i], HeadHash(log[..i]))
  }

  ghost predicate Chained(log: seq<AuditRecord>) {
    forall i :: 0 <= i < |log| ==> Linked(log, i)
  }

  /** A record is linked if it names its predecessor's hash, the genesis value for the first, and its own hash covers its
      content, its time and that value, and from version 2 on also its version and tenant. */
  lemma LinkedExactly(log: seq<AuditRecord>, i: nat)
    requires i < |log|
    ensures Linked(log, i) <==>
            var r := log[i];
            && r.prevHash == (if i == 0 then Genesis else log[i - 1].hash)
            && r.hash == if r.hashVersion <= 1 then DigestV1(r.content, r.ts, r.prevHash)
                         else DigestV2(r.content, r.ts, r.hashVersion, r.tenant, r.prevHash)
  {
  }

  datatype Verdict = Verdict(ok: bool, records: nat, firstBrokenSeq: Option<int>)

  /** Reports success exactly on chained logs, and otherwise the earliest record that breaks the chain. */
  method VerifyChain(log: seq<AuditRecord>) returns (v: Verdict)
    ensures v.records == |log|
    ensures v.ok <==> Chained(log)
    ensures v.ok <==> v.firstBrokenSeq.None?
    ensures !v.ok ==> exists i :: 0 <= i < |log| && v.firstBrokenSeq == Some(log[i].number) && !Linked(log, i) && Chained(log[..i])
  {
    var prev := Genesis;
    for i := 0 to |log|
      invariant prev == HeadHash(log[..i])
      invariant forall k :: 0 <= k < i ==> Linked(log, k)
    {
      var r := log[i];
      if r.prevHash != prev || r.hash != RecordHash(r, prev) {
        assert !Linked(log, i);
        forall k | 0 <= k < i ensures Linked(log[..i], k) {
          assert log[..i][..k] == log[..k];
          assert Linked(log, k);
        }
        return Verdict(false, |log|, Some(r.number));
      }
      prev := r.hash;
      assert log[..i + 1][i] == r;
    }
    return Verdict(true, |log|, None);
  }

  // ------------------------------------------------------------------ Concurrent appends

  /** The committed log and, for each appender between its two steps, the head hash it read. */
  datatype Appenders = Appenders(log: seq<AuditRecord>, heads: map<nat, Hash>)

  /** An appender reads the head; later it inserts a record on top of what it read. Sequence numbers come from
      a counter, so they grow, perhaps with gaps. */
  datatype AppendStep =
    | ReadHead(who: nat)
    | Insert(who: nat, number: int, content: string, ts: Option<Time>, tenant: Option<Tenant>)

  function NewRecord(number: int, content: string, ts: Option<Time>, tenant: Option<Tenant>, prev: Hash): AuditRecord {
    AuditRecord(number, content, ts, 2, tenant, prev, DigestV2(content, ts, 2, tenant, prev))
  }

  /** The unique constraints on `prev_hash` and `hash` refuse an insertion without any effect on the log. */
  predicate Unique(log: seq<AuditRecord>, r: AuditRecord) {
    forall s :: s in log ==> s.prevHash != r.prevHash && s.hash != r.hash
  }

  function Append(a: Appenders, step: AppendStep): Appenders {
    match step
    case ReadHead(who) => a.(heads := a.heads[who := HeadHash(a.log)])
    case Insert(who, number, content, ts, tenant) =>
      if who !in a.heads || (a.log != [] && number <= a.log[|a.log| - 1].number) then a
      else
        var r := NewRecord(number, content, ts, tenant, a.heads[who]);
        if Unique(a.log, r) then a.(log := a.log + [r], heads := a.heads - {who}) else a.(heads := a.heads - {who})
  }

  function AppendAll(a: Appenders, steps: seq<AppendStep>): Appenders {
    if steps == [] then a else Append(AppendAll(a, steps[..|steps| - 1]), steps[|steps| - 1])
  }

  /** Every head an appender holds was the head of the log at some time. */
  ghost predicate HeadsWereRead(a: Appenders) {
    ReadFrom(a.heads, a.log)
  }

  lemma ChainedSnoc(log: seq<AuditRecord>, r: AuditRecord)
    ensures Chained(log + [r]) <==>
            Chained(log) && r.prevHash == HeadHash(log) && r.hash == RecordHash(r, HeadHash(log))
  {
    var longer := log + [r];
    assert longer[..|log|] == log;
    assert forall i :: 0 <= i < |log| ==> longer[..i] == log[..i] && longer[i] == log[i];
    if Chained(longer) {
      assert Linked(longer, |log|);
      forall i | 0 <= i < |log| ensures Linked(log, i) {
        assert Linked(longer, i);
      }
    }
    if Chained(log) && r.prevHash == HeadHash(log) && r.hash == RecordHash(r, HeadHash(log)) {
      forall i | 0 <= i < |longer| ensures Linked(longer, i) {
        assert i < |log| ==> Linked(log, i);
      }
    }
  }

  /** A head that was read earlier is taken: some record already names it as its predecessor. */
  lemma FreshHeadIsLast(log: seq<AuditRecord>, r: AuditRecord, i: nat)
    requires Chained(log) && Unique(log, r) && i <= |log| && r.prevHash == HeadHash(log[..i])
    ensures i == |log|
  {
    forall k | 0 <= k < |log| ensures HeadHash(log[..k]) != r.prevHash {
      assert Linked(log, k) && log[k] in log;
    }
  }

  ghost predicate ReadFrom(heads: map<nat, Hash>, log: seq<AuditRecord>) {
    forall w :: w in heads ==> exists i :: 0 <= i <= |log| && heads[w] == HeadHash(log[..i])
  }

  lemma HeadsStillRead(heads: map<nat, Hash>, log: seq<AuditRecord>, r: AuditRecord)
    requires ReadFrom(heads, log)
    ensures ReadFrom(heads, log + [r])
  {
    hide HeadHash;
    forall w | w in heads ensures exists k :: 0 <= k <= |log + [r]| && heads[w] == HeadHash((log + [r])[..k]) {
      var k :| 0 <= k <= |log| && heads[w] == HeadHash(log[..k]);
      assert (log + [r])[..k] == log[..k];
    }
  }

  lemma InsertKeepsChain(a: Appenders, r: AuditRecord, who: nat)
    requires Chained(a.log) && HeadsWereRead(a) && who in a.heads && r.prevHash == a.heads[who]
    requires r.hash == RecordHash(r, r.prevHash) && Unique(a.log, r)
    ensures Chained(a.log + [r])
  {
    hide Chained, RecordHash, Unique, HeadHash;
    var i :| 0 <= i <= |a.log| && a.heads[who] == HeadHash(a.log[..i]);
    FreshHeadIsLast(a.log, r, i);
    assert a.log[..|a.log|] == a.log;
    ChainedSnoc(a.log, r);
  }

  lemma AppendKeepsChain(a: Appenders, step: AppendStep)
    requires Chained(a.log) && Ordered(a.log) && HeadsWereRead(a)
    ensures var b := Append(a, step); Chained(b.log) && Ordered(b.log) && HeadsWereRead(b) && a.log <= b.log
  {
    hide Chained, Unique;
    var b := Append(a, step);
    match step {
      case ReadHead(who) =>
        assert a.log[..|a.log|] == a.log;
      case Insert(who, number, content, ts, tenant) =>
        if b.log != a.log {
          var r := NewRecord(number, content, ts, tenant, a.heads[who]);
          InsertKeepsChain(a, r, who);
          assert b.log == a.log + [r] && b.heads.Keys <= a.heads.Keys;
          HeadsStillRead(a.heads, a.log, r);
          assert Ordered(b.log);
        }
    }
  }

  /** However many appenders interleave, the log stays chained and ordered, and only ever grows. */
  lemma {:induction false} AppendersKeepChain(a: Appenders, steps: seq<AppendStep>)
    requires Chained(a.log) && Ordered(a.log) && a.heads == map[]
    ensures var b := AppendAll(a, steps); Chained(b.log) && Ordered(b.log) && HeadsWereRead(b) && a.log <= b.log
  {
    hide Append, Chained;
    if steps != [] {
      AppendersKeepChain(a, steps[..|steps| - 1]);
      AppendKeepsChain(AppendAll(a, steps[..|steps| - 1]), steps[|steps| - 1]);
    }
  }

  // ------------------------------------------------------------------ The head determines the log

  /** Two records agree on everything their hashes cover: for version 2 hashes that includes version and tenant,
      and a version 2 record never agrees with a version 1 record. */
  ghost predicate SameHashed(r: AuditRecord, s: AuditRecord) {
    && r.content == s.content && r.ts == s.ts && r.prevHash == s.prevHash && r.hash == s.hash
    && (r.hashVersion >= 2 <==> s.hashVersion >= 2)
    && (r.hashVersion >= 2 ==> r.hashVersion == s.hashVersion && r.tenant == s.tenant)
  }

  lemma HeadOfChained(log: seq<AuditRecord>)
    requires Chained(log) && log != []
    ensures HeadHash(log) != Genesis
    ensures Chained(log[..|log| - 1])
    ensures log[|log| - 1].prevHash == HeadHash(log[..|log| - 1])
    ensures HeadHash(log) == RecordHash(log[|log| - 1], HeadHash(log[..|log| - 1]))
  {
    assert log == log[..|log| - 1] + [log[|log| - 1]];
    ChainedSnoc(log[..|log| - 1], log[|log| - 1]);
  }

  /** Two verifying logs with the same head hash have the same length and the same hashed content, record by record. */
  lemma {:induction false} HeadDeterminesLog(a: seq<AuditRecord>, b: seq<AuditRecord>)
    requires Chained(a) && Chained(b) && HeadHash(a) == HeadHash(b)
    ensures |a| == |b| && forall i :: 0 <= i < |a| ==> SameHashed(a[i], b[i])
  {
    if a != [] {
      HeadOfChained(a);
    }
    if b != [] {
      HeadOfChained(b);
    }
    if a != [] && b != [] {
      HeadDeterminesLog(a[..|a| - 1], b[..|b| - 1]);
    }
  }

  /** An appender that still holds the head is never refused: no record names the head as its predecessor yet. */
  lemma HeadIsFree(log: seq<AuditRecord>, r: AuditRecord)
    requires Chained(log) && r.prevHash == HeadHash(log) && r.hash == RecordHash(r, r.prevHash)
    ensures Unique(log, r)
  {
    forall s | s in log ensures s.prevHash != r.prevHash && s.hash != r.hash {
      var i :| 0 <= i < |log| && log[i] == s;
      assert Linked(log, i);
      PrefixIsChained(log, i);
      if HeadHash(log[..i]) == HeadHash(log) {
        HeadDeterminesLog(log[..i], log);
      }
    }
  }

  /** An insertion adds exactly its record, if its appender has read a head, its number is beyond the last, and no record
      names that head as its predecessor or has its hash; otherwise the log stays as it is. */
  lemma InsertExactly(a: Appenders, who: nat, number: int, content: string, ts: Option<Time>, tenant: Option<Tenant>)
    ensures var t := Append(a, Insert(who, number, content, ts, tenant)).log;
            if who in a.heads && (a.log != [] ==> a.log[|a.log| - 1].number < number)
               && (forall s :: s in a.log ==> s.prevHash != a.heads[who] && s.hash != DigestV2(content, ts, 2, tenant, a.heads[who]))
            then t == a.log + [AuditRecord(number, content, ts, 2, tenant, a.heads[who], DigestV2(content, ts, 2, tenant, a.heads[who]))]
            else t == a.log
  {
  }

  /** Of the appenders that wait, exactly those that hold the present head can insert. */
  lemma InsertNeedsHead(a: Appenders, who: nat, number: int, content: string, ts: Option<Time>, tenant: Option<Tenant>)
    requires Chained(a.log) && HeadsWereRead(a) && who in a.heads && (a.log != [] ==> a.log[|a.log| - 1].number < number)
    ensures Append(a, Insert(who, number, content, ts, tenant)).log != a.log <==> a.heads[who] == HeadHash(a.log)
  {
    hide Chained, Unique, HeadHash;
    var r := NewRecord(number, content, ts, tenant, a.heads[who]);
    assert a.log[..|a.log|] == a.log;
    if a.heads[who] == HeadHash(a.log) {
      HeadIsFree(a.log, r);
    } else if Unique(a.log, r) {
      var i :| 0 <= i <= |a.log| && a.heads[who] == HeadHash(a.log[..i]);
      FreshHeadIsLast(a.log, r, i);
    }
  }

  /** After any interleaving, an appender that reads the head and inserts before anyone else does gets its record in; one
      that is overtaken by another's record does not. */
  lemma OvertakenLosesExactly(
    a: Appenders, steps: seq<AppendStep>, between: seq<AppendStep>, who: nat, number: int, content: string, ts: Option<Time>, tenant: Option<Tenant>)
    requires Chained(a.log) && Ordered(a.log) && a.heads == map[]
    requires var held := AppendAll(a, steps + [ReadHead(who)] + between);
             who in held.heads && (held.log != [] ==> held.log[|held.log| - 1].number < number)
    requires forall k :: 0 <= k < |between| ==> between[k] != ReadHead(who)
    ensures var held := AppendAll(a, steps + [ReadHead(who)] + between);
            var after := AppendAll(a, steps + [ReadHead(who)] + between + [Insert(who, number, content, ts, tenant)]);
            after.log != held.log <==> held.log == AppendAll(a, steps).log
  {
    hide Chained, Unique, HeadHash, Append;
    var run := steps + [ReadHead(who)] + between;
    var held := AppendAll(a, run);
    AppendersKeepChain(a, run);
    AppendersKeepChain(a, steps);
    HeldSince(a, steps, between, who);
    assert (run + [Insert(who, number, content, ts, tenant)])[..|run|] == run;
    InsertNeedsHead(held, who, number, content, ts, tenant);
    if HeadHash(AppendAll(a, steps).log) == HeadHash(held.log) {
      HeadDeterminesLog(AppendAll(a, steps).log, held.log);
    }
  }

  /** After any interleaving, an appender whom nobody disturbs gets exactly its record in. */
  lemma UndisturbedAppends(
    a: Appenders, steps: seq<AppendStep>, who: nat, number: int, content: string, ts: Option<Time>, tenant: Option<Tenant>)
    requires Chained(a.log) && Ordered(a.log) && a.heads == map[]
    requires forall r :: r in AppendAll(a, steps).log ==> r.number < number
    ensures var log := AppendAll(a, steps).log;
            var prev := if log == [] then Genesis else log[|log| - 1].hash;
            AppendAll(a, steps + [ReadHead(who)] + [Insert(who, number, content, ts, tenant)]).log ==
            log + [AuditRecord(number, content, ts, 2, tenant, prev, DigestV2(content, ts, 2, tenant, prev))]
  {
    hide Chained, Unique;
    var run := steps + [ReadHead(who)];
    assert run[..|steps|] == steps && (run + [Insert(who, number, content, ts, tenant)])[..|run|] == run;
    var held := AppendAll(a, run);
    AppendersKeepChain(a, run);
    assert forall r :: r in held.log ==> r.number < number;
    InsertNeedsHead(held, who, number, content, ts, tenant);
  }

  /** Whoever still holds a head holds the one it read. */
  lemma {:induction false} HeldSince(a: Appenders, steps: seq<AppendStep>, between: seq<AppendStep>, who: nat)
    requires forall k :: 0 <= k < |between| ==> between[k] != ReadHead(who)
    requires Chained(a.log) && Ordered(a.log) && a.heads == map[]
    ensures var held := AppendAll(a, steps + [ReadHead(who)] + between);
            && AppendAll(a, steps).log <= held.log
            && (who in held.heads ==> held.heads[who] == HeadHash(AppendAll(a, steps).log))
  {
    hide Chained, Ordered, Unique, HeadHash;
    var run := steps + [ReadHead(who)] + between;
    if between == [] {
      assert run[..|run| - 1] == steps;
    } else {
      var before := steps + [ReadHead(who)] + between[..|between| - 1];
      assert run[..|run| - 1] == before && run[|run| - 1] == between[|between| - 1];
      HeldSince(a, steps, between[..|between| - 1], who);
    }
  }

  class AuditLog {
    var records: seq<AuditRecord>

    constructor ()
      ensures Chained(records) && Ordered(records) && records == []
    {
      records := [];
    }

    /** Predecessor lookup, hashing and insertion under the chain lock: never refused, and keeps the chain. */
    method Append(number: int, content: string, ts: Time, tenant: Option<Tenant>) returns (record: AuditRecord)
      requires Chained(records) && Ordered(records)
      requires records != [] ==> number > records[|records| - 1].number
      modifies this
      ensures records == old(records) + [record] && Chained(records) && Ordered(records)
      ensures record.number == number && record.content == content && record.ts == Some(ts) && record.tenant == tenant
      ensures record.hashVersion == 2 && Unique(old(records), record)
    {
      var prev := if records == [] then Genesis else records[|records| - 1].hash;
      record := AuditRecord(number, content, Some(ts), 2, tenant, prev, Text(""));
      record := record.(hash := RecordHash(record, record.prevHash));
      HeadIsFree(records, record);
      ChainedSnoc(records, record);
      records := records + [record];
    }
  }

  // ------------------------------------------------------------------ Anchors

  type Key = string

  /** What an anchor signs: a sequence number, the hash found there, and the time. */
  datatype Payload = Payload(number: int, hash: Option<Hash>, anchoredAt: Time)

  /** A signature verifies under a key for a payload exactly if it was made with that key for that payload. */
  datatype Signature = SignedWith(key: Key, payload: Payload) | Forged

  /** A line of the anchor file. A time that is absent, malformed or without a zone reads as `None`. */
  datatype Anchor =
    | Malformed
    | Anchor(number: int, hash: Option<Hash>, anchoredAt: Option<Time>, signature: Signature, publicKey: Key)

  datatype Storage = Missing | Unreadable | Lines(anchors: seq<Anchor>)

  datatype AnchorFailure =
    | StorageMissing | StorageUnreadable | StorageEmpty | MalformedAnchor | UntrustedKey | InvalidOrder | InvalidSignature
    | NoLongerMatches | BelowMinimum | StaleOrFuture

  datatype Settings = Settings(trusted: set<Key>, minimum: int, maxAge: int, now: Time)

  /** Signs the current chain head and appends it to the anchor file. */
  method AnchorChain(log: seq<AuditRecord>, file: seq<Anchor>, key: Key, now: Time) returns (r: Option<seq<Anchor>>)
    ensures r.None? <==> log == []
    ensures log != [] ==> r == Some(file + [HeadAnchor(log, key, now)])
  {
    if log == [] {
      return None;
    }
    var head := log[|log| - 1];
    var p := Payload(head.number, Some(head.hash), now);
    return Some(file + [Anchor(p.number, p.hash, Some(now), SignedWith(key, p), key)]);
  }

  predicate Records(log: seq<AuditRecord>, number: int, hash: Hash) {
    exists r :: r in log && r.number == number && r.hash == hash
  }

  /** The log has the given hash at the given sequence number; an anchor without a hash matches only a number
      the log does not have. */
  predicate Matches(log: seq<AuditRecord>, number: int, hash: Option<Hash>) {
    match hash
    case Some(h) => Records(log, number, h)
    case None => forall r :: r in log ==> r.number != number
  }

  /** Anchor `i` is well formed, signed by a trusted key, not before its predecessor in sequence or time, and the
      log still records its hash at its sequence number. */
  ghost predicate AnchorHolds(log: seq<AuditRecord>, anchors: seq<Anchor>, i: nat, settings: Settings)
    requires i < |anchors|
  {
    var a := anchors[i];
    && a.Anchor? && a.publicKey in settings.trusted && a.anchoredAt.Some?
    && a.number >= (if i > 0 && anchors[i - 1].Anchor? then anchors[i - 1].number else 0)
    && (i > 0 && anchors[i - 1].Anchor? && anchors[i - 1].anchoredAt.Some? ==> a.anchoredAt.value >= anchors[i - 1].anchoredAt.value)
    && a.signature == SignedWith(a.publicKey, Payload(a.number, a.hash, a.anchoredAt.value))
    && Matches(log, a.number, a.hash)
  }

  ghost predicate AnchorsHold(log: seq<AuditRecord>, storage: Storage, settings: Settings) {
    && storage.Lines? && storage.anchors != []
    && (forall i :: 0 <= i < |storage.anchors| ==> AnchorHolds(log, storage.anchors, i, settings))
    && var last := storage.anchors[|storage.anchors| - 1];
       && last.Anchor? && last.anchoredAt.Some? && last.number >= settings.minimum
       && last.anchoredAt.value <= settings.now <= last.anchoredAt.value + settings.maxAge
  }

  predicate Index(hashes: map<int, Hash>, n: int, h: Hash) {
    n in hashes && hashes[n] == h
  }

  /** `hashes` gives the hash at each sequence number. */
  ghost predicate Indexes(hashes: map<int, Hash>, log: seq<AuditRecord>) {
    forall n, h :: Index(hashes, n, h) <==> Records(log, n, h)
  }

  method HashesByNumber(log: seq<AuditRecord>) returns (hashes: map<int, Hash>)
    requires Ordered(log)
    ensures Indexes(hashes, log)
  {
    hashes := map[];
    for i := 0 to |log|
      invariant Indexes(hashes, log[..i])
    {
      ghost var before := hashes;
      hashes := hashes[log[i].number := log[i].hash];
      forall n, h ensures Index(hashes, n, h) <==> Records(log[..i + 1], n, h) {
        assert Index(before, n, h) <==> Records(log[..i], n, h);
      }
    }
    assert log[..|log|] == log;
  }

  lemma MatchesLookup(log: seq<AuditRecord>, hashes: map<int, Hash>, number: int, hash: Option<Hash>)
    requires Indexes(hashes, log)
    ensures Matches(log, number, hash) <==> (if number in hashes then Some(hashes[number]) else None) == hash
  {
    if number in hashes {
      assert Index(hashes, number, hashes[number]);
    }
    if hash.Some? {
      assert Index(hashes, number, hash.value) <==> Records(log, number, hash.value);
    }
    if hash.None? && number !in hashes {
      forall r | r in log ensures r.number != number {
        assert Records(log, r.number, r.hash);
      }
    }
  }

  /** What the checks of one line come to, given the sequence number and time of the line before it. */
  method CheckAnchor(a: Anchor, previousSeq: int, latestAt: Option<Time>, hashes: map<int, Hash>, settings: Settings)
    returns (failure: Option<AnchorFailure>, previous: int, latest: Option<Time>)
    ensures failure.None? <==>
            && a.Anchor? && a.publicKey in settings.trusted && a.anchoredAt.Some?
            && a.number >= previousSeq && (latestAt.Some? ==> a.anchoredAt.value >= latestAt.value)
            && a.signature == SignedWith(a.publicKey, Payload(a.number, a.hash, a.anchoredAt.value))
            && (if a.number in hashes then Some(hashes[a.number]) else None) == a.hash
    ensures failure.None? ==> a.Anchor? && previous == a.number && latest == a.anchoredAt
  {
    previous, latest := previousSeq, latestAt;
    if a.Malformed? {
      return Some(MalformedAnchor), previous, latest;
    }
    if a.publicKey !in settings.trusted {
      return Some(UntrustedKey), previous, latest;
    }
    if a.anchoredAt.None? || a.number < previousSeq || (latestAt.Some? && a.anchoredAt.value < latestAt.value) {
      return Some(InvalidOrder), previous, latest;
    }
    previous, latest := a.number, a.anchoredAt;
    if a.signature != SignedWith(a.publicKey, Payload(a.number, a.hash, a.anchoredAt.value)) {
      return Some(InvalidSignature), previous, latest;
    }
    if (if a.number in hashes then Some(hashes[a.number]) else None) != a.hash {
      return Some(NoLongerMatches), previous, latest;
    }
    return None, previous, latest;
  }

  /** Reports no failure exactly when every anchor holds and the last one is recent and far enough along. */
  method VerifyAnchors(log: seq<AuditRecord>, storage: Storage, settings: Settings) returns (ok: bool, failures: seq<AnchorFailure>)
    requires Ordered(log)
    ensures ok <==> failures == []
    ensures ok <==> AnchorsHold(log, storage, settings)
  {
    if storage.Missing? {
      return false, [StorageMissing];
    }
    var hashes := HashesByNumber(log);
    if storage.Unreadable? {
      return false, [StorageUnreadable];
    }
    var anchors := storage.anchors;
    if anchors == [] {
      return false, [StorageEmpty];
    }
    failures := [];
    var previousSeq := 0;
    var latestAt: Option<Time> := None;
    for i := 0 to |anchors|
      invariant failures == [] <==> forall k :: 0 <= k < i ==> AnchorHolds(log, anchors, k, settings)
      invariant failures == [] && i == 0 ==> previousSeq == 0 && latestAt == None
      invariant failures == [] && i > 0 ==> (
                    && anchors[i - 1].Anchor? && anchors[i - 1].anchoredAt.Some?
                    && previousSeq == anchors[i - 1].number && latestAt == anchors[i - 1].anchoredAt)
    {
      var failure;
      failure, previousSeq, latestAt := CheckAnchor(anchors[i], previousSeq, latestAt, hashes, settings);
      if anchors[i].Anchor? {
        MatchesLookup(log, hashes, anchors[i].number, anchors[i].hash);
      }
      if failure.Some? {
        assert failures == [] ==> !AnchorHolds(log, anchors, i, settings);
        failures := failures + [failure.value];
      }
    }
    if previousSeq < settings.minimum {
      failures := failures + [BelowMinimum];
    }
    if latestAt.None? || !(0 <= settings.now - latestAt.value <= settings.maxAge) {
      failures := failures + [StaleOrFuture];
    }
    ok := failures == [];
  }

  /** A past call of `AnchorChain`: what it signed, and the log whose head that was. */
  datatype Signing = Signing(key: Key, payload: Payload, log: seq<AuditRecord>)

  /** Trusted keys sign only the heads of logs that verified at the time. */
  ghost predicate Unforged(anchors: seq<Anchor>, trusted: set<Key>, history: set<Signing>) {
    && (forall s :: s in history ==>
          Chained(s.log) && s.log != [] && s.payload.number == s.log[|s.log| - 1].number && s.payload.hash == Some(HeadHash(s.log)))
    && (forall a :: a in anchors && a.Anchor? && a.publicKey in trusted && a.signature.SignedWith? && a.signature.key == a.publicKey ==>
          exists s :: s in history && s.key == a.publicKey && s.payload == a.signature.payload)
  }

  /** The records of `log` up to sequence number `number` carry the same hashed content as all of `signed`. */
  ghost predicate Pins(log: seq<AuditRecord>, number: int, signed: seq<AuditRecord>) {
    && 0 < |signed| <= |log| && log[|signed| - 1].number == number
    && forall k :: 0 <= k < |signed| ==> SameHashed(log[k], signed[k])
  }

  /** If the chain and the anchors both verify, every anchor pins the history it was signed over. */
  lemma AnchorsPinHistory(log: seq<AuditRecord>, storage: Storage, settings: Settings, history: set<Signing>, i: nat)
    requires Chained(log) && AnchorsHold(log, storage, settings)
    requires Unforged(storage.anchors, settings.trusted, history) && i < |storage.anchors|
    ensures var a := storage.anchors[i];
            && a.Anchor? && a.signature.SignedWith?
            && exists s :: s in history && s.key == a.publicKey && s.payload == a.signature.payload && Pins(log, a.number, s.log)
  {
    var a := storage.anchors[i];
    assert AnchorHolds(log, storage.anchors, i, settings);
    assert a in storage.anchors;
    var s :| s in history && s.key == a.publicKey && s.payload == a.signature.payload;
    var p :| 0 <= p < |log| && log[p].number == a.number && Some(log[p].hash) == a.hash;
    assert log[..p + 1][p] == log[p];
    PrefixIsChained(log, p + 1);
    HeadDeterminesLog(log[..p + 1], s.log);
  }

  lemma PrefixIsChained(log: seq<AuditRecord>, n: nat)
    requires Chained(log) && n <= |log|
    ensures Chained(log[..n])
  {
    forall i | 0 <= i < n ensures Linked(log[..n], i) {
      assert log[..n][..i] == log[..i];
      assert Linked(log, i);
    }
  }

  // ------------------------------------------------------------------ Anchors without a hash

  /** The log has the record the anchor names. */
  ghost predicate Shown(log: seq<AuditRecord>, a: Anchor) {
    a.Anchor? && a.hash.Some? && Records(log, a.number, a.hash.value)
  }

  /** Wherever the anchor is accepted, the record it names is there. */
  ghost predicate Guarantees(a: Anchor) {
    forall log, anchors, settings :: Chained(log) && AnchorsHold(log, Lines(anchors), settings) && a in anchors ==> Shown(log, a)
  }

  /** The anchor is well signed: it is accepted wherever its key is trusted and the log agrees. */
  predicate WellSigned(a: Anchor) {
    && a.Anchor? && a.anchoredAt.Some? && a.number >= 0
    && a.signature == SignedWith(a.publicKey, Payload(a.number, a.hash, a.anchoredAt.value))
  }

  lemma HoldingIsSigned(log: seq<AuditRecord>, anchors: seq<Anchor>, settings: Settings, i: nat)
    requires AnchorsHold(log, Lines(anchors), settings) && i < |anchors|
    ensures WellSigned(anchors[i]) && (anchors[i].hash.Some? ==> Shown(log, anchors[i]))
  {
    assert AnchorHolds(log, anchors, i, settings);
    AnchorsNeverGoBack(log, Lines(anchors), settings, 0, i);
    assert AnchorHolds(log, anchors, 0, settings);
  }

  function Trusting(a: Anchor): Settings
    requires WellSigned(a)
  {
    Settings({a.publicKey}, a.number, 0, a.anchoredAt.value)
  }

  /** A well-signed anchor without a hash is accepted over an empty log, whatever its number. */
  lemma HashlessIsAccepted(a: Anchor)
    requires WellSigned(a) && a.hash.None?
    ensures AnchorsHold([], Lines([a]), Trusting(a))
  {
    assert AnchorHolds([], [a], 0, Trusting(a));
  }

  /** An accepted anchor shows that the log has the record it names exactly if it carries a hash. */
  lemma AnchorGuaranteesExactly(a: Anchor)
    requires WellSigned(a)
    ensures Guarantees(a) <==> a.hash.Some?
  {
    if a.hash.Some? {
      forall log, anchors, settings | Chained(log) && AnchorsHold(log, Lines(anchors), settings) && a in anchors ensures Shown(log, a) {
        var i :| 0 <= i < |anchors| && anchors[i] == a;
        HoldingIsSigned(log, anchors, settings, i);
      }
    } else {
      HashlessIsAccepted(a);
      assert Chained([]) && a in [a] && !Shown([], a);
    }
  }

  /** Anchors that hold never go back, in sequence or in time. */
  lemma {:induction false} AnchorsNeverGoBack(log: seq<AuditRecord>, storage: Storage, settings: Settings, i: nat, j: nat)
    requires AnchorsHold(log, storage, settings) && i <= j < |storage.anchors|
    ensures storage.anchors[i].Anchor? && storage.anchors[j].Anchor?
    ensures storage.anchors[i].number <= storage.anchors[j].number
    ensures storage.anchors[i].anchoredAt.Some? && storage.anchors[j].anchoredAt.Some?
    ensures storage.anchors[i].anchoredAt.value <= storage.anchors[j].anchoredAt.value
  {
    assert AnchorHolds(log, storage.anchors, j, settings);
    if i < j {
      assert AnchorHolds(log, storage.anchors, j - 1, settings);
      AnchorsNeverGoBack(log, storage, settings, i, j - 1);
    }
  }

  /** What `AnchorChain` appends for the head of a log. */
  function HeadAnchor(log: seq<AuditRecord>, key: Key, now: Time): Anchor
    requires log != []
  {
    var p := Payload(log[|log| - 1].number, Some(HeadHash(log)), now);
    Anchor(p.number, p.hash, Some(now), SignedWith(key, p), key)
  }

  /** Honest growth never trips the verifier: extend a log whose anchors hold and anchor its new head with a
      trusted key and a clock that did not go back, and the anchors hold again. */
  lemma AnchoringKeepsAnchors(log: seq<AuditRecord>, longer: seq<AuditRecord>, file: seq<Anchor>, settings: Settings, key: Key)
    requires AnchorsHold(log, Lines(file), settings) && Ordered(longer) && log <= longer && log != []
    requires forall a :: a in file && a.Anchor? ==> a.hash.Some?
    requires key in settings.trusted && settings.maxAge >= 0
    requires file[|file| - 1].anchoredAt.value <= settings.now
    ensures AnchorsHold(longer, Lines(file + [HeadAnchor(longer, key, settings.now)]), settings)
  {
    var anchor := HeadAnchor(longer, key, settings.now);
    var anchors := file + [anchor];
    var last := file[|file| - 1];
    forall i | 0 <= i < |file| ensures AnchorHolds(longer, anchors, i, settings) {
      assert AnchorHolds(log, file, i, settings);
      assert file[i] in file;
    }
    assert AnchorHolds(longer, anchors, |file| - 1, settings);
    assert longer[|longer| - 1] in longer;
    assert AnchorHolds(longer, anchors, |file|, settings);
  }
}
