/** Version 1 connector envelopes: references, records, manifests and messages. */
module Contracts {
  import opened Wrappers

  type SourceId = string
  type Tenant = string
  type Time = int

  const LIVE := "live"

  /** Largest accepted JSON encoding of one message. */
  const MAX_MESSAGE_BYTES := 2 * 1024 * 1024

  datatype Reference = Reference(sourceId: SourceId, nativeId: string, kind: string) {

    /** A digest of tenant, source, kind and native id. Being a free constructor,
        it is injective: the idealisation of a collision-free hash. */
    function CanonicalId(tenant: Tenant): CanonicalId {
      Canonical(tenant, this)
    }
  }

  datatype CanonicalId = Canonical(tenant: Tenant, ref: Reference) {
    /** The id as text: a prefix and a code of all its parts, in place of the digest. */
    function Text(): string {
      CANONICAL + (Code(tenant) + (Code(ref.sourceId) + (Code(ref.kind) + Code(ref.nativeId))))
    }
  }

  /** Every canonical text starts with this. */
  const CANONICAL := "eda:"

  /** A prefix code: each character is marked, and so is the end. */
  function Code(s: string): string {
    if s == "" then "." else ['-', s[0]] + Code(s[1..])
  }

  lemma {:induction false} CodeIsInjective(a: string, b: string, u: string, v: string)
    requires Code(a) + u == Code(b) + v
    ensures a == b && u == v
  {
    var x, y := Code(a) + u, Code(b) + v;
    assert x[0] == if a == "" then '.' else '-';
    assert y[0] == if b == "" then '.' else '-';
    if a == "" {
      assert x[1..] == u && y[1..] == v;
    } else {
      assert x[1] == a[0] && y[1] == b[0];
      assert x[2..] == Code(a[1..]) + u && y[2..] == Code(b[1..]) + v;
      CodeIsInjective(a[1..], b[1..], u, v);
    }
  }

  /** Different canonical ids have different texts. */
  lemma TextIsInjective(a: CanonicalId, b: CanonicalId)
    ensures a.Text() == b.Text() <==> a == b
    ensures "eda:" <= a.Text()
  {
    hide Code;
    if a.Text() == b.Text() {
      var x := Code(a.tenant) + (Code(a.ref.sourceId) + (Code(a.ref.kind) + Code(a.ref.nativeId)));
      var y := Code(b.tenant) + (Code(b.ref.sourceId) + (Code(b.ref.kind) + Code(b.ref.nativeId)));
      assert x == a.Text()[|CANONICAL|..] && y == b.Text()[|CANONICAL|..];
      CodeIsInjective(a.tenant, b.tenant, Code(a.ref.sourceId) + (Code(a.ref.kind) + Code(a.ref.nativeId)),
        Code(b.ref.sourceId) + (Code(b.ref.kind) + Code(b.ref.nativeId)));
      CodeIsInjective(a.ref.sourceId, b.ref.sourceId, Code(a.ref.kind) + Code(a.ref.nativeId), Code(b.ref.kind) + Code(b.ref.nativeId));
      CodeIsInjective(a.ref.kind, b.ref.kind, Code(a.ref.nativeId), Code(b.ref.nativeId));
      assert Code(a.ref.nativeId) + "" == Code(a.ref.nativeId) && Code(b.ref.nativeId) + "" == Code(b.ref.nativeId);
      CodeIsInjective(a.ref.nativeId, b.ref.nativeId, "", "");
    }
  }

  /** Keys of facts. A tombstone may carry any text at all, hence `UnknownKey`. */
  datatype FactKey =
    | ObjectKey(id: CanonicalId)
    | RelationKey(subject: CanonicalId, relation: string, target: CanonicalId)
    | UnknownKey(text: string)

  /** The attribute entries the program interprets; `rest` stands for all others.
      `conditions` and `unsupported` are the truth values of those entries, and
      `actionsListed` says that `actions` is a list of strings. */
  datatype Attributes = Attributes(
    conditions: bool, unsupported: bool, effect: string, actionsListed: bool, actions: seq<string>, rest: string)
  {
    /** True if the entry denies, conditions or cannot express an allow. */
    predicate Withholds() {
      conditions || unsupported || effect != "allow"
    }
  }

  const NO_ATTRIBUTES := Attributes(false, false, "allow", true, [], "")

  datatype Record =
    | ObjectRecord(ref: Reference, displayName: string, observedAt: Time, attributes: Attributes)
    | RelationshipRecord(subject: Reference, relation: string, target: Reference, observedAt: Time,
                         attributes: Attributes)
  {
    function Key(tenant: Tenant): FactKey {
      match this
      case ObjectRecord(ref, _, _, _) => ObjectKey(ref.CanonicalId(tenant))
      case RelationshipRecord(subject, relation, target, _, _) =>
        RelationKey(subject.CanonicalId(tenant), relation, target.CanonicalId(tenant))
    }
  }

  datatype Capability = SnapshotCapability | ChangesCapability | ContextCapability | PermissionsCapability

  datatype Manifest = Manifest(
    objectKinds: set<string>,
    relations: set<string>,
    capabilities: set<Capability>,
    foreignReferences: map<SourceId, set<string>>,
    platformRelations: bool)

  datatype Operation = Begin | Page | Complete | Abort | Delta

  datatype Coverage = CompleteCoverage | PartialCoverage

  /** A message before its shape is validated; `bytes` is the length of its JSON text. */
  datatype Envelope = Envelope(
    sequence: nat,
    operation: Operation,
    snapshotId: string,
    objects: seq<Record>,
    relationships: seq<Record>,
    tombstones: seq<FactKey>,
    coverage: Coverage,
    bytes: nat)
  {
    /** The cross-field rules. The empty string stands for an absent snapshot id. */
    predicate Shape() {
      && 1 <= sequence
      && (forall r <- objects :: r.ObjectRecord?)
      && (forall r <- relationships :: r.RelationshipRecord?)
      && (operation.Delta? <==> snapshotId == "")
      && (operation in {Begin, Complete, Abort} ==> objects == [] && relationships == [])
      && (!operation.Delta? ==> tombstones == [])
    }

    function Facts(): seq<Record> {
      objects + relationships
    }
  }

  type SyncMessage = m: Envelope | m.Shape()
    witness Envelope(1, Delta, "", [], [], [], PartialCoverage, 0)
}
