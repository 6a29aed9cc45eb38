# A verified model of the governed control plane

The control plane decides who may act on what. Collectors synchronise identity and authority facts into it; a resolver
searches those facts for a path of authority; a gateway turns a request into at most one governed effect; an audit
chain records what happened. This project models those parts in Dafny and proves what they promise over every input,
every run and every interleaving.

`dafny verify dfyconfig.toml` checks the whole project.

## How the model is organised

| files | what they model |
|---|---|
| `Wrappers`, `Contracts`, `Store` | option and result types; references, records, manifests and messages; the tables |
| `AccessGraph` | the resolver: its loop, the order of its exploration, and the declarative meaning of a proof of authority |
| `Sync`, `SyncSession` | one synchronisation message as a function on the tables, and the session that performs it in place |
| `SyncVerdicts`, `ProjectionRows` | which messages are accepted and what the others are refused for, record by record; the rows that live facts call for, column by column |
| `SyncHistory`, `SyncFrames` | the reference model of live facts; what a message leaves alone and what its projection amounts to |
| `Delivery`, `SyncConcurrency` | the client and a lossy channel; handlers that read stale state and claim a sequence number |
| `NameClash` | when the one uniqueness constraint on names keeps a connector from publishing |
| `SnapshotImport`, `ImportVerdicts`, `Entra`, `EntraImport` | a whole import in one transaction; when it succeeds and what it fails for; the paginated directory collector; from the directory's answers to access edges |
| `Ingestion`, `IngestVerdicts`, `IngestionEffects`, `IngestionRuns`, `IngestSession` | legacy batches: specification, verdicts and rows, effect as a whole, effect over every run, and the session in place |
| `ControlPlane`, `Authority` | runs of registration, synchronisation and ingestion by many sources; what a path rests on |
| `Policy`, `PolicyDecisions`, `PolicyLifecycle` | evaluation, validation and simulation of policy documents; what conditions mean and what a decision carries; versions |
| `Gateway`, `GatewayVerdicts`, `GatewaySafety`, `GatewayEvidence` | concurrent requests as steps; what each step decides, by the request and the tables; effects, records and evidence over every run |
| `GatewayRecovery`, `GatewayLimits`, `GatewayRuns` | when recovery is final; what the commit and the second check do not look at; the runs that show it |
| `GatewayService` | one request, one ruling and recovery in place, by what they do to the tables |
| `Objects` | scoped context with memoised permission checks |
| `Audit` | the hash chain, concurrent appends, and signed anchors |
| `EndToEnd` | effects and approvals traced down to live facts |

The main loops and in-place updates are methods proved against specification functions; the promises are lemmas about
those functions. Operations that fail leave the tables as they were, as their callers roll back.

## Idealisations

- A digest is a free constructor: it determines what was hashed, and differs from the genesis value. Consequently a
  message stands for its own digest, and a request hash for its parts.
- The name of a canonical row is text: the prefix of the source and, in place of the truncated digest, a code from which
  all parts of the id can be read back (`Contracts.TextIsInjective`). Legacy names are any text, so the two may coincide.
- Times are integers. Signatures verify exactly if made with the key for the payload, and trusted keys sign only heads
  of logs that verified. Shell-style matching of actions is an arbitrary predicate.
- Where the database may return rows in any order the model takes any order (the edge table of the resolver, the row a
  lookup by external id finds).
- `Gateway.World.claims` are the pairs for which the resolver finds a path; `EndToEnd` ties them to the graph.

## Findings

- Validation and simulation of a proposed policy are meant to keep out every document whose evaluation raises. They do
  so exactly for requests without a risk score or with simulated attributes, and only if every rule must also carry a
  text as its description, which nothing asks for (`Policy.SimulationIsExact`). An accepted document that raises
  on a covered request: `Policy.SilentRaises`; one with descriptions that raises on any other: `Policy.UncoveredTrap`.
- For the same reason the order of the rules can matter: exactly if matching does not raise and, among the rules the
  deciding branch may read first, some but not all have a description (`Policy.OrderMattersExactly`).
- Kind and name are unique over all tenants and sources, so a legacy row may bear the canonical name of another source's
  object. The connector is then refused whenever it publishes that object (`SyncFrames.ConstraintsHoldExactly`). This never
  happens exactly if no legacy namespace reaches a canonical name of a kind that legacy collectors may write
  (`NameClash.NamespacesDecide`); a namespace that is neither a prefix of `eda:` nor starts with it reaches none
  (`NameClash.OtherPrefixReachesNothing`). The run: `NameClash.LegacyRowStopsConnector`.
- The commit that spends an approval does not look at the approver's capability. It finds the capability there, in every
  run, exactly if that capability is one that is never withdrawn (`GatewayLimits.CapabilityHeldAtCommitExactly`). The run
  that spends it after the withdrawal: `GatewayLimits.CommitSpendsBlindly`.
- The second check before an effect asks for the action's own authority but not again for those it implies. All were
  there at the second check, in every run, exactly if the request is a read or its action implies no authority but its own
  (`GatewayLimits.SecondCheckIsFullExactly`). The run: `GatewayLimits.ImpliedAuthorityIsNotRechecked`.
- Recovery is final exactly if every worker concerned had stopped: otherwise some continuation rewrites a record that
  recovery left terminal (`GatewayRecovery.RecoveryIsFinalExactly`), and it makes one running again exactly if such a
  worker had yet to start its action (`GatewayRecovery.RecoveryIsTerminalExactly`). The run, from outcome-unknown to
  succeeded: `GatewayRuns.RecoveryIsUndone`.
- An accepted anchor shows that the log has the record it names exactly if it carries a hash
  (`Audit.AnchorGuaranteesExactly`); a well-signed one without a hash is accepted over an empty log
  (`Audit.HashlessIsAccepted`). Only a trusted key can sign one.
- The refusal "snapshot generation already exists" is unreachable (`SyncHistory.GenerationNeverExists`).

## Model

| member | source | states |
|---|---|---|
| `AccessGraph.ResolvePath` | beta/src/eda/access_graph.py:78-165 | the resolver's loops over the edge table and the queue return exactly the specified answer, including order of exploration and the bound of 10000 |
| `AccessGraph.Explore` | beta/src/eda/access_graph.py:130-165 | the queue loop returns the first proof among the trails examined before the bound, level by level |
| `AccessGraph.OutEdges` | beta/src/eda/access_graph.py:117-128 | the grouping loop keeps exactly the edges that pass every filter, by source node and in table order |
| `AccessGraph.AnswerIsSound` | beta/src/eda/access_graph.py:78-165 | an answer is a simple path of at most 8 hops from the user to the asset, over nodes and edges that are enabled, current and of the tenant, whose combined actions permit the action; and no such path is shorter |
| `AccessGraph.UsableEdgeExactly` | beta/src/eda/access_graph.py:91-128 | an edge may be walked exactly if its relation transfers authority, its stamp, both nodes' stamps and the last synchronisation of their sources are at most the age limit old and not of the future, those sources are enabled and of the tenant, and every edge of its source allows without conditions |
| `AccessGraph.AnswerIsComplete` | beta/src/eda/access_graph.py:130-165 | there is no answer if and only if every such path lies beyond a search that was cut off at its bound of 10000; without a cut-off, none exists |
| `AccessGraph.SearchIsSound` | beta/src/eda/access_graph.py:130-165 | over any edge list the search returns only authorised trails, of minimal length |
| `AccessGraph.SearchIsComplete` | beta/src/eda/access_graph.py:130-165 | over any edge list the search fails exactly if all authorised trails are unexamined and the allowance was used up |
| `AccessGraph.LevelIsExact` | beta/src/eda/access_graph.py:155-164 | level k of the exploration holds exactly the simple trails of length k that stop at the target |
| `AccessGraph.AuthorisedIsExplored` | beta/src/eda/access_graph.py:132-164 | a trail is authorised exactly if it is in the exploration and proves the action at the target |
| `Authority.PathsAreConfined` | beta/src/eda/access_graph.py:91-128 | in every reachable state, outside demonstrations, each hop of a path stays with nodes and edges of enabled sources of the tenant observed and synchronised within the age window, none of which withholds authority |
| `Authority.SwitchTakesAuthority` | beta/src/eda/access_graph.py:91-115 | in every reachable state, switching a source off removes every path over its edges or nodes and refuses every message of its connector; switching it on again restores the state |
| `Authority.PathsAreBacked` | beta/src/eda/connectors/sync.py:106-139 | each hop of a source that has published is asserted by a live relationship between live objects |
| `Authority.GoneFactsCarryNoAuthority` | beta/src/eda/connectors/sync.py:81-140 | no path uses a relationship that is not live, nor a node its source no longer asserts, even over another source's dangling edge |
| `Authority.WithdrawnFactsCarryNoAuthority` | beta/src/eda/connectors/sync.py:194-216 | the accepted message that withdraws a fact, by tombstone or by omission from a complete snapshot, removes every path that used it in the state it commits |
| `ControlPlane.InvariantAlways` | beta/src/eda/connectors/sync.py:143-224 | over every run of registrations, messages and batches of many sources: facts refine the reference model, receipts are 1 to n, graph rows mirror live facts and carry their owner's tenant, both uniqueness constraints on names hold, and legacy rows have at most one edge per triple |
| `ControlPlane.MessageKeeps` | beta/src/eda/connectors/sync.py:143-224 | any message, accepted, refused or replayed, keeps the whole invariant |
| `ControlPlane.BatchKeeps` | beta/src/eda/ingestion.py:156-239 | any legacy batch keeps the whole invariant |
| `SyncSession.Session.ApplyMessage` | beta/src/eda/connectors/sync.py:143-224 | the in-place procedure, with its early sequence update and partial upserts, reaches exactly the specified state when it succeeds and reports exactly the specified refusal; which messages these are: `SyncVerdicts.AcceptedExactly`, `SyncVerdicts.RefusedExactly` |
| `SyncSession.Session.SyncConnector` | beta/src/eda/api.py:418-427 | the endpoint commits the specified state or rolls back to the old one |
| `SyncSession.Session.UpsertFacts` | beta/src/eda/connectors/sync.py:61-72 | the upsert loop equals the specified sequence of time-guarded upserts, and fails exactly if some record is older than one with its key that was there or came before it |
| `SyncSession.Session.Project` | beta/src/eda/connectors/sync.py:75-140 | deleting and inserting rows one by one equals the projection |
| `SyncSession.Session.ValidateFacts` | beta/src/eda/connectors/sync.py:37-58 | the loop finds no error exactly if every record is admissible: not of the future, of a declared kind or relation, with listed actions, each reference its own inside the namespace or approved in an enabled source of the tenant; otherwise it reports the first fault of the first record that is not |
| `SyncVerdicts.AcceptedExactly` | beta/src/eda/connectors/sync.py:143-224 | a message is accepted if and only if its source is on and registered, it is of allowed size, new, next in sequence and within the connector's capabilities, all its records are admissible, and the operation fits the open snapshot, the age of the evidence and the names others bear |
| `SyncVerdicts.RefusedExactly` | beta/src/eda/connectors/sync.py:143-224 | every refusal has exactly one reason, the first that the tables give; a message is replayed exactly if its receipt carries the same digest |
| `SyncVerdicts.FactErrorExactly` | beta/src/eda/connectors/sync.py:37-58 | a record passes if and only if it is admissible, and otherwise is refused for its first fault, subject before target |
| `SyncVerdicts.FactsErrorExactly` | beta/src/eda/connectors/sync.py:37-58 | a message's records pass if and only if each is admissible; otherwise the first that is not decides |
| `SyncVerdicts.UpsertsFailExactly` | beta/src/eda/connectors/sync.py:61-72 | writing a batch fails, for older evidence, if and only if some record is older than one with its key that was there or was written before it; where it succeeds every key holds the latest |
| `SyncVerdicts.AcknowledgedExactly` | beta/src/eda/connectors/sync.py:217-224 | an accepted message moves the sequence, the open snapshot and the coverage as its operation says, and its acknowledgement and receipt say so |
| `SyncVerdicts.RegisteredExactly` | beta/src/eda/connectors/sync.py:22-29 | a manifest is registered exactly once, and only if every source it refers to exists in the tenant |
| `ProjectionRows.PublishedRowsExactly` | beta/src/eda/connectors/sync.py:75-140 | after an accepted complete or delta the source's rows in all four tables are exactly those its live facts call for, column by column |
| `SyncHistory.AcceptedRefines` | beta/src/eda/connectors/sync.py:172-216 | an accepted message keeps the live and staged facts equal to the reference model: last complete snapshot, then later deltas |
| `SyncHistory.UpsertIsOverlay` | beta/src/eda/connectors/sync.py:61-72 | time-guarded upserts that succeed are last-write-wins |
| `SyncHistory.OverlayIsLastWrite` | beta/src/eda/connectors/sync.py:61-72 | a key holds the last record written to it |
| `SyncHistory.DuplicatesReplay` | beta/src/eda/connectors/sync.py:150-155 | every late duplicate of an accepted message is answered from its receipt and changes nothing |
| `SyncHistory.GenerationNeverExists` | beta/src/eda/connectors/sync.py:176-180 | begin never finds its generation taken, since only the live and the open generation exist |
| `SyncHistory.LogGrows` | beta/src/eda/connectors/sync.py:156-164 | an accepted message extends the source's log by itself under the next sequence number |
| `SyncFrames.ProjectionIsExact` | beta/src/eda/connectors/sync.py:75-140 | after a projection the source owns exactly the rows its live facts and the nodes present derive, and every other owner's rows are untouched |
| `SyncFrames.ProjectionForgetsHistory` | beta/src/eda/connectors/sync.py:75-140 | two histories with equal live facts and only internal references lead to the same rows |
| `SyncFrames.ConstraintsHoldExactly` | beta/src/eda/connectors/sync.py:95-105 | a projection keeps both uniqueness constraints if and only if no row that is not the source's own bears the kind and canonical name of one of its live objects |
| `SyncFrames.AcceptedKeepsConstraints` | beta/src/eda/models.py:33 | an accepted message never leaves two rows with one kind and name |
| `NameClash.NamespacesDecide` | beta/src/eda/api.py:355-371 | while legacy collectors keep to a namespace, no message is ever refused for a name, in any run, if and only if that namespace reaches no canonical name of a kind they may write |
| `NameClash.GuardedNeverRefused` | beta/src/eda/connectors/sync.py:95-105 | in every run in which no legacy namespace reaches a canonical name, no message of any source is refused for a name |
| `NameClash.LegacyRowStopsConnector` | beta/src/eda/ingestion.py:126-143 | otherwise, for any object whose name the namespace reaches: a run from an empty installation after which its connector's delta is refused |
| `SyncFrames.AcceptedRows` | beta/src/eda/connectors/sync.py:174-216 | begin, page and abort touch no row, live fact or synchronisation time; complete and delta replace the sender's rows by exactly the derived ones and stamp the time |
| `SyncFrames.AcceptedFrame` | beta/src/eda/connectors/sync.py:143-224 | an accepted message changes nothing of another source: registration, state, receipts, facts |
| `SyncConcurrency.StaleReadsAreHarmless` | beta/src/eda/connectors/sync.py:156-164 | a handler that read an old state and is not refused does exactly what it would have done alone at its commit |
| `SyncConcurrency.ClaimLostExactly` | beta/src/eda/connectors/sync.py:156-164 | a handler finds its claim lost if and only if the number it read has moved on since; every other refusal is one it would have met alone, when it read or when it commits |
| `SyncConcurrency.OneClaimPerSequence` | beta/src/eda/connectors/sync.py:161-164 | of the handlers that read the same sequence number at most one gets it |
| `Delivery.SyncClient.Send` | beta/src/eda/connectors/client.py:44-79 | the client posts the identical message at most four times, retries only a failed transport and statuses 429, 502, 503 and 504, and returns the reading of the last reply; nothing above 2097152 bytes is posted |
| `Delivery.ExactlyOnce` | beta/src/eda/connectors/client.py:44-79 | over a channel that loses, delays and repeats messages and replies, with other sources active, the server's log is always the old one and the first messages of the work, each once and in order |
| `Delivery.AcknowledgedMeansApplied` | beta/src/eda/connectors/client.py:44-79 | in every run of the channel, a reply from the wire that the client takes as an acknowledgement means that the server's log is the old one and all work up to this message, each once, and nothing beyond; only such a reply moves the client on |
| `Delivery.FaultlessRoundMovesOn` | beta/src/eda/connectors/client.py:49-79 | after any faults, and whatever other sources do, one round without a fault moves the client on exactly unless the server refuses the message |
| `Delivery.DeliveredFacts` | beta/src/eda/connectors/client.py:49-79 | once every message is acknowledged the live facts are those of the whole work applied once in order |
| `SnapshotImport.ImportSource` | sandbox/sync.py:16-35 | the import procedure reaches the specified state, or fails and restores every table; when it does either: `ImportVerdicts.ImportExactly` |
| `ImportVerdicts.ImportExactly` | sandbox/sync.py:16-35 | from every reachable state an import fails for exactly the first of these: a manifest that refers outside the tenant, another configuration or manifest, missing capability or visibility, a page too large, inadmissible or older than what came before it, a provider error, a name borne by another owner's row; and succeeds if there is none |
| `ImportVerdicts.SnapshotMessages` | beta/src/eda/connectors/sdk.py:35-53 | message k of a scan is begin, page k with that page's own records, or complete; all numbered one by one under one snapshot |
| `SnapshotImport.ApplyAll` | sandbox/sync.py:32-33 | applying messages in a loop equals applying them in order, and stops at the first refusal |
| `SnapshotImport.CollectSnapshot` | beta/src/eda/connectors/sdk.py:35-53 | the numbering loop yields begin, the pages and complete in sequence; no complete message after a provider error, and nothing at all without full visibility |
| `SnapshotImport.ImportPublishesScan` | sandbox/sync.py:16-35 | from any reachable state, with or without an abandoned snapshot, a successful import leaves the last record per key over all pages, no open snapshot, and the sequence advanced by pages plus 2, plus 1 if it aborted |
| `SnapshotImport.ImportProjects` | sandbox/sync.py:16-35 | a successful import leaves the source exactly the nodes and access edges that its live facts derive |
| `SnapshotImport.ScanSucceedsExactly` | beta/src/eda/connectors/sdk.py:35-53 | a scan is accepted if and only if every page is acceptable after the ones before it and none of the objects it ends up with has its kind and name taken by a row that is not the source's own |
| `SnapshotImport.SnapshotPublishes` | beta/src/eda/connectors/sdk.py:35-53 | a begin, its pages and a complete message replace the live facts of any log by the pages' records |
| `Entra.Fetch` | beta/src/eda/connectors/entra.py:50-70 | at most four requests for a page, retrying only answers that are throttled |
| `Entra.Pages` | beta/src/eda/connectors/entra.py:38-76 | whatever the server answers, the walk ends after at most the allowed number of safe targets, no two written alike; it succeeds if and only if each target on the chain of cursors is answered well within four attempts and the chain ends within the allowance, and then returns its pages in order |
| `Entra.Snapshot` | beta/src/eda/connectors/entra.py:81-124 | a scan succeeds exactly on consistent answers, and its records, each stamped when it is made, then state exactly the enabled users, the groups and the counted memberships |
| `Entra.ScanIsClosed` | beta/src/eda/connectors/entra.py:107-124 | every relationship of a finished scan is a membership between two emitted objects |
| `Entra.DisabledAreAbsent` | beta/src/eda/connectors/entra.py:91-93 | no record of a finished scan mentions a disabled user |
| `EntraImport.DirectoryBecomesEdges` | beta/src/eda/connectors/entra.py:81-124 | from the directory's answers to authority: after a successful import of the scan's pages, from any reachable state, the source's access edges are exactly one for each membership that counts, however often the directory listed it |
| `IngestSession.Validate` | beta/src/eda/ingestion.py:83-111 | no error is collected if and only if the batch is acceptable, by the literal limits and kinds: size, enabled source, kinds, namespace, relations, attributes |
| `IngestVerdicts.IngestExactly` | beta/src/eda/ingestion.py:156-239 | a batch is refused for a versioned connector, for what it says, for its time, or for what one of its relationships meets, in this order; otherwise its tables and summary are those of all of them |
| `IngestVerdicts.CreatedExactly` | beta/src/eda/ingestion.py:126-153 | a reference that is not found becomes a node with its kind, its name, the source and the tenant, unless its kind and name are taken |
| `IngestVerdicts.EdgesExactly` | beta/src/eda/ingestion.py:190-214 | the edges after a relationship: those elsewhere as they were; those it names rewritten, or else one new one |
| `IngestSession.Session.FindOrCreate` | beta/src/eda/ingestion.py:114-153 | the cached find-or-create equals its specification, including its errors |
| `IngestSession.Session.Ingest` | beta/src/eda/ingestion.py:156-239 | the batch loop equals the specified batch, and any error restores every table |
| `Ingestion.BatchGrows` | beta/src/eda/ingestion.py:114-214 | a batch never changes owner, kind or name of a node, adds only nodes of the source inside its namespace, and writes edges only between the source's own nodes |
| `Ingestion.BatchKeepsNames` | beta/src/eda/ingestion.py:131-143 | kind and name stay unique |
| `IngestionEffects.BatchEdges` | beta/src/eda/ingestion.py:190-214 | over any tables: where a triple had at most one edge it still has at most one, and it is the one the batch's relationships fold to (in reachable tables every triple of a batch is one: `IngestionRuns.BatchTriplesAreUnique`) |
| `IngestionEffects.LastRelationshipWins` | beta/src/eda/ingestion.py:190-214 | of several relationships at one triple the last decides, and the edge keeps the tenant it was created with |
| `IngestionEffects.BatchCounts` | beta/src/eda/ingestion.py:174-214 | every reference resolves to a node the source owns; the node counter is the growth of the table; created plus updated edges are the length of the batch |
| `IngestionRuns.BatchTriplesAreUnique` | beta/src/eda/ingestion.py:190-214 | in every reachable state the table has at most one edge at each triple that an accepted batch writes |
| `IngestionRuns.CountersTellGrowth` | beta/src/eda/ingestion.py:217-225 | over every run the summary of an accepted batch tells the growth of both tables |
| `IngestionRuns.RepeatingIsIdempotent` | beta/src/eda/ingestion.py:156-239 | over every run, repeating an accepted batch at any later time is accepted, creates nothing, and leaves every table the same but for time stamps |
| `Policy.EvaluationOrder` | beta/src/eda/policy.py:300-336 | over rule lists of any length: deny over require-approval over allow, deny by default; no decision if and only if matching raises or the deciding branch reads a description that is not there |
| `PolicyDecisions.DecisionCarriesExactly` | beta/src/eda/policy.py:300-336 | a decision lists exactly the rules that apply, by position and in order; an allowed one carries, joined in order, the obligations of exactly the allow rules that apply, and every other one none |
| `PolicyDecisions.BuiltInObligations` | beta/src/eda/policy.py:75-91 | under the built-in policy an allowed read carries a lifetime of 900 seconds and read-only, an allowed write a lifetime of 900 seconds and the controlled runner |
| `PolicyDecisions.AppliesExactly` | beta/src/eda/policy.py:290-297 | a rule applies if and only if all its conditions hold; otherwise the first that does not hold decides whether it fails or raises |
| `PolicyDecisions.FlagHolds` | beta/src/eda/policy.py:95-104 | a condition on path, MFA, unknown risk, read-only or case id holds exactly if the document writes the truth value that the request has |
| `PolicyDecisions.RiskHolds` | beta/src/eda/policy.py:95-104 | a risk threshold is passed exactly by a greater score, never without a score, and raises on a score if it is not a number |
| `Policy.OrderMattersExactly` | beta/src/eda/policy.py:308-332 | every order of the rules gives the same outcome if and only if matching raises or the rules the deciding branch may read first all have a description or none has |
| `Policy.PermutationInvariant` | beta/src/eda/policy.py:305-336 | where every rule carries a text as its description, the outcome does not depend on the order of the rules |
| `Policy.AddingDenyOnlyDenies` | beta/src/eda/policy.py:308-312 | a described deny rule inserted anywhere denies where it applies, unless the first deny rule that applies before it has no description, and changes nothing elsewhere |
| `Policy.ApprovalChangesOnlyApprovalRequired` | beta/src/eda/policy.py:314-322 | supplying an approval changes an outcome only where the approval rules decided, and then to what the allow rules say |
| `Policy.RaisesExactly` | beta/src/eda/policy.py:290-297 | a rule raises exactly where its conditions lead to a threshold that is not a number, with a risk score present |
| `Policy.ValidateDocument` | beta/src/eda/policy.py:188-217 | no problem is collected if and only if the document is well formed |
| `Policy.SimulationIsExact` | beta/src/eda/policy.py:168-239 | accepted documents always decide a request if and only if every rule must carry a text as its description and the request has no risk score or simulated attributes; dropping either condition admits a document that raises |
| `Policy.AcceptedFailsExactly` | beta/src/eda/policy.py:305-336 | on a covered request an accepted document raises exactly where the rule that decides has no description to read |
| `Policy.SilentRaises` | beta/src/eda/policy.py:188-217 | for every request, an accepted document that raises on it: one deny rule without a description |
| `Policy.DefaultPolicyDecides` | beta/src/eda/policy.py:24-93 | the built-in policy's outcome for every request: what refuses it, what waits for approval, what is allowed |
| `PolicyLifecycle.PolicyStore.ActivePolicy` | beta/src/eda/policy.py:137-158 | returns the active version, creating the built-in one outside production, and never a record whose document fails its checksum |
| `PolicyLifecycle.PolicyStore.ProposePolicy` | beta/src/eda/policy.py:220-239 | stores a draft exactly if the document is well formed, new and passes simulation |
| `PolicyLifecycle.PolicyStore.ActivatePolicy` | beta/src/eda/policy.py:242-275 | retires the active version and activates the given one, or leaves the table alone |
| `PolicyLifecycle.PolicyStore.RollbackPolicy` | beta/src/eda/policy.py:278-287 | activates the retired version activated last |
| `PolicyLifecycle.SettledExactly` | beta/src/eda/policy.py:137-158 | reading the active policy adds the built-in one, active and without a time, exactly if none is active, outside production and with its version free |
| `PolicyLifecycle.ProposedExactly` | beta/src/eda/policy.py:220-239 | a proposal becomes a draft exactly if well formed, new, and no rule raises on any of the tried inputs, told by their attributes; otherwise the first of these is reported |
| `PolicyLifecycle.ActivatedExactly` | beta/src/eda/policy.py:242-275 | an activation succeeds exactly for a known version, not active, with its own checksum; then it is active since now, the one active before is retired, and every other row is as it was |
| `PolicyLifecycle.RolledBackExactly` | beta/src/eda/policy.py:278-287 | a rollback activates the retired version activated later than every other retired one |
| `PolicyLifecycle.InvariantAlways` | beta/src/eda/policy.py:137-287 | over every run at most one version is active, its activation is the latest, and the version active before it is the next rollback candidate |
| `PolicyLifecycle.RollbackRestoresPrevious` | beta/src/eda/policy.py:278-287 | a rollback restores the version active immediately before, unless there is none or its document was edited |
| `PolicyLifecycle.TwoRollbacksReturn` | beta/src/eda/policy.py:278-287 | two rollbacks in a row return to the starting version |
| `PolicyLifecycle.HonouredWasAccepted` | beta/src/eda/policy.py:151-158 | with documents edited behind the lifecycle at any time, a document handed out was accepted, and a version never stands for two documents |
| `PolicyLifecycle.EditStopsVersion` | beta/src/eda/policy.py:151-158 | after any run, an edit of the active document behind the lifecycle stops the version from being handed out, exactly unless it restores the document of its checksum |
| `GatewaySafety.EffectsAtMostOnce` | beta/src/eda/gateway.py:243-265 | over every interleaving of requests, retries, crashes, rulings and recovery each operation id has at most one effect and each approval funds at most one |
| `GatewaySafety.SpendingAndIntentCommitTogether` | beta/src/eda/gateway.py:243-265 | approvals are consumed and executions recorded exactly by committed entries, one for both; nothing is spent or intended twice |
| `GatewaySafety.EffectNeedsRunningRecord` | beta/src/eda/gateway.py:283-303 | when an effect happens a running record of its operation is already durable |
| `GatewaySafety.TerminalForever` | beta/src/eda/gateway.py:65-69 | a record that reached succeeded or outcome-unknown is never touched again |
| `GatewaySafety.SuccessMeansEffect` | beta/src/eda/execution.py:18-22 | a record says succeeded only if its operation took effect, so a replayed answer is true |
| `GatewayRecovery.RecoveryIsFinalExactly` | beta/src/eda/execution.py:25-41 | after recovery at any reachable state, no continuation rewrites a record it left terminal if and only if every worker concerned had stopped |
| `GatewayRecovery.RecoveryIsTerminalExactly` | beta/src/eda/execution.py:25-41 | and no continuation makes such a record run again if and only if no worker concerned had yet to start its action |
| `GatewayRuns.RecoveryIsUndone` | beta/src/eda/gateway.py:283-288 | a run from the first request on in which recovery declares the outcome unknown and the living worker then turns the record into a success |
| `GatewaySafety.SafeAlways` | beta/src/eda/gateway.py:161-320 | the joint invariant of executions, approvals, workers and journal over every run |
| `GatewaySafety.OwnersAreUnique` | beta/src/eda/gateway.py:257-264 | no two requests in flight share an execution record |
| `GatewayEvidence.ApprovalEvidence` | beta/src/eda/gateway.py:169-185 | an effect that needed an approval spent one for exactly that request, subject, resource, justification and tenant, granted by someone else who held the capability at ruling, lookup and second check, unexpired throughout; at the commit between them the code does not look, see `GatewayLimits.CapabilityHeldAtCommitExactly` |
| `GatewayEvidence.EffectsWereConfirmed` | beta/src/eda/gateway.py:283-298 | every effect follows its intent and then a second check of identity, authority and policy version |
| `GatewayLimits.CapabilityHeldAtCommitExactly` | beta/src/eda/gateway.py:243-255 | every commit that spends an approver's approval for a request finds their capability there, in every run that never withdraws the claims of a given set, if and only if the capability is in that set, or the request cannot spend such an approval |
| `GatewayLimits.CommitSpendsBlindly` | beta/src/eda/gateway.py:243-265 | a run in which the approver loses every claim between lookup and commit, and the commit spends the approval |
| `GatewayLimits.SecondCheckIsFullExactly` | beta/src/eda/gateway.py:289-298 | each effect of a request, in every run, follows a second check that found all authority the action needs, if and only if the request is a read or its action implies no authority but its own |
| `GatewayLimits.ImpliedAuthorityIsNotRechecked` | beta/src/eda/gateway.py:289-298 | a run in which the implied authorities are withdrawn in flight and the effect comes all the same |
| `GatewayLimits.GroundedAlways` | beta/src/eda/gateway.py:243-265 | every committed intent is of a write, and if it spends an approval, one for exactly that request that was backed when the request looked it up |
| `GatewayEvidence.BuiltInPolicyNeedsApproval` | beta/src/eda/policy.py:63-68 | under the built-in policy every allowed write needs an approval |
| `GatewayEvidence.EvidentAlways` | beta/src/eda/gateway.py:161-372 | the evidence invariant over every run |
| `GatewayService.Service.HandleRequest` | beta/src/eda/gateway.py:49-320 | one request run alone, by the tables: allowed exactly if known, let through by the policy and unchanged at the second look; then one effect, one success record and only the request's own good approval spent; refused and replayed requests change nothing; a pending one adds one approval for exactly this request; a failure after the intent leaves outcome-unknown. Under the built-in policy its reply and approvals are stated by the request's own MFA, risk, case and the resource's environment and classification |
| `GatewayService.AnswerIsBuiltIn` | beta/src/eda/gateway.py:169-241 | whatever reply and approvals a request run alone may end with under the built-in policy, it is denied exactly for no path, no MFA, a risk above 70, an unknown risk on a write or sensitive resource, or production without a case; it awaits approval exactly for the remaining writes and sensitive resources without a good approval |
| `GatewayVerdicts.DecideExactly` | beta/src/eda/gateway.py:169-241 | the decision step of a request among many, under the built-in policy, in the same terms: who is refused, who waits for which new approval, who goes on and which approval will be spent |
| `GatewayVerdicts.OutcomeIsBuiltIn` | beta/src/eda/gateway.py:188-197 | the policy decides on exactly the request's path, MFA, risk, kind of action and case, and the attributes of the resource's object |
| `GatewayVerdicts.ConditionsSee` | beta/src/eda/gateway.py:188-197 | under any policy, each condition is decided by the request's own path, MFA, risk, kind of action or case, or by that attribute of the object it names |
| `GatewayVerdicts.ResolveExactly` | beta/src/eda/gateway.py:128-168 | strangers and keys used for another write are refused, a key used for the same write is answered from its record, everybody else goes on with what the graph says |
| `GatewayVerdicts.AuthorizeExactly` | beta/src/eda/gateway.py:243-265 | the commit needs the ticket's approval to be approved still and a write's key to be unused; then the approval is consumed and a write has its record |
| `GatewayVerdicts.RecheckExactly` | beta/src/eda/gateway.py:289-298 | the second check passes exactly if identity, authority and policy version are what they were and an approval on record is unexpired and its approver still holds the capability |
| `GatewayVerdicts.RulingExactly` | beta/src/eda/gateway.py:323-372 | a ruling settles a pending approval in time by someone else with the capability; otherwise it changes nothing and reports the first thing missing |
| `GatewayVerdicts.RecoverExactly` | beta/src/eda/execution.py:25-41 | recovery makes outcome-unknown exactly the records that were authorized or running and untouched since the given time |
| `GatewayVerdicts.RecoveryRunsExactly` | beta/src/eda/execution.py:25-41 | recovery runs exactly if no worker still owns a record that it would settle |
| `GatewayService.Service.CarryOut` | beta/src/eda/gateway.py:267-320 | the part of a write after its durable intent: exactly one effect if the second look passes, and the record ends as the reply says |
| `GatewayService.Service.DecideApproval` | beta/src/eda/gateway.py:323-372 | a ruling succeeds exactly if pending, in time, by someone else with the capability, and changes that approval alone |
| `GatewayService.Service.MarkInterrupted` | beta/src/eda/execution.py:25-41 | the loop marks exactly the interrupted records and counts them |
| `EndToEnd.EffectsRestOnLiveFacts` | beta/src/eda/gateway.py:283-298 | every effect's authority was found, at the second check, on a path whose hops all lie in current, unrestricted sources of the request's tenant, and of which those of sources that have published are asserted by live facts |
| `EndToEnd.ApprovalsRestOnLiveFacts` | beta/src/eda/gateway.py:342-350 | the approver's capability was found on such paths at ruling, lookup and second check |
| `Objects.ScopedContext` | beta/src/eda/objects.py:36-112 | refused exactly for a dead grant, a depth above 4, more than 1000 relations at one object or 1000 objects; empty exactly if tenant, object or discovery is missing; otherwise the exact context, in which an attribute is shown with its own value exactly if its object is readable and its name is neither restricted nor secret, or the subject holds its field capability there |
| `Objects.ShownIsPermitted` | beta/src/eda/objects.py:54-112 | everything shown is an object of the tenant the subject may discover or a relation it may see there, with no attribute it may not read |
| `Objects.VisibleExactly` | beta/src/eda/objects.py:71-88 | a relation is crossed exactly if both ends are objects of the tenant the subject may discover and it may see such relations at the source |
| `Objects.Explore` | beta/src/eda/objects.py:65-97 | the hop loop finds exactly the objects within reach at their shortest distances and exactly the visible edges at nearer ones, or fails exactly if over the limits |
| `Objects.Expand` | beta/src/eda/objects.py:71-96 | expanding one object adds exactly its visible edges and their new ends |
| `Objects.Checks.Permits` | beta/src/eda/objects.py:54-61 | the remembered answer always equals a fresh check |
| `Objects.FoundIsWithin` | beta/src/eda/objects.py:69-97 | expanding everything within k hops finds exactly what walks of one more hop reach |
| `Objects.ReachIsDiscoverable` | beta/src/eda/objects.py:82-87 | everything within reach belongs to the tenant and may be discovered; nothing hidden is crossed |
| `Objects.ShownEdgesAreClosed` | beta/src/eda/objects.py:88-94 | both ends of every edge shown are shown |
| `Audit.VerifyChain` | beta/src/eda/audit.py:93-100 | succeeds exactly on chained logs, and otherwise reports the earliest broken record, before which everything verifies |
| `Audit.AuditLog.Append` | beta/src/eda/audit.py:72-90 | an append under the lock is never refused and keeps the chain |
| `Audit.AppendersKeepChain` | beta/src/eda/audit.py:72-90 | with any interleaving of read-head and insert by many appenders the log stays chained and ordered and only grows |
| `Audit.FreshHeadIsLast` | beta/src/eda/models.py:225-228 | uniqueness of the predecessor hash admits an insertion only on top of the present head |
| `Audit.HeadIsFree` | beta/src/eda/models.py:225-228 | an appender that still holds the head is never refused |
| `Audit.InsertExactly` | beta/src/eda/audit.py:72-90 | an insertion adds exactly its record, with its content, time, tenant and version 2 hashed on the head it read, or, if its number or a uniqueness constraint stands against it, nothing |
| `Audit.UndisturbedAppends` | beta/src/eda/audit.py:72-90 | after any interleaving, an appender whom nobody disturbs gets exactly its record in, on top of the last |
| `Audit.LinkedExactly` | beta/src/eda/audit.py:61-69 | a record is linked exactly if it names its predecessor's hash and its own covers content, time and that value, and from version 2 on version and tenant |
| `Audit.OvertakenLosesExactly` | beta/src/eda/audit.py:72-90 | after any interleaving, an appender that reads the head and inserts later gets its record in if and only if no other record came between |
| `Audit.HeadDeterminesLog` | beta/src/eda/audit.py:61-69 | verifying logs with the same head hash have the same length and the same hashed content record by record, with tenant and version for version 2 |
| `Audit.VerifyAnchors` | beta/src/eda/audit.py:150-210 | reports no failure exactly if every anchor is trusted, ordered, signed and matched, and the last is recent and far enough along |
| `Audit.AnchorChain` | beta/src/eda/audit.py:123-147 | appends the signed head, or refuses an empty log |
| `Audit.AnchorsPinHistory` | beta/src/eda/audit.py:150-210 | if chain and anchors verify, the records up to every anchor carry the hashed content they had when it was signed |
| `Audit.AnchorGuaranteesExactly` | beta/src/eda/audit.py:150-210 | wherever a well-signed anchor is accepted the log has the record it names, if and only if it carries a hash |
| `Audit.AnchorsNeverGoBack` | beta/src/eda/audit.py:184-190 | sequence numbers and times of verified anchors never decrease |
| `Audit.AnchoringKeepsAnchors` | beta/src/eda/audit.py:123-147 | honest growth and anchoring of the new head never trip the verifier |

## Left out

- HTTP routes, SQL, migrations, metrics and configuration: tables are maps and sets, a transaction is one step or one method.
- Authentication of sessions, collectors and tokens: a verified session and its principal are inputs.
- Audit records written by synchronisation, ingestion, requests and rulings: the audit log is modelled on its own, and an
  append refused inside another operation counts there as a crash.
- The names and texts in answers: hops rendered as text, reasons, keys of an obligation beyond its kind and value, listing order of context views.
- JSON shapes that the schema layer refuses, and values of legacy attributes of the wrong type (a text in place of a
  list of actions is read letter by letter by the resolver; here `actions` is always a list).
- Row identifiers and duplicate rows: an edge or object row is its content, so two equal rows are one.
- `Ingestion.UpsertEdge`: rewrites every edge at its triple where the code rewrites the first found; reachable tables have
  at most one there (`IngestionRuns.BatchTriplesAreUnique`).
- `GatewayEvidence.ApprovalEvidence`: says nothing of the capability at the commit, which the code does not check there.
- `SyncFrames.ConstraintsHoldExactly`: a violated constraint is one refusal of the whole message; the code raises the
  database's error, which the endpoint does not catch as a refusal of its own.
- `PolicyLifecycle.InvariantAlways`: assumes a clock that strictly increases between activations, and that a record
  without activation time sorts as oldest, which PostgreSQL does not do by default for a descending order.
- `SyncConcurrency.StaleReadsAreHarmless`: the source's switch is read once at the start, so a handler may finish a message
  after the source was switched off.
- Read-only requests commit the spending of their approval when they finish; a crash before that leaves the approval
  approved. A refused grant or failed read spends it too, with another reply. They keep no execution record, so their reads are not counted as effects.
- Broker and vault: a grant is issued or refused. Runners and handlers: an effect happens or not, and may fail after it happened.
- `Entra.Snapshot`: works on the pages of finished reads; a read that fails fails the scan. The parsing of a target is any function of its text.
- `Objects.ScopedContext`: reads rows of the object inventory with their attributes by name, apart from the rows that synchronisation projects.
- `Delivery.ExactlyOnce`: one client per source, sending one message at a time, on a wire that starts empty.
- Feedback analysis, other connectors, seed data, infrastructure and evidence scripts: simple transforms or fixed data.
