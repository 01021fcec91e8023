# jwtlet policy and token exchange, verified

jwtlet exchanges a Kubernetes service-account token for a participant-context token (RFC 8693). This
project models the part that decides: the policy store with its two implementations, the expansion of
requested scopes into claims, the exchange itself, the management API with its audit log, and the
cached service-account token used for TokenReview calls. `dafny verify dfyconfig.toml` checks it all.

| file | what it holds |
|---|---|
| `Text.dfy` | white space, trimming, scope lists, the order of string sets, subsequences |
| `Policy.dfy` | mappings, JSON values, errors, reserved claims |
| `ClaimMerge.dfy` | `verify`: the merge loop, its per-key specification and its laws |
| `Store.dfy` | the store contract as one step function, batches, two-read lookups, locality |
| `MemoryStore.dfy`, `PostgresStore.dfy` | the two implementations, each held against the contract |
| `StoreEquivalence.dfy` | the two implementations driven side by side |
| `Backend.dfy` | the store interface with either implementation behind it |
| `Service.dfy` | validation and what every reachable policy satisfies |
| `Exchange.dfy` | audience, minting, the exchange service and its endpoint |
| `Issuance.dfy` | whole runs: management calls and exchanges interleaved, tokens traced to logged calls |
| `Management.dfy` | role gates, handlers, audit log, its replay and the origin of every row |
| `TokenReview.dfy` | the TokenReview verifier with its cache, and the renewal loop |
| `SaTokenCache.dfy` | the same cache under concurrency |

Where prose and code disagree, the model follows the code. `docs/security-architecture.md:196-198` and
`docs/security-architecture.md:398-399` say that any claim key shared by two requested scopes is
refused; the code joins strings and refuses only when a non-string is involved
(`crates/jwtlet-core/src/resource/mod.rs:195-213`, `ClaimMerge.SharedKey`,
`ClaimMerge.MergeClaims`).

Inputs from outside are parameters: the client-token verifier, the signer and the API server are
arbitrary functions, in whole runs functions of the moment too; the wall clock and the fresh identifier
are arguments; a database refusal is a set of statement numbers to refuse; file contents and watch
events are arguments or events of a run.
Transactions make their rows visible at commit only, and a refused commit leaves the tables unchanged.

## Model

| member | source | states |
|---|---|---|
| `StoreEquivalence.RunBoth` | crates/jwtlet-postgres/src/resource_store.rs:116-302 | The Postgres store and the memory store are one machine: over every operation sequence and every choice of refused statements, the database's replies and policy are the contract's under exactly those refusals, and the memory store driven by what the database carried out gives the same replies (error kinds, keys in Conflict and NotFound, resolved pairs, listings) and stays in the same policy; with no refusal that is the whole sequence |
| `StoreEquivalence.StepBoth` | crates/jwtlet-postgres/src/resource_store.rs:116-302 | One operation of that simulation, including the operation the database refuses and the memory store therefore sits out |
| `MemoryStore.MemoryResourceStore.Apply` | crates/jwtlet-core/src/resource/mem.rs:45-144 | Every operation of the memory store meets the store contract, state and reply |
| `MemoryStore.MemoryResourceStore.SaveScopes` | crates/jwtlet-core/src/resource/mem.rs:105-118 | The check-everything-then-insert batch loops meet the contract: Conflict on the least repeating element with nothing inserted, else the whole batch inserted |
| `MemoryStore.MemoryResourceStore.Resolve` | crates/jwtlet-core/src/resource/mem.rs:47-69 | The atomic lookup: the entry of the pair with the stored mappings of its own scopes, or nothing |
| `MemoryStore.MemoryResourceStore.Save` | crates/jwtlet-core/src/resource/mem.rs:71-79 | Creates an absent entry, else Conflict naming the client and no change |
| `MemoryStore.MemoryResourceStore.Update` | crates/jwtlet-core/src/resource/mem.rs:81-89 | Replaces a present entry, else NotFound naming the client and no change |
| `MemoryStore.MemoryResourceStore.Remove` | crates/jwtlet-core/src/resource/mem.rs:91-97 | Removes one pair, present or not |
| `MemoryStore.MemoryResourceStore.RemoveFor` | crates/jwtlet-core/src/resource/mem.rs:99-103 | Removes exactly the entries of one client |
| `MemoryStore.MemoryResourceStore.UpdateScope` | crates/jwtlet-core/src/resource/mem.rs:120-127 | Replaces a present scope mapping, else NotFound naming the scope |
| `MemoryStore.MemoryResourceStore.RemoveScope` | crates/jwtlet-core/src/resource/mem.rs:129-133 | Removes one scope mapping, present or not |
| `PostgresStore.PostgresResourceStore.Apply` | crates/jwtlet-postgres/src/resource_store.rs:116-302 | Every operation on the tables, read through primary keys and row conversion, answers DatabaseError and keeps every row exactly when a statement that it executes is refused, and otherwise meets the same contract |
| `PostgresStore.PostgresResourceStore.SaveScopes` | crates/jwtlet-postgres/src/resource_store.rs:231-254 | The insert-each-then-commit loop: DatabaseError with nothing kept exactly when begin, an insert up to the first repeating element, or the commit is refused; otherwise exactly the contract of the check-first loop |
| `PostgresStore.InsertEach` | crates/jwtlet-postgres/src/resource_store.rs:234-249 | The row-by-row inserts fail with DatabaseError exactly when an insert up to the first repeating element is refused, else with Conflict on that element; with neither, the transaction holds the table plus the batch |
| `PostgresStore.PostgresResourceStore.ResolveAmid` | crates/jwtlet-postgres/src/resource_store.rs:118-160 | The two-statement lookup with arbitrary committed writes between the statements: DatabaseError exactly when a statement it executes is refused, else the mapping from the first read and scope mappings from the second |
| `PostgresStore.PostgresResourceStore.Resolve` | crates/jwtlet-postgres/src/resource_store.rs:118-160 | The same lookup with nothing in between is the contract's atomic answer, or DatabaseError exactly when one of the statements it executes is refused |
| `PostgresStore.PostgresResourceStore.SelectMapping` | crates/jwtlet-postgres/src/resource_store.rs:123-138 | The first statement finds the one row of the key, if any |
| `PostgresStore.PostgresResourceStore.SelectScopes` | crates/jwtlet-postgres/src/resource_store.rs:140-154 | The second statement, keyed by the scope column of its rows, is the set of stored mappings of the granted scopes |
| `PostgresStore.PostgresResourceStore.Save` | crates/jwtlet-postgres/src/resource_store.rs:162-185 | A refused statement is DatabaseError and changes no row; a unique violation is Conflict naming the client; otherwise one row is added |
| `PostgresStore.PostgresResourceStore.Update` | crates/jwtlet-postgres/src/resource_store.rs:187-208 | A refused statement is DatabaseError and changes no row; no affected row is NotFound naming the client; otherwise the row now reads as the new mapping |
| `PostgresStore.PostgresResourceStore.Remove` | crates/jwtlet-postgres/src/resource_store.rs:210-219 | Deletes the row of one pair; DatabaseError and no change exactly when the statement is refused |
| `PostgresStore.PostgresResourceStore.RemoveFor` | crates/jwtlet-postgres/src/resource_store.rs:221-229 | Deletes exactly the rows of one client; DatabaseError and no change exactly when the statement is refused |
| `PostgresStore.PostgresResourceStore.UpdateScope` | crates/jwtlet-postgres/src/resource_store.rs:256-271 | A refused statement is DatabaseError and changes no row; no affected row is NotFound naming the scope; otherwise the row now reads as the new mapping |
| `PostgresStore.PostgresResourceStore.RemoveScope` | crates/jwtlet-postgres/src/resource_store.rs:273-281 | Deletes the row of one scope; DatabaseError and no change exactly when the statement is refused |
| `PostgresStore.InsertMapping` | crates/jwtlet-postgres/src/resource_store.rs:166-182 | An INSERT is refused exactly when the primary key is taken, and keeps the key unique |
| `PostgresStore.UpdateMappings` | crates/jwtlet-postgres/src/resource_store.rs:191-205 | An UPDATE affects a row exactly when the key is there, and changes only what that key reads as |
| `PostgresStore.InsertScope` | crates/jwtlet-postgres/src/resource_store.rs:234-249 | An INSERT of a scope row is refused exactly when the scope is taken in the transaction |
| `PostgresStore.UpdateScopes` | crates/jwtlet-postgres/src/resource_store.rs:259-268 | An UPDATE of claims affects a row exactly when the scope is there |
| `PostgresStore.CollidesIffRepeats` | crates/jwtlet-postgres/src/resource_store.rs:234-249 | Why the two batch algorithms agree: inside the transaction element i collides exactly when it repeats the starting table or an earlier element |
| `PostgresStore.RefusesIff` | crates/jwtlet-postgres/src/resource_store.rs:116-302 | Which refusals an operation meets: of its only statement, of the second read only when the first found a row, of the begin, of an insert up to the first repeating element, or of the commit of a batch with none |
| `PostgresStore.RowRoundTrip` | crates/jwtlet-postgres/src/resource_store.rs:91-106 | A row written from a mapping, its sets listed in any order, reads back as that mapping; a claims column that is not an object gives no claim |
| `Backend.ResourceStore.Apply` | crates/jwtlet-core/src/resource/mod.rs:25-46 | Whichever store is behind the interface, every operation is the contract's step under the refusals that store faces, none for the memory store |
| `Backend.ResourceStore.Resolve` | crates/jwtlet-core/src/resource/mod.rs:27-31 | The lookup of either store changes nothing and answers as the contract does under its refusals |
| `Store.FirstRepeat` | crates/jwtlet-core/src/resource/mem.rs:108-113 | The least index whose scope exists already or repeats an earlier element |
| `Store.BatchIsAllOrNothing` | crates/jwtlet-core/src/resource/mod.rs:38-40 | Batch creation fails exactly when an element repeats, then changes nothing and names the first such scope; otherwise it adds exactly the batch and keeps the rest |
| `Store.EntryAfter` | crates/jwtlet-core/src/resource/mem.rs:71-103 | What any pair's entry is after any operation: created when absent, replaced when present, gone when it or its client is removed, else as it was |
| `Store.ScopeAfter` | crates/jwtlet-core/src/resource/mem.rs:105-133 | What any scope's mapping is after any operation |
| `Store.ReplyOf` | crates/jwtlet-core/src/resource/mem.rs:45-144 | What any operation answers: which failures it has and whom they name, and that a listing holds exactly its table |
| `Store.TwoReadResolve` | crates/jwtlet-postgres/src/resource_store.rs:118-160 | Over any writes between the reads: only scopes of the read mapping, each as at the second read; equal to the atomic answer of the first moment iff no granted scope mapping changed, of the second iff the entry did not |
| `Store.AtomicIff` | crates/jwtlet-postgres/src/resource_store.rs:118-160 | The two-statement lookup answers as one moment between its reads would iff the pair has no entry or some moment has the entry that was read together with the granted scope mappings read later |
| `Store.AtomicWhenScopesFirst` | crates/jwtlet-postgres/src/resource_store.rs:118-160 | It is atomic whenever the writes to the granted scopes all precede the writes to the entry, and at that moment |
| `Store.AtomicInBetween` | crates/jwtlet-postgres/src/resource_store.rs:118-160 | Scope written, then entry: the moment between the two writes answers so, and neither end does |
| `Store.TornRead` | crates/jwtlet-postgres/src/resource_store.rs:118-160 | Entry written, then scope: for every such pair of writes the old grant comes with the newer claims, and no moment answers so |
| `Store.EntryIsLocal` | crates/jwtlet-core/src/resource/mem.rs:71-103 | After any run a pair's entry is what the operations on that pair and the removals for its client alone would leave |
| `Store.ConcernsIff` | crates/jwtlet-core/src/resource/mem.rs:71-103 | The operations kept are exactly those that change the pair's entry in some policy |
| `Store.TouchesIff` | crates/jwtlet-core/src/resource/mem.rs:105-133 | The operations that touch a set of scopes are exactly those that change one of them in some policy, batches that repeat themselves aside |
| `Store.ScopesAreLocal` | crates/jwtlet-core/src/resource/mem.rs:105-133 | For a set of scope names that no batch straddles, their mappings after any run are what the operations touching them alone would leave |
| `Store.StraddlingBatchIsNotLocal` | crates/jwtlet-core/src/resource/mem.rs:105-118 | A batch that straddles the set ties its scopes together: one of them can be missing because of an operation on the other |
| `Store.VerifyIsLocal` | crates/jwtlet-core/src/resource/mod.rs:164-222 | `verify` depends only on the pair's entry and the requested scopes' mappings |
| `ClaimMerge.MergeClaims` | crates/jwtlet-core/src/resource/mod.rs:191-216 | The merge loop equals the per-key specification: it fails iff some key has two definitions with a non-string among them, naming such a key and how it clashed; otherwise each key holds its single value or its strings joined by one space in scope order |
| `ClaimMerge.ClashIsExplained` | crates/jwtlet-core/src/resource/mod.rs:196-209 | A conflict is one of types when the first of the clashing definitions is a string, and otherwise of two definitions |
| `ClaimMerge.SoleDefinition` | crates/jwtlet-core/src/resource/mod.rs:191-216 | A key that one requested scope alone defines never clashes and keeps its value, string or not |
| `ClaimMerge.StringsJoinInNameOrder` | crates/jwtlet-core/src/resource/mod.rs:170-198 | Two scopes with a string for one key, asked for in either order: the strings come out in the order of the scope names, one space between them |
| `ClaimMerge.MergeScope` | crates/jwtlet-core/src/resource/mod.rs:193-215 | The inner loop extends the combination by one scope, in whatever order that scope's claims are visited |
| `ClaimMerge.MatchOne` | crates/jwtlet-core/src/resource/mod.rs:195-213 | The three-way match keeps one key's combination or reports a real clash |
| `ClaimMerge.Verify` | crates/jwtlet-core/src/resource/mod.rs:164-222 | Store errors pass through; no mapping or an ungranted scope is an unverified result with no claims; a clash is ClaimConflict; otherwise merged claims and the mapping's audiences |
| `ClaimMerge.VerdictDependsOnScopeSet` | crates/jwtlet-core/src/resource/mod.rs:170-171 | Any permutation or repetition of the requested scopes gets the same verdict, claims and order inside joined strings |
| `ClaimMerge.VerdictIsLocal` | crates/jwtlet-core/src/resource/mod.rs:172-216 | Mapping pairs that agree on the mapping and on the requested scopes get the same verdict |
| `ClaimMerge.NarrowingIsMonotone` | crates/jwtlet-core/src/resource/mod.rs:184-216 | What is granted for a scope set is granted for every subset, with a subset of the keys, unchanged non-strings, and joined strings whose parts are a subsequence |
| `ClaimMerge.MergedStringSplits` | crates/jwtlet-core/src/resource/mod.rs:196-198 | Splitting a merged string claim on white space gives the concatenation, in scope order, of the contributions' own tokens |
| `ClaimMerge.SharedKey` | crates/jwtlet-core/src/resource/mod.rs:195-213 | In any request, a key that two scopes define is refused iff some requested scope defines it as a non-string; otherwise all definitions are joined, these two in scope order |
| `ClaimMerge.FilterCommutesWithMerge` | crates/jwtlet-core/src/token/mod.rs:79-90 | Filtering reserved keys after a successful merge equals merging mappings filtered first; filtering first succeeds iff no unreserved key clashes |
| `Service.ValidateResourceMapping` | crates/jwtlet-core/src/resource/mod.rs:88-108 | Accepts exactly mappings with non-blank client and context, requestable scope names and non-blank audiences; the error is the first failing check's |
| `Service.ValidateScopeMapping` | crates/jwtlet-core/src/resource/mod.rs:110-122 | Accepts exactly a requestable name with no reserved claim key; the error names the bad name or a reserved key present |
| `Service.ValidMappingIff` | crates/jwtlet-core/src/resource/mod.rs:88-108 | A mapping is valid iff no identifier or audience trims to nothing and each scope name splits to itself |
| `Service.ValidScopeMappingIff` | crates/jwtlet-core/src/resource/mod.rs:110-122 | A scope mapping is valid iff its name splits to itself and none of its keys is one of the eight reserved ones |
| `Service.RefusalIsFirstFault` | crates/jwtlet-core/src/resource/mod.rs:88-108 | A refused mapping is told its first failing check, in the order client, context, scopes, audiences |
| `Service.ScopeRefusalIsFirstFault` | crates/jwtlet-core/src/resource/mod.rs:110-122 | A refused scope mapping is told its bad name first, else a reserved key it has |
| `Service.ValidNamesAreRequestable` | crates/jwtlet-core/src/resource/mod.rs:77-86 | A name is valid iff some scope parameter can ask for it |
| `Service.ResourceService.Apply` | crates/jwtlet-core/src/resource/mod.rs:224-258 | Over either store, what validation refuses never reaches the store and is explained; everything else is the store's step, database refusals included |
| `Service.ResourceService.ValidateBatch` | crates/jwtlet-core/src/resource/mod.rs:244-247 | A batch is refused for its first invalid element |
| `Service.ResourceService.VerifyScopes` | crates/jwtlet-core/src/resource/mod.rs:164-222 | `verify` against either store: a refused read is DatabaseError, else the verdict of the policy, a conflict naming a key that really clashes and how |
| `Service.ReachableIsWellKept` | crates/jwtlet-core/src/resource/mod.rs:224-258 | Every policy reachable through the service, under any database refusals, keeps entry keys equal to entry fields, valid mappings and names, and no reserved claim key |
| `Service.NothingToDrop` | crates/jwtlet-core/src/token/mod.rs:79-90 | In such a policy the filter at issuance drops nothing, even when the two reads saw different moments |
| `Exchange.ResolveAudience` | crates/jwtlet-core/src/token/mod.rs:121-141 | Succeeds iff the requested-or-default audience is in the allowlist, an empty allowlist standing for the default alone, and then returns that audience; the result for each combination of requested, allowlist and default |
| `Exchange.MintExactly` | crates/jwtlet-core/src/token/mod.rs:66-111 | Which stage refuses, exactly when minting succeeds, and every claim of the result: subject, issuer, audience, times with exp - iat the configured lifetime, custom claims the unreserved merged ones plus act and jti |
| `Exchange.ActIdentifiesClient` | crates/jwtlet-core/src/token/mod.rs:92-99 | The act claim is the same exactly for the same subject, issuer and Kubernetes UID |
| `Exchange.ActNamesActor` | crates/jwtlet-core/src/token/mod.rs:92-99 | The act claim is an object holding the client's subject under sub, its issuer under iss and, if it has one, its UID under k8s_uid, and nothing else |
| `Exchange.BuildCustom` | crates/jwtlet-core/src/token/mod.rs:83-100 | The filtering loop and the two inserts build exactly the unreserved claims plus act and jti, and act names the client's subject, issuer and UID, each under its own name |
| `Exchange.CopyUnreserved` | crates/jwtlet-core/src/token/mod.rs:83-90 | The filtering loop keeps exactly the unreserved claims, in any visiting order |
| `Exchange.ExchangeToken` | crates/jwtlet-core/src/token/mod.rs:53-118 | The first failing stage, in order verifier, lookup, grant, merge, audience, generator, decides the error; otherwise the generator's token for the minted claims |
| `Exchange.ExchangeSucceedsIff` | crates/jwtlet-core/src/token/mod.rs:60-117 | The service returns a token exactly when the verifier accepts, the mapping is found, the scopes are granted, their claims merge, the audience is permitted and the generator signs the stated claims with that token; and each error kind arises exactly when its stage is the first to fail |
| `Exchange.SubmitsIffMinted` | crates/jwtlet-core/src/token/mod.rs:66-111 | Claims reach the generator exactly when every earlier stage agrees, and they are those claims |
| `Exchange.SubmittedClaims` | crates/jwtlet-core/src/token/mod.rs:92-117 | Whatever reaches the generator names the verified client as actor and goes to the requested audience, or the default, which the mapping lists unless its list is empty |
| `Exchange.ReservedIffSetByServer` | crates/jwtlet-core/src/resource/mod.rs:71-75 | The reserved names are exactly those that the server sets itself |
| `Exchange.AnswersDependOnScopeSet` | crates/jwtlet-core/src/token/mod.rs:66-70 | The service answers every ordering and repetition of a scope list alike, errors included |
| `Exchange.MintedNamesDistinct` | crates/jwtlet-core/src/token/mod.rs:79-111 | For arbitrary store contents, reserved keys included, the flattened payload never repeats a claim name (section 4 of RFC 7519) |
| `Exchange.NamesDistinctIff` | crates/jwtlet-core/src/token/mod.rs:79-82 | A flattened payload repeats no name iff the custom claims avoid the named ones, which is why the filter is needed |
| `Exchange.ScopeRoundTrip` | crates/jwtlet-server/src/exchange/mod.rs:77-84 | Parsing the response scope gives the granted names, each once; it is absent iff none was requested; normalising is idempotent (section 2.2.1 of RFC 8693) |
| `Exchange.TokenExchange` | crates/jwtlet-server/src/exchange/mod.rs:65-105 | Grant type, then token type, then an answer the service gives for the scope list exactly as the client wrote it; on success the access token is the generator's for claims whose exp - iat is the expires_in of the response, and the response scope is the sorted requested names joined by single spaces |
| `Issuance.EveryTokenIsJustified` | crates/jwtlet-core/src/token/mod.rs:53-118 | Over every interleaving of management calls and exchanges at the grain of single reads, with a verifier and a generator that may change their answers at any moment, each token has a client verified when its exchange began, a subject whose mapping for that client existed at lookup, scopes inside it, an audience it allows, the configured issuer and lifetime, act the client's identity, and custom claims exactly the merge at the second read plus act and jti; the two reads fall between begin and issue, and each sees exactly the management calls handled before it |
| `Issuance.EveryTokenIsTraceable` | crates/jwtlet-server/src/management/mod.rs:120-256 | Over every such run, each token's mapping, and each requested scope's claims, go back to a management call of the run that wrote exactly that value for a verified actor with the write role, is in the audit log, and was not undone or overwritten before the read |
| `Issuance.NextKeepsSound` | crates/jwtlet-core/src/resource/mod.rs:164-258 | Every single step of such a run keeps that |
| `Issuance.MintedCarries` | crates/jwtlet-core/src/token/mod.rs:77-111 | With no reserved key among the scope mappings, the minted claims carry subject, issuer, allowed audience, times and act, and custom claims exactly the merge plus act and jti |
| `Issuance.MintedIsJustified` | crates/jwtlet-core/src/token/mod.rs:77-116 | Claims minted for a verified client from a mapping found earlier make a justified token |
| `Issuance.RunAgreesWithService` | crates/jwtlet-core/src/token/mod.rs:53-118 | The last step of an exchange issues exactly the token that the exchange service returns for the same two reads |
| `Issuance.RunIssuesWhatServiceAnswers` | crates/jwtlet-core/src/token/mod.rs:53-118 | In every run, whatever else happens between the steps of an exchange, its last step adds exactly the service's token when the service gives one for the client verified, the mapping found and the scope mappings read at those moments, and nothing when it does not |
| `Issuance.RunManages` | crates/jwtlet-server/src/management/mod.rs:177-256 | A management call in a run is handled at its moment on the current policy and put on record |
| `Issuance.AbandonedIssuesNothing` | crates/jwtlet-core/src/token/mod.rs:66-75 | An exchange that ends early, its read refused or its client gone, issues nothing |
| `Issuance.RevocationBites` | crates/jwtlet-core/src/token/mod.rs:66-75 | If a client's mapping for a context is absent from some management call on, its tokens for that context all rest on lookups, and so on exchanges begun, before that call: an exchange begun later gets none |
| `Issuance.ScopeRevocationBites` | crates/jwtlet-core/src/resource/mod.rs:191-216 | If a scope mapping is absent from some management call on, every token issued after it carries exactly the claims that its other scopes give |
| `Issuance.EveryTokenIsTimely` | crates/jwtlet-core/src/token/mod.rs:60-117 | Over every run, each token's reads lie between its begin and its issue and count exactly the calls handled before them |
| `Management.LogRebuildsKeys` | crates/jwtlet-server/src/management/mod.rs:177-256 | Over every run of the handlers from any policy, replaying the audit events rebuilds exactly the keys of both tables, and on the way creations are of absent and updates of present keys |
| `Management.ChangesAreAuthorised` | crates/jwtlet-server/src/management/mod.rs:74-153 | Each table changes only for a verified caller with that table's write role; changes are logged; a call that fails changes and logs nothing |
| `Management.LogIsAuthorised` | crates/jwtlet-server/src/management/mod.rs:120-153 | An event is in a run's log exactly when a call of the run emitted it, on behalf of the event's own actor, verified at that moment and holding the write role for that table |
| `Management.EntryOrigin` | crates/jwtlet-server/src/management/mod.rs:177-219 | Every resource mapping that a run leaves was written by a call of the run, authorised and logged, and has been there unchanged since |
| `Management.ScopeOrigin` | crates/jwtlet-server/src/management/mod.rs:221-256 | Every scope mapping that a run leaves was written by a call of the run, alone or in a batch, authorised and logged, and has been there unchanged since |
| `Management.ManagementApi.Handle` | crates/jwtlet-server/src/management/mod.rs:120-256 | One call from header to log, over either store: unauthenticated, forbidden, path mismatch or answered, each exactly when it should be; state and log change as the effect says, and a database refusal leaves both alone; listings need the read role |
| `Management.ManagementApi.HandleAll` | crates/jwtlet-server/src/management/mod.rs:120-256 | Handling a list of calls leaves exactly the policy and the log of the specified trace, so the laws over runs are about the handlers |
| `Management.ManagementApi.AuthorizeWithRole` | crates/jwtlet-server/src/management/mod.rs:120-153 | The gate names the actor exactly for a caller whose header token the verifier accepts as that subject and whose account has the route's role, and otherwise says unauthenticated or forbidden |
| `Management.IdentityIff` | crates/jwtlet-server/src/management/mod.rs:120-136 | A call has an identity iff its header is the bearer scheme, in capital or small letters, and a token that the verifier accepts at that moment, and the identity is that token's subject |
| `Management.ActorIff` | crates/jwtlet-server/src/management/mod.rs:74-153 | An actor is such an identity whose account lists the role of the route, route by route |
| `Management.ActsWithMeansVerified` | crates/jwtlet-server/src/management/mod.rs:120-153 | Acting with a role always means that the verifier accepted the header's token as the actor's |
| `Management.SucceedsIff` | crates/jwtlet-server/src/management/mod.rs:177-256 | When a call takes effect, request by request: actor, no refusal, path equal to body, valid content, absent for creation and present for update |
| `Management.CallDoes` | crates/jwtlet-server/src/management/mod.rs:177-256 | What a successful call does to the policy, request by request, on the row that its path names |
| `Management.ListingsAreComplete` | crates/jwtlet-server/src/management/mod.rs:165-175 | A listing answers with exactly the mappings, or the scope mappings, of the policy |
| `Management.ManagementApi.Log` | crates/jwtlet-server/src/management/mod.rs:226-232 | A batch logs one event per element, in order; other mutations log one event |
| `Management.EffectIsLogged` | crates/jwtlet-server/src/management/mod.rs:177-256 | One call's events turn the old key sets into the new ones |
| `Management.BatchIsLogged` | crates/jwtlet-server/src/management/mod.rs:221-232 | The events of a batch turn the old scope names into the new ones, each created once |
| `Management.ExtractBearerToken` | crates/jwtlet-server/src/management/mod.rs:155-163 | The bearer scheme is matched without regard to case and cut off, the token kept as sent |
| `Management.BearerHeader` | crates/jwtlet-server/src/management/mod.rs:155-163 | A header carries a token iff it starts with bearer in any mix of capital and small letters and one space; the token is the rest |
| `Management.LastAccountDecides` | crates/jwtlet-core/src/saccount/mod.rs:40-55 | A client holds the required roles iff the last account listed for it does |
| `TokenReview.Judge` | crates/jwtlet-core/src/k8s/mod.rs:190-230 | A review is accepted iff authenticated, confirming the audience, with a user who is a service account where required; otherwise the failure is that of the first check that fails; the claims carry user, issuer, audience and a non-empty UID |
| `TokenReview.K8sTokenReviewVerifier.VerifyToken` | crates/jwtlet-core/src/k8s/mod.rs:172-231 | At most two calls: the cached token, and on 401 only the re-read file's token, which is also what stays cached; any other HTTP error is the answer, and acceptance means an authenticated review that confirms the audience |
| `TokenReview.AcceptedOnlyIfReviewed` | crates/jwtlet-core/src/k8s/mod.rs:172-231 | A verification accepts only what an authenticated review of this token for this audience confirms, with that review's user, a service account where required |
| `TokenReview.FailuresPassThrough` | crates/jwtlet-core/src/k8s/mod.rs:172-188 | Every failure is that of the call that decided: an HTTP error, the unreadable file, or the review's own fault, with cell and number of calls in each case |
| `TokenReview.ServiceAccountNeedsBoth` | crates/jwtlet-core/src/k8s/mod.rs:274-277 | Where a service account is required, a user without the name prefix or without the group is refused by name |
| `TokenReview.K8sTokenReviewVerifier.RefreshSaToken` | crates/jwtlet-core/src/k8s/mod.rs:115-126 | An unreadable file changes nothing; otherwise cell and result are the trimmed contents |
| `TokenReview.K8sTokenReviewVerifier.Initialize` | crates/jwtlet-core/src/k8s/mod.rs:79-103 | Loads the trimmed file once, and only when reading and watching both succeed |
| `TokenReview.CacheIsTransparent` | crates/jwtlet-core/src/k8s/mod.rs:172-188 | For any cached value a verification equals reading the file on every call, unless the cache holds an accepted token and the file a rejected one; then the cached token answers where the file's gets a 401 |
| `TokenReview.RefreshPaysOff` | crates/jwtlet-core/src/k8s/mod.rs:115-126 | After a verification with an accepted file token, the next one takes a single call |
| `TokenReview.WaitForTrigger` | crates/jwtlet-core/src/k8s/renewal.rs:75-94 | Consumes events up to the first that fires; gives up iff a watch error or the closed channel comes first |
| `TokenReview.SaTokenRenewer.Renew` | crates/jwtlet-core/src/k8s/renewal.rs:105-137 | The renewal loop leaves the trimmed contents of the last successful read, one read per firing |
| `TokenReview.LastReadIs` | crates/jwtlet-core/src/k8s/renewal.rs:113-122 | That is the last read that succeeded, trimmed, or the old token when none did |
| `TokenReview.FiringsAppend` | crates/jwtlet-core/src/k8s/renewal.rs:75-94 | Every creation, modification or removal fires, other events do not, and nothing fires after a watch error |
| `SaTokenCache.RetryIsFresh` | crates/jwtlet-core/src/k8s/mod.rs:173-188 | Under any interleaving of rotations, renewer and verifications the cell holds some version the file has had, a retry uses a version no older than the one current at its 401, and no verification makes more than two calls, counted as they are made |
| `SaTokenCache.NextKeeps` | crates/jwtlet-core/src/k8s/renewal.rs:108-137 | Every single step keeps that |
| `SaTokenCache.BeginRecords` | crates/jwtlet-core/src/k8s/mod.rs:173-176 | A verification begins with the cell's token and records the version current then |
| `SaTokenCache.AnswerRecords` | crates/jwtlet-core/src/k8s/mod.rs:178-188 | Its first answer counts as a call and records the version current then, as a 401 or as the end with its moment and the versions so far |
| `SaTokenCache.RereadRecords` | crates/jwtlet-core/src/k8s/mod.rs:115-122 | Its re-read records the version current then |
| `SaTokenCache.RetryRecords` | crates/jwtlet-core/src/k8s/mod.rs:182-186 | The answer to its retry counts as a call and ends it, with its moment and the versions so far |
| `SaTokenCache.ConcurrentCacheIsTransparent` | crates/jwtlet-core/src/k8s/mod.rs:172-188 | Under any interleaving, and with an API server that may change at any moment, a finished verification that retried answered for a version current between its begin and its end; if the server accepted the versions current from the 401 on, the answer is not a 401 and is what each of those versions would have got |
| `SaTokenCache.AloneIsCached` | crates/jwtlet-core/src/k8s/mod.rs:172-188 | A verification that nothing interrupts ends with the result, cell and number of calls of the sequential one |
| `SaTokenCache.CellStaysRecentIff` | crates/jwtlet-core/src/k8s/renewal.rs:108-137 | Under every further interleaving the cell stays at least as recent as version v iff it is so now and neither the renewer nor a refresher holds an older version read but not yet written |
| `SaTokenCache.NextStaysRecent` | crates/jwtlet-core/src/k8s/renewal.rs:108-137 | Every single step keeps that condition |
| `SaTokenCache.LateWriteOvertakes` | crates/jwtlet-core/src/k8s/renewal.rs:113-117 | In any state where the renewer holds an older version than a retry, its write leaves the cell behind the retry, with another token whenever the contents differ |
| `SaTokenCache.CellMayFallBehindRetry` | crates/jwtlet-core/src/k8s/renewal.rs:113-117 | That state is reachable: for any two contents that differ once trimmed, and an API server that turns the first away, there is a run in which the cell ends older than the token being retried, so the retry must use its own copy, as it does |
| `Text.BTreeSetOf` | crates/jwtlet-core/src/resource/mod.rs:170-171 | Collecting into the ordered set gives a strictly sorted listing of the same names |
| `Text.ListingAscends` | crates/jwtlet-core/src/resource/mod.rs:170-171 | Of two names in the listing the earlier one ends, or has the smaller character, where they part |
| `Text.LessIff` | crates/jwtlet-core/src/resource/mod.rs:170-171 | One string is below another iff it ends, or has the smaller character, at the position where they part |
| `Text.SortedListingUnique` | crates/jwtlet-core/src/resource/mod.rs:170-171 | A set has only one sorted listing, so merging is deterministic |
| `Text.SplitOfJoin` | crates/jwtlet-server/src/exchange/mod.rs:77-84 | Splitting a joined list gives the concatenation of the parts' tokens |
| `Text.JoinAppend` | crates/jwtlet-server/src/exchange/mod.rs:84-84 | Joining puts one space between neighbours and adds nothing else |
| `Text.WhitespaceListed` | crates/jwtlet-server/src/exchange/mod.rs:77-83 | White space is exactly the twenty-five characters of the Unicode property |
| `Text.SplitJoinRoundTrip` | crates/jwtlet-server/src/exchange/mod.rs:77-84 | Printing and parsing a list of scope names is the identity |
| `Text.TrimIsExact` | crates/jwtlet-core/src/k8s/renewal.rs:115-117 | Trimming removes white space at both ends and nothing else |
| `Text.TrimEmptyIffBlank` | crates/jwtlet-core/src/resource/mod.rs:89-102 | `trim().is_empty()` holds iff there is no non-white character |

## Left out

- HTTP serving, routing machinery, status codes, telemetry and configuration: plumbing and one-branch lookups.
- Signing, key sets and the payload encoder: foreign crates; the payload is taken to be the named claims followed by the custom ones.
- SQL parsing, connection pools and schema creation: tables are sets of rows with unique keys.
- Listing order: listings are compared as sets, since neither a hash map nor a table scan promises an order.
- Error texts: an error is modelled by its kind and the key, scope or client it names, not by its wording.
- Integer width: times are unbounded integers; the sum of the clock and a lifetime of at most 86400 seconds is far from the 64-bit limit.
- Linearizability of the Postgres lookup: the code does not provide it; `Store.TornRead` gives the failing runs and `Store.AtomicIff` says exactly when the answer is that of one moment.
- Eventual freshness of the cached service-account token and shutdown of the renewer: events may be dropped and the choice between ready branches is open, so the code does not decide them.
- Network delay of TokenReview answers: the API server decides in the step in which its answer arrives.
- Partial file reads: the kubelet replaces the token file by an atomic rename, so a read sees one version.
- Non-ASCII Authorization headers: the header is taken as already decoded text.
