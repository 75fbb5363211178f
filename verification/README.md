# Aegis: a verified model of the authorization engine

Aegis is a multi-tenant authorization engine. This project models the four parts of it that
carry real obligations, and proves what they promise over every input, every interleaving
and every reachable state.

* **Route trie** (`RouteIndex`, `RouteSearch`, `RouteTrie`, `TrieWalk`). The builder is a
  cursor loop that mutates a heap of `TrieNode` objects. It is proved to keep an unshared
  tree and to refine a plain map from erased paths to method maps; that map is proved to
  answer every request as a linear scan over the route list does.
* **Write model** (`Store`, `Machine`, `Tenancy`, `Counters`, `Isolation`, `SingleCalls`,
  `Services`). Each SQL statement is one atomic function on the tables, with its constraints,
  cascades, errors and the range of an integer column. A service call is a program of such
  steps, and any number of calls are interleaved, including the lookups and the increments
  that the code starts under `Promise.all`, crashes between steps, and row deletions.
  `Services` holds the service and repository classes over mutable tables, each method equal
  to an uninterrupted run of its call in that system.
* **Decisions** (`PermissionSlug`, `PolicyEngine`, `Caching`, `Decisions`, `Failures`). The
  slug language, the evaluator, and what follows for decisions over whole runs: caching by
  policy version, monotone access, incremental maintenance of the flat permission set, denial
  after deletion. `Failures` gives runs from the empty system in which the promises about
  versions break.
* **Identity** (`Identity`, `IdentityServices`). `resolve` split at its awaits, any number of
  copies interleaved with key changes and cache eviction.

Wherever a property fails of the code in general, the model keeps the code, a lemma exhibits
the failure, and another says when the property holds.

| property that fails | exhibited by | when it holds |
|---|---|---|
| the application's slug is the generated column | `SlugsAgree` | `SlugsAgree` |
| no route hides another | `DistinctPatternsCanCollide` | `NothingOverwrittenIff` |
| equal policy versions mean equal models | `CrashHidesAssignment`, `ExhaustedColumnHidesAssignment` (no crash, both states at rest), `DeletionHidesLoss` | `UnnoticedWritesIff` is the exact condition for a write to go unnoticed; `VersionKeyedCachingIsSound` draws the conclusion for decisions; `CachingIsSoundAtRest` is the form for crash-free runs at rest |
| both versions advance together | `CrashSplitsVersions`, `ExhaustedColumnHidesAssignment` (one column at its limit) | `VersionsAdvanceTogetherIff` for a call that runs to its end; `SuccessMeansEveryIncrement` in every reachable state |
| registering a tenant does not depend on others | `RegistrationCanBeBlocked` | `RegistrationIsIsolatedIff` |
| a cached resolve answers as an uncached one | `OpaqueEntryShows` | `CachedRefinesUncachedIff` |

Where the code and its comments disagree, the model follows the code:

* `src/core/runtime/buildTrie.ts:106-109` says the unique constraint on service, method and
  pattern rules out duplicate registration. It compares patterns as written, while the trie
  erases parameter names and one leading slash.
* `src/core/management/access-control/AccessControlService.ts:191` says both versions are
  incremented atomically as the caller sees it. The code starts two separate statements.
* `src/core/management/access-control/AccessControlService.ts:3-5` says that service alone
  increments counters. `PolicyRegistryService.createPolicy` does too.
* `src/core/runtime/PolicyEngine.ts:41-43` says every reason names the slug that decided. An
  ALL allow and an empty list name none.
* `db/migrations/1747000000000_tenants_and_principals.js:151-153` says stale permissions are
  never served under the version-keyed cache. A crash between a write and its increments, or a
  cascading delete, changes flat sets under unchanged versions.

## Model

| member | source | states |
|---|---|---|
| RouteTrie.BuildTrie | src/core/runtime/buildTrie.ts:70-78 | For every route list the returned heap is fresh and an unshared, parent-closed tree, and its abstraction is the index the list defines. |
| RouteTrie.InsertRoute | src/core/runtime/buildTrie.ts:80-111 | From any tree, one insertion keeps the tree invariant, only adds fresh nodes, and changes the abstraction by registering the route at its one erased (pattern, method) key. |
| RouteTrie.Enter | src/core/runtime/buildTrie.ts:88-104 | One cursor move lands on the child for the erased segment, having changed the abstraction by at most that child. |
| RouteTrie.EnterParam | src/core/runtime/buildTrie.ts:89-96 | A parameter segment leads to the single parameter child; the name is recorded only when the child is created. |
| RouteTrie.EnterExact | src/core/runtime/buildTrie.ts:97-103 | An exact segment leads to the child under that text, which never contains a slash or starts with a colon. |
| RouteTrie.TrieNode.constructor | src/core/runtime/buildTrie.ts:61-68 | A new node has no children, no parameter child, no name and no routes. |
| RouteTrie.AttachKeepsTree | src/core/runtime/buildTrie.ts:92-101 | Hanging a fresh node below a node keeps the heap an unshared tree in which the parameter name is set exactly where the parameter child is. |
| RouteTrie.AttachIsTouch | src/core/runtime/buildTrie.ts:92-101 | In the abstraction that is the addition of one empty node, and of one parameter name if the step is a parameter. |
| RouteTrie.RegisterAt | src/core/runtime/buildTrie.ts:110 | Setting the id at the leaf keeps the tree and changes the abstraction at that one key. |
| RouteTrie.RegisterKeepsTree | src/core/runtime/buildTrie.ts:110 | Overwriting a method map leaves every link as it was. |
| RouteIndex.PatternsErase | src/core/runtime/buildTrie.ts:83-92 | The pattern written from slash-free segments, with its leading slash or without it, has one step per segment: a parameter, under the rest of the text, where the segment starts with a colon, and otherwise the segment's exact text. |
| RouteIndex.RootPatternsErase | src/core/runtime/buildTrie.ts:83-84 | The empty pattern and the lone slash are the root. |
| RouteIndex.EveryPatternIsCovered | src/core/runtime/buildTrie.ts:83-84 | Every other string is written from such segments, so these two lemmas cover all patterns. |
| RouteIndex.NodesArePrefixes | src/core/runtime/buildTrie.ts:86-104 | A node exists for a path if and only if the path is empty or a prefix of some listed route's erased pattern. |
| RouteIndex.NodeCount | src/core/runtime/buildTrie.ts:86-104 | The index has one node more than there are distinct non-empty prefixes. |
| TrieWalk.HeapHoldsOneNodePerPrefix | src/core/runtime/buildTrie.ts:86-104 | So has the heap: that many distinct `TrieNode` objects. |
| RouteIndex.NoDeadBranches | src/core/runtime/buildTrie.ts:86-110 | Every node but the root has a registered route at or below it. |
| RouteIndex.LastWriteWins | src/core/runtime/buildTrie.ts:106-110 | A key holds the id of the last listed route registered under it, and nothing if there is none. |
| RouteIndex.NothingOverwrittenIff | src/core/runtime/buildTrie.ts:106-110 | Every listed route is found under its own key if and only if no two routes with one erased key have different ids. |
| RouteIndex.DistinctPatternsCanCollide | src/core/runtime/buildTrie.ts:106-110 | Two patterns that differ as text share a key, and the first id is lost. |
| RouteIndex.FirstThroughNamesParameter | src/core/runtime/buildTrie.ts:91-95 | A position has a name exactly when it has a parameter child, and the name is that of the first listed route through it. |
| RouteIndex.OrderIndependence | src/core/runtime/buildTrie.ts:73-77 | Permuting a list without shared keys changes no node, no id and no set of named positions. |
| RouteSearch.SearchIsSound | src/core/runtime/buildTrie.ts:12-22 | The exact-first backtracking walk ends only on a stored key that matches the request. |
| RouteSearch.SearchIsBest | src/core/runtime/buildTrie.ts:16-17 | If any stored key matches, the walk succeeds, on a key at least as specific as every matching one. |
| RouteSearch.SpecificityIsTotal | src/core/runtime/buildTrie.ts:16-17 | Among keys matching one request, exact-before-parameter is a total order. |
| RouteSearch.SpecificityIsTransitive | src/core/runtime/buildTrie.ts:16-17 | That order is transitive. |
| RouteSearch.SpecificityIsFirstDifference | src/core/runtime/buildTrie.ts:16-17 | One key is at least as specific as another exactly when they are equal, or it is exact and the other a parameter at the first position where they differ. |
| RouteSearch.LinearScanFindsMostSpecific | src/core/runtime/buildTrie.ts:7-17 | The linear scan returns a matching route, most specific, and last among equals, whenever one exists. |
| RouteSearch.IndexAgreesWithLinearScan | src/core/runtime/buildTrie.ts:7-17 | For every list, request and method the index and the scan give the same id or none. |
| RouteSearch.ExactKeyAnswers | src/core/runtime/buildTrie.ts:16-17 | If a listed key spells the request out, the last route under it answers, whatever parameter routes are listed. |
| TrieWalk.LookupIsSearch | src/core/runtime/buildTrie.ts:12-22 | Following the pointers of the heap tree from any node gives what the search on the abstraction gives. |
| TrieWalk.TrieAgreesWithLinearScan | src/core/runtime/buildTrie.ts:7-22 | The built heap answers every request and method as the linear scan does. |
| TrieWalk.OneRouteTrieAnswers | src/core/runtime/buildTrie.ts:80-111 | A heap built from one route answers a request exactly when the method agrees and every segment is a parameter of the written pattern or the same text. |
| TrieWalk.SpelledOutRouteAnswers | src/core/runtime/buildTrie.ts:16-17 | In a heap built from any list, a request that spells out a listed pattern without parameters is answered by the last route so written. |
| TrieWalk.FrontierIsMatching | src/core/runtime/buildTrie.ts:12-17 | Stepping to the exact and the parameter child reaches exactly the nodes whose erased path matches the request. |
| TrieWalk.ReachedIdsAreLastMatches | src/core/runtime/buildTrie.ts:80-111 | The ids at the reached nodes are exactly the ids of the last route under each matching key. |
| Text.JoinUndoesSplit | src/core/domain/Permission.ts:55 | Joining the pieces of any string gives the string back. |
| Text.SplitUndoesJoin | src/core/domain/Permission.ts:76 | Splitting a joined non-empty list of separator-free pieces gives the list back. |
| PermissionSlug.RecogniserIsPrinterImage | src/core/domain/Permission.ts:54-78 | A string is a valid slug if and only if it is built from some well-formed components. |
| PermissionSlug.AcceptedSlugsAre | src/core/domain/Permission.ts:54-65 | A string is accepted if and only if it is a non-empty word over the lower-case letters, digits and hyphen, a colon, one of the seven actions, and optionally a second colon and word. |
| PermissionSlug.CheckedComponentsAre | db/migrations/1747000000001_authz_model.js:115-135 | The checks admit exactly such words, such actions, and an absent specificity or such a word. |
| PermissionSlug.ParseUndoesBuild | src/core/domain/Permission.ts:71-78 | The components of a built slug are recovered from it. |
| PermissionSlug.BuildUndoesParse | src/core/domain/Permission.ts:54-65 | Every accepted slug splits into well-formed components and is rebuilt from them. |
| PermissionSlug.SlugDeterminesComponents | db/migrations/1747000000001_authz_model.js:158-171 | On rows the checks admit, equal generated slugs mean equal components. |
| PermissionSlug.SlugsAgree | db/migrations/1747000000001_authz_model.js:131-163 | The application's slug and the generated column agree if and only if the specificity is not the empty string, which the check excludes. |
| PolicyEngine.Evaluate | src/core/runtime/PolicyEngine.ts:49-74 | Allows exactly when the list is non-empty and some (ANY) or every (ALL) slug is held; the reason is the exact string, naming the first decider where one decides; versions are passed on. |
| PolicyEngine.EvaluateAny | src/core/runtime/PolicyEngine.ts:79-95 | The ANY loop: first held slug decides, otherwise the reason lists them all. |
| PolicyEngine.EvaluateAll | src/core/runtime/PolicyEngine.ts:100-122 | The ALL loop: first missing slug decides, otherwise nothing single does. |
| PolicyEngine.ReasonIsUnique | src/core/runtime/PolicyEngine.ts:49-122 | For given inputs only one reason string meets the specification. |
| PolicyEngine.AllowsIsMonotone | src/core/runtime/PolicyEngine.ts:21-27 | Holding more slugs never turns an allow into a deny. |
| PolicyEngine.AllowsIgnoresOrderAndRepeats | src/core/runtime/PolicyEngine.ts:69-73 | Two lists with the same slugs decide alike whatever their order and repetition. |
| PolicyEngine.RepairTakesOneGrantPerMissingSlug | src/core/runtime/PolicyEngine.ts:104-121 | Granting again and again the slug an ALL denial names reaches allow after exactly as many grants as there are distinct missing slugs. |
| Store.OtherTenantsPrincipalHoldsNothing | src/adapters/postgres/RoleRepository.ts:98-114 | The flat set of a principal of another tenant is empty although the query never joins principals. |
| Store.SlugUniquenessIsTripleUniqueness | db/migrations/1747000000001_authz_model.js:114-171 | Slug uniqueness per tenant is uniqueness of the component triple, and every stored slug is the application's. |
| Store.FlatSizeIsReachableRows | src/adapters/postgres/RoleRepository.ts:102-111 | The size of a flat set is the number of distinct permission rows the join reaches. |
| Store.DeletePrincipalCascades | db/migrations/1747000000001_authz_model.js:236-256 | Deleting a principal leaves, unchanged, exactly the rows whose references all stay. |
| Store.DeleteRoleCascades | db/migrations/1747000000001_authz_model.js:190-256 | The same for a role, through both junction tables. |
| Store.DeletePermissionCascades | db/migrations/1747000000001_authz_model.js:198-203 | The same for a permission. |
| Store.DeletePolicyCascades | db/migrations/1747000000001_authz_model.js:278-290 | The same for a policy, to which nothing refers. |
| Store.DeleteTenantCascades | db/migrations/1747000000001_authz_model.js:55-60 | The same for a tenant, through every table that refers to it and on to the junctions. |
| Store.AssigningRoleAddsItsSlugs | src/adapters/postgres/PrincipalRepository.ts:87-100 | After the insert a slug is in a flat set if and only if it was, or the set is that principal's and the role grants it. |
| Store.AssigningPermissionAddsItsSlug | src/adapters/postgres/RoleRepository.ts:65-80 | After the insert a slug is in a flat set if and only if it was, or it is the permission's and the principal holds the role. |
| Store.CreatingChangesNoFlatSet | src/adapters/postgres/RoleRepository.ts:98-114 | Adding role, permission, policy or principal rows changes no flat set. |
| Machine.RunConcat | src/core/management/access-control/AccessControlService.ts:107-196 | A run of the system can be cut anywhere and resumed from the state reached. |
| Tenancy.StepIsSafe | src/core/management/access-control/AccessControlService.ts:107-196 | One step of any call keeps every constraint, both junction ends in one tenant, and the knowledge the rest of the call relies on. |
| Tenancy.InsertRolePermissionIsSafe | src/adapters/postgres/RoleRepository.ts:75-79 | The junction insert without a tenant guard is safe given that both ends were seen in the tenant. |
| Tenancy.KnowledgeLasts | src/core/management/access-control/AccessControlService.ts:147-161 | What a call learned from its lookups stays true, or the row is gone for good, whatever the other calls do before its write. |
| Tenancy.EventKeepsInv | db/migrations/1747000000001_authz_model.js:190-256 | Every event, including the deletions with their cascades, keeps the invariant and never gives an issued id to another tenant. |
| Tenancy.EveryRunKeepsInv | src/core/management/access-control/AccessControlService.ts:107-196 | So does every run. |
| Tenancy.ReachableStatesKeepTenancy | db/migrations/1747000000001_authz_model.js:24-34 | In every reachable state of every interleaving with deletions, referential integrity, the checks, every uniqueness constraint and one-tenant junction rows hold, and another tenant's principal holds nothing. |
| Counters.StepPolicyAccount | src/core/management/access-control/AccessControlService.ts:112-113 | In one step the change of the policy version, of what is owed to it and of completed writes balance, and no other tenant row changes. |
| Counters.StepPrincipalAccount | src/adapters/postgres/PrincipalRepository.ts:75-85 | The same for a principal's version and role assignments. |
| Counters.PastTheWriteIffCommitted | src/core/management/access-control/AccessControlService.ts:186-195 | A call gets past its write in exactly the step whose statement succeeds. |
| Counters.CrashedCallsStop | src/core/management/access-control/AccessControlService.ts:186-195 | A crash is final: the call changes no table any more, answers no success it had not answered, and its write stays as it was. |
| Counters.EventKeepsAccounts | src/core/management/access-control/AccessControlService.ts:168-196 | Every event of the system keeps both balances. |
| Counters.CountersAreConserved | src/core/management/access-control/AccessControlService.ts:3-16 | In every reachable state policy version plus owed increments is one plus the model writes of the tenant, and principal version plus owed increments one plus its role assignments. |
| Counters.SuccessMeansEveryIncrement | src/core/management/access-control/AccessControlService.ts:188-195 | In every reachable state a call past its write has made every increment it stands for if and only if it answered success. |
| Counters.RunLosesOnlyAtLimit | src/adapters/postgres/TenantRepository.ts:98-107 | In a run without crashes a policy increment is lost only once the column is at its limit or the tenant is gone. |
| Counters.QuiescentIffNothingOwed | src/core/management/access-control/AccessControlService.ts:107-196 | In a run without crashes and below that limit, nothing is owed to a tenant's policy version if and only if none of its calls has the increment still to make. |
| Counters.KeyVersionCountsRotations | src/adapters/postgres/TenantRepository.ts:85-94 | Over every run the key version grows by exactly the number of rotations, up to the column's limit, while slug and key stay. |
| Isolation.OthersAreInvisible | src/core/management/access-control/AccessControlService.ts:107-196 | Local respect: no event of another tenant changes any row, counter or call of tenant t. |
| Isolation.StepsCommute | src/core/management/access-control/AccessControlService.ts:107-196 | A step computes on the whole database exactly what it computes on its tenant's rows, errors included. |
| Isolation.OwnEventsSeeTheSlice | src/core/management/policy-registry/PolicyRegistryService.ts:45-62 | Step consistency: an event of tenant t acts alike on states that look alike to t. |
| Isolation.TenantsDoNotInterfere | src/core/management/access-control/AccessControlService.ts:107-196 | Deleting every event of the other tenants from any run with fresh ids leaves t's rows, counters, calls and flat sets exactly as they were. |
| Isolation.FlatSlugsSeeTheSlice | src/adapters/postgres/RoleRepository.ts:98-114 | The four-table join gives on the tenant's rows alone what it gives on all rows. |
| Isolation.RegistrationIsIsolatedIff | db/migrations/1747000000000_tenants_and_principals.js:47-52 | Registering a tenant acts alike on two states if and only if its slug is inadmissible, taken in both or free in both. |
| Isolation.RegistrationCanBeBlocked | db/migrations/1747000000000_tenants_and_principals.js:47-52 | For every admissible slug, a run in which another tenant's registration makes one fail that succeeds without it. |
| Caching.ModelChangesAreRecorded | src/core/management/access-control/AccessControlService.ts:107-196 | An event, other than a deletion of the tenant's own, that changes anything its decisions read completes a write counted for that tenant. |
| Caching.EqualVersionsDifferOnlyInFlight | src/core/management/access-control/AccessControlService.ts:142-196 | If two states of a run have one policy version and different models of a tenant that deleted nothing in between, strictly more increments are owed in the later one. |
| Caching.UnnoticedWritesIff | src/core/management/access-control/AccessControlService.ts:3-16 | At one policy version, a write completed between two states of any run if and only if more increments are owed in the later one. |
| Caching.VersionKeyedCachingIsSound | src/core/management/access-control/AccessControlService.ts:13-16 | If the versions are equal and no more is owed than was, policies, flat sets and decisions are the same for every principal, whatever the other tenants do. |
| Caching.CachingIsSoundAtRest | src/core/management/access-control/AccessControlService.ts:13-16 | In a run without crashes, below the limit of the column, the same holds whenever the later state has no increment of the tenant still to make. |
| Caching.AbandonedAssignmentGoesUnnoticed | src/core/management/access-control/AccessControlService.ts:186-195 | From any state with an assignment at its write that grants a new slug: the write and a crash change the flat set under unchanged versions. |
| Caching.IncrementsAreNotAtomic | src/core/management/access-control/AccessControlService.ts:188-195 | From any state with both increments due: one increment and a crash advance the policy version and not the principal's. |
| Caching.LostIncrementsStayOwed | src/core/management/access-control/AccessControlService.ts:192-195 | An increment lost that way is owed in every later state of every run. |
| Failures.CrashHidesAssignment | src/core/management/access-control/AccessControlService.ts:186-195 | A run from the empty system, given event by event, whose last crash leaves both versions as they were and the flat set larger. |
| Failures.CrashSplitsVersions | src/core/management/access-control/AccessControlService.ts:188-195 | A run from the empty system that advances the policy version alone and leaves the principal's increment lost. |
| Failures.ExhaustedColumnHidesAssignment | db/migrations/1747000000000_tenants_and_principals.js:82-87 | A run from the empty system without any crash, at rest in both states, in which the policy version is at the limit of its column: an assignment changes the flat set under that version and advances the principal's alone. |
| Failures.DeletionHidesLoss | db/migrations/1747000000001_authz_model.js:24-34 | A run from the empty system in which a deletion empties a flat set under unchanged versions. |
| Decisions.AccessIsMonotone | src/adapters/postgres/PolicyRepository.ts:36-79 | If a stored policy allows a principal in one state it is stored unchanged and allows in every later state of a run in which that tenant deletes nothing, whatever the others do. |
| Decisions.OnlyLinksChangeFlatSets | src/core/management/access-control/AccessControlService.ts:107-137 | No event changes a flat set of a tenant but its own deletions and the junction writes of its own assignments. |
| Decisions.LinksMaintainFlatSets | src/core/management/access-control/AccessControlService.ts:142-209 | After a junction write the recomputed join is the old flat set plus exactly what the write adds, for every tenant and principal. |
| Decisions.GivingAndGrantingCommute | src/adapters/postgres/PrincipalRepository.ts:87-100 | Giving a role before or after it is granted a permission ends in the same links and flat sets, and the principal holds the permission. |
| Decisions.DeletingLeavesNoRow | db/migrations/1747000000001_authz_model.js:165-171 | After a permission is deleted no row of the tenant has its slug. |
| Decisions.DeletedPermissionDenies | src/core/runtime/PolicyEngine.ts:29-34 | From then on its slug is in no flat set and every ALL policy requiring it denies, until that permission is created again. |
| Decisions.DeletionTakesItsSlug | db/migrations/1747000000001_authz_model.js:165-202 | Under unique slugs, deleting a permission takes exactly its slug out of every flat set of the tenant. |
| Decisions.DeletionsAdvanceNoVersion | db/migrations/1747000000001_authz_model.js:24-34 | Deleting a permission changes the model and takes exactly its slug out of every flat set of the tenant, and changes no counter. |
| SingleCalls.AloneIsARun | src/core/management/access-control/AccessControlService.ts:107-196 | The uninterrupted run that specifies the service methods is a run of the interleaved system. |
| SingleCalls.LookupsSettleInAnyOrder | src/core/management/access-control/AccessControlService.ts:148-151 | The lookups that run concurrently lead to the same continuation in either order and change nothing. |
| SingleCalls.RecheckRefuses | src/adapters/postgres/RoleRepository.ts:72-73 | The repository's own lookup stops an assignment whose role is gone again, before its write. |
| SingleCalls.CreationAlone | src/core/management/access-control/AccessControlService.ts:107-137 | That run of a creation is its insert followed by one increment, which may fail after the row is in. |
| SingleCalls.PermissionAssignmentAlone | src/core/management/access-control/AccessControlService.ts:142-166 | That run of a permission assignment links the pair and makes one increment, or finds an end missing and changes nothing. |
| SingleCalls.RoleAssignmentAlone | src/core/management/access-control/AccessControlService.ts:168-196 | That run of a role assignment makes each increment independently of the other; the order they settle in shows only in which error is reported. |
| SingleCalls.VersionsAdvanceTogetherIff | src/core/management/access-control/AccessControlService.ts:188-195 | A role assignment that runs to its end advances both versions or neither if and only if a lookup failed or the two columns are both exhausted or both not. |
| Services.AccessControlService.CreateRole | src/core/management/access-control/AccessControlService.ts:107-116 | Tables and answer, the error or the created row, equal those of the uninterrupted run of the call; it succeeds exactly when the tenant exists below the version limit and the id and the name are free. |
| Services.AccessControlService.CreatePermission | src/core/management/access-control/AccessControlService.ts:121-137 | Likewise; it succeeds exactly when the components are admissible, the tenant exists below the version limit and the id and the slug are free; the returned record carries the slug the database generated. |
| Services.AccessControlService.AssignPermissionToRole | src/core/management/access-control/AccessControlService.ts:142-166 | Likewise: two lookups, the repository's own lookup, the write, one increment; a failed lookup changes nothing, and otherwise exactly the pair is linked. |
| Services.AccessControlService.AssignRoleToPrincipal | src/core/management/access-control/AccessControlService.ts:168-196 | Likewise, for either order in which the two increments settle; the one that fails first gives the error; the pair is linked exactly when both ends are the tenant's. |
| Services.AccessControlService.FlattenPermissions | src/core/management/access-control/AccessControlService.ts:203-209 | Returns exactly the flat set. |
| Services.PolicyRegistryService.CreatePolicy | src/core/management/policy-registry/PolicyRegistryService.ts:45-62 | Tables and answer equal those of the uninterrupted run; the returned policy carries the context version bound here; it succeeds exactly when the tenant exists below the version limit and the id and the name are free. |
| Services.Database.CreateTenant | src/adapters/postgres/TenantRepository.ts:47-63 | Fails the check exactly when the slug is not of the required form, reports a duplicate exactly when the id or the slug is taken, and otherwise stores and returns the row with both versions at 1. |
| Services.Database.CreatePrincipal | src/adapters/postgres/PrincipalRepository.ts:39-51 | Reports a duplicate exactly when the id, or the external id in the tenant, is taken, else a missing tenant, and otherwise stores and returns the row with its version at 1. |
| Services.Database.CreateRole | src/adapters/postgres/RoleRepository.ts:34-41 | Reports a duplicate exactly when the id, or the name in the tenant, is taken, else a missing tenant, and otherwise stores and returns the row. |
| Services.Database.CreatePermission | src/adapters/postgres/PermissionRepository.ts:37-51 | Fails the check exactly when a component is inadmissible, reports a duplicate exactly when the id, or the slug in the tenant, is taken, else a missing tenant, and otherwise stores and returns the row with its slug, which is valid and the application's. |
| Services.Database.CreatePolicy | src/adapters/postgres/PolicyRepository.ts:39-60 | Reports a duplicate exactly when the id, or the name in the tenant, is taken, else a missing tenant, and otherwise stores and returns the row with the context version it was given. |
| Services.Database.AssignPermission | src/adapters/postgres/RoleRepository.ts:65-80 | Adds the pair when the role is the tenant's and the permission exists, idempotently; otherwise an error and no change. |
| Services.Database.AssignRole | src/adapters/postgres/PrincipalRepository.ts:87-100 | Adds the pair exactly when both ends are the tenant's, and never fails. |
| Services.Database.IncrementPolicyVersion | src/adapters/postgres/TenantRepository.ts:98-107 | Adds one and returns the new value; a missing row or an exhausted integer column is an error and no change. |
| Services.Database.IncrementKeyVersion | src/adapters/postgres/TenantRepository.ts:85-94 | The same for the key version. |
| Services.Database.IncrementVersion | src/adapters/postgres/PrincipalRepository.ts:75-85 | The same for a principal of the tenant. |
| Services.Database.GetFlatPermissionSlugs | src/adapters/postgres/RoleRepository.ts:98-114 | A slug is returned if and only if some role of the tenant is held by the principal and granted a permission of the tenant with that slug. |
| Identity.CacheKeysAreDistinct | src/core/runtime/IdentityService.ts:46 | Distinct tenants have distinct cache keys. |
| Identity.PayloadDecides | src/core/runtime/IdentityService.ts:161-184 | On three dot-free segments the outcome of the unverified decode depends on the middle one alone: malformed, no claim, an empty claim, or the tenant it names. |
| Identity.OtherTokensAreMalformed | src/core/runtime/IdentityService.ts:161-170 | Any string that is not three segments with a non-empty middle one is malformed. |
| Identity.NoTokenNoSuccess | src/core/runtime/IdentityService.ts:67-77 | Resolving such a string denies it as malformed and leaves the cache alone. |
| Identity.DenialNamesFirstFailure | src/core/runtime/IdentityService.ts:79-104 | Once the payload names a tenant, the denial is that of the first failing check: tenant, validation, tenant match, principal; and there is none if all pass. |
| Identity.FailedResolvesDeny | src/core/runtime/IdentityService.ts:119-120 | A failing await denies, touches no cache entry, and nothing that settles later changes that. |
| Identity.ServicesAdvanceKeys | src/adapters/postgres/TenantRepository.ts:85-94 | No event of the services removes a tenant or takes a key version back. |
| Identity.HappeningIsTraced | src/core/runtime/IdentityService.ts:67-141 | Every await of every resolve, every eviction and every table change keeps each cached or held pair traceable to one moment of the tenant's row. |
| Identity.CachedKeysWereRows | src/core/runtime/IdentityService.ts:116-141 | In every interleaving each cached pair was the tenant row's pair at one single earlier moment. |
| Identity.ResolvedIdentitiesAreJustified | src/core/runtime/IdentityService.ts:67-113 | Each resolved identity rests on one such pair under which the token was valid for the decoded tenant, and on a principal row of that tenant. |
| Identity.CachedVersionsAreNotAhead | src/core/runtime/IdentityService.ts:131-138 | No cached key version exceeds the stored one. |
| Identity.AloneJudges | src/core/runtime/IdentityService.ts:67-113 | A resolve with nothing in between judges the token by the cached entry if there is one, by the tenant row otherwise. |
| Identity.AloneFillsOnlyItsEntry | src/core/runtime/IdentityService.ts:116-141 | It fills its own tenant's missing entry from the row and touches no other entry. |
| Identity.CachedRefinesUncachedIff | src/core/runtime/IdentityService.ts:67-141 | For a tenant, cached and uncached resolve agree for every decoder, validator, token and time if and only if the entry is absent, equals the row, or differs only in a version that no principal could be given. |
| Identity.OpaqueEntryShows | src/core/runtime/IdentityService.ts:119-123 | For any other entry some decoder and validator make the two answers differ. |
| Identity.SuccessNamesOneTenant | src/core/runtime/IdentityService.ts:92-112 | A resolve of three segments succeeds with a context if and only if the payload names its tenant, the cached entry, or failing that the row, verified the token with claims naming that tenant and principal, the principal exists in it, and the versions are those of the entry or row and the principal. |
| IdentityServices.IdentityService.constructor | src/core/runtime/IdentityService.ts:56-65 | The service starts over an empty cache. |
| IdentityServices.IdentityService.Resolve | src/core/runtime/IdentityService.ts:67-113 | Cache and answer, each denial included, equal those of the resolve with nothing in between. |
| IdentityServices.IdentityService.FetchTenantKey | src/core/runtime/IdentityService.ts:116-141 | A hit returns the entry and changes nothing; a miss returns and caches the row; an unknown tenant is an error and caches nothing. |

## Left out

* HTTP handlers, Zod schemas, configuration, health probes and the development server: plumbing around the modelled services.
* JWT cryptography, base64url and JSON: the payload decoder and the validator are function parameters, and cache entries are values rather than JSON text. A payload that is JSON `null`, on which the code raises a TypeError, counts as malformed.
* Timestamps, display fields, principal metadata and plan tiers: no modelled property reads them, and the rows that creations return are without them.
* `listByTenant`, `findBySlug`, `findManyByIds` and `getPermissionIds`: plain reads.
* Services, routes and their repository: `createRoute` does not check the policy's tenant, so no property joins routes to policies. The trie takes its route list as given.
* `matchTrie`, parameter capture, the permission resolver, the enforcement pipeline and the Redis adapters are not part of this model; the trie walks are specification functions only.
* Identifier generation: an id never repeats and is drawn at the insert step rather than at the call.
* The order in which two increments under `Promise.all` settle is a parameter of the service method.
* Infrastructure failures: in the interleaved systems a call or a resolve may crash or fail at any await; the object-style methods leave them out.
* Deletions are events of the environment, with the cascades the schema declares, since no service deletes rows. The caching and monotonicity results are about tenants that delete nothing of their own.
* `CachedKeysWereRows`, `ResolvedIdentitiesAreJustified` and `CachedVersionsAreNotAhead` let the tables change arbitrarily as long as tenants stay and key versions do not go back. Nothing is claimed about freshness after a rotation: a resolve that read the old row can write it back after the entry was deleted.
* Cache expiry after one hour is an eviction that may happen at any time.
* Policies may have an empty list of required slugs: the schema's minimum of one is checked by the routes, not by the service or the table.
