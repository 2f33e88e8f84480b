# Verified model of the Nexustal backend core

Nexustal is an API workbench: teams describe endpoints, send requests built from templates and environments,
and are notified of invitations. This project models the parts of its C++ backend that hold state machines,
loops and codecs, and proves what they keep over every input and every run.

| component | files |
|---|---|
| template substitution: dynamic tokens, variable sweep, lifted over JSON and endpoints | `Text`, `Splicing`, `Printing`, `DynamicVariables`, `Templates`, `Expansion`, `Json`, `RequestExecutor` |
| the four read-through caches on one Redis: keys, tokens, roles, environments | `CacheKeys`, `TokenService`, `Roles`, `Environments`, `CacheStaleness` |
| the endpoint tables, their wire form and the guarded service | `Endpoints`, `EndpointStore`, `EndpointWire`, `EndpointService`, `AccessControl` |
| the migration runner | `Migrations` |
| invitations and team membership | `Invitations` |
| server-sent events | `Sse` |

`dafny verify dfyconfig.toml` checks everything. What the program mutates is a class or a local variable here
too; every such method is proved against a function of the state before the call, and the properties of runs
are lemmas about those functions. The clock, random numbers, generated identifiers, the iteration order of a
directory, the collation of a query, lost or late cache commands and messages, and failing reads and writes (of
the caches, the users and roles behind them, migrations and invitations) are parameters or arbitrary choices, so
each statement holds for all of them.

Assumptions: a service call is one step; `generate_uuid` is fresh; commands on the single Redis connection run in
issue order and are not lost (for exact coherence only; `CacheStaleness` drops it); JSON text parsing and printing
are inverse. A template is a sequence of literals and
`{{key}}` references; a literal may hold braces, as long as it holds no `{{` and does not end in `{`.

## What came out

- A sweep expands everything exactly when values refer to later keys only; otherwise references are left over.
  The order of the keys shows in some output exactly when a value refers to another variable that is not simply the
  reference to itself (`OrderIrrelevantIff`). Dynamic tokens inside the values of stored
  variables are never resolved (those of overrides are, `ExecutionVariables`); they are gone from every result only if a
  later variable of that name overwrites them (`DynamicTokensGoneIff`).
- A failed user lookup in the request filter is cached as "viewer": one failure demotes an administrator for an hour
  (`FailedReadDemotesAdmin`, `UserRoleBoundIff`). Elsewhere a failed read only costs the answer of that call.
- Logout reports success also when the rotation did not reach the database, and then the old token stays valid
  (`LogoutRevokesIff`).
- The pool is opened with one connection (backend/src/main.cpp:62), and `update` looks its endpoint up through the pool
  while its own transaction holds that connection: as wired, update and publish wait for themselves and never return.
  The model describes what they do where the lookup returns.
- A login that read its user before a rotation and stores after it revives the revoked version (`StaleLoginRevives`),
  and a cached answer can be older than its TTL by the delay of the SETEX (`LateStoreOutlivesTtl`).
- A project-role key is ambiguous exactly for ids with a colon.
- The role column refuses "admin" and reads "owner" as Viewer, so no stored role may delete an endpoint: the
  deletion the capability table promises to administrators is out of reach (`NothingIsEverDeleted`).
- Whoever may edit an endpoint may publish it by PUT: the update guard does not look at the status asked for
  (`StatusChangesIff`, `PutPublishes`).
- A REST body whose "raw" is not text is stored and then makes its endpoint unreadable for good
  (`NormalisationFacts`, `UnreadableIsStuck`), and its project's list with it (`FindByProject`); raw text over a body
  that is an array, text or number throws in mid-transaction, and soundness then rests on the driver rolling back.
- Endpoint details that do not match the type leave an orphan row for good (`MismatchIsPermanent`); the controller
  never produces them.
- An accept whose membership write fails uses the invitation up (`AcceptBurnsIff`, `BurntForever`), and accepting
  replaces an owner's row by the invited role.
- The migration search needs byte order: under another collation a start can fail, though nothing is applied twice.
  A file added later under an earlier version is applied out of order.
- The channel `user:notifications` passes both checks of the callback and decodes to `notifications`; the
  subscription pattern keeps it out.

## Model

| member | source | states |
|---|---|---|
| Splicing.CutCharacterised | backend/application/execution/request_executor.cpp:180-191 | the find/replace scan reads its input in the only way it can be read as pieces separated by leftmost, non-overlapping occurrences of the token |
| Splicing.ScanIsReplace | backend/application/execution/request_executor.cpp:185-190 | scanning on from just after each replacement gives that cut joined by the replacement, also when the replacement holds the token; the scan ends for every input |
| Splicing.ReplaceInPlace | backend/application/execution/request_executor.cpp:185-190 | the in-place loop computes exactly that text |
| Splicing.SpliceLength | backend/application/execution/dynamic_variables.hpp:87-98 | the output is as long as the input, less every token found, plus every replacement drawn |
| Splicing.ReplaceLength | backend/application/execution/request_executor.cpp:185-190 | with one text throughout, every occurrence of the token trades the token's length for the text's |
| Splicing.PieceOfCut | backend/application/execution/dynamic_variables.hpp:87-98 | no piece between replacements holds the token, and a piece holds nothing the input did not |
| Splicing.ReplaceIsIdentityIff | backend/application/execution/request_executor.cpp:185-190 | a pass changes a text exactly when the text holds the token and the replacement is not the token itself |
| Text.LessIs | backend/src/platform/migration_runner.cpp:62-64 | one text comes before another exactly if it is a proper prefix of it or has the smaller character where they first differ: the order of std::string |
| Printing.DecimalReads | backend/application/execution/dynamic_variables.hpp:22-33 | a printed number reads back as the number, digits only, no leading zero, a minus sign in front of a negative one |
| Printing.HexByteReads | backend/domain/common.hpp:30-37 | a byte's two printed digits read back as the byte |
| Printing.GenerateUuid | backend/domain/common.hpp:14-40 | the byte buffer masked in place and printed in a loop: 36 characters, hyphens at 8, 13, 18 and 23, version 4 and variant bits as in section 5.4 of RFC 9562, and otherwise the digits of the random bytes |
| Printing.UuidTextAt | backend/domain/common.hpp:14-40 | each byte is printed as its two hex digits at its own position, followed by a hyphen exactly after bytes 3, 5, 7 and 9 |
| Printing.UuidIsSafe | backend/domain/common.hpp:14-40 | a printed UUID has no brace and holds a digit |
| DynamicVariables.EmittedIsSafe | backend/application/execution/dynamic_variables.hpp:19-54 | whatever the five generators draw is brace-free and holds a digit, which no dynamic token does |
| DynamicVariables.Generate | backend/application/execution/dynamic_variables.hpp:22-51 | each generator produces a text of its documented form |
| DynamicVariables.ReplaceAll | backend/application/execution/dynamic_variables.hpp:87-98 | the loop ends for every input and replaces each leftmost occurrence by a draw of its own |
| DynamicVariables.PassRemoves | backend/application/execution/dynamic_variables.hpp:19-54 | a pass removes its own token and lets none of the other four appear |
| DynamicVariables.ResolveLeavesNoToken | backend/application/execution/dynamic_variables.hpp:19-54 | after resolve none of the five dynamic tokens occurs, for every input and every draw; a text without them is untouched |
| DynamicVariables.ResolveFixpoint | backend/application/execution/dynamic_variables.hpp:19-54 | resolve changes a text exactly when it holds a dynamic token, and a second resolve changes nothing |
| DynamicVariables.Resolve | backend/application/execution/dynamic_variables.hpp:19-54 | the five passes in the program's order, leaving no dynamic token; what each token becomes is stated by IntMeans to EmailMeans of Expansion |
| DynamicVariables.IsoReads | backend/application/execution/dynamic_variables.hpp:34-46 | year, month, day, hour, minute and second read back from their places in a printed time |
| Templates.CutRender | backend/application/execution/request_executor.cpp:185-190 | cutting a template's text at a key's token finds exactly the template's references to that key |
| Templates.ReplaceRender | backend/application/execution/request_executor.cpp:185-190 | one sweep over the text is plugging the value into the template, whatever the value holds |
| Expansion.SweepRender | backend/application/execution/request_executor.cpp:180-191 | the whole key-by-key sweep over the text is the sweep over the template |
| Expansion.SweepIsExpand | backend/application/execution/request_executor.cpp:180-191 | the sweep equals expanding each reference recursively with the keys that come after it, for every order and all values, self-references included |
| Expansion.MentionsIsOccurs | backend/application/execution/request_executor.cpp:180-191 | a template refers to a key exactly when its text holds the key's token |
| Expansion.SweepCompleteIffForward | backend/application/execution/request_executor.cpp:171-194 | no reference to a defined key is ever left, in any template, if and only if every value refers to strictly later keys only |
| Expansion.SweepIdempotent | backend/application/execution/request_executor.cpp:171-194 | with such values a second sweep changes nothing |
| Expansion.SweepUnfolds | backend/application/execution/request_executor.cpp:171-194 | with such values the sweep of a reference is the sweep of its value |
| Expansion.SweepIsTheSolution | backend/application/execution/request_executor.cpp:171-194 | any solution of the recursive expansion equations is what one sweep computes |
| Expansion.SweepSolves | backend/application/execution/request_executor.cpp:171-194 | and the sweep is such a solution: full recursive expansion |
| Expansion.SweepIsSimultaneous | backend/application/execution/request_executor.cpp:180-191 | when no value refers to a defined key the sweep is one simultaneous substitution, undefined references kept verbatim |
| Expansion.OrderIrrelevantIff | backend/application/execution/request_executor.cpp:180-191 | the order of the keys does not matter, for any template, if and only if every value that refers to another defined variable refers to one whose text is the reference to itself |
| Expansion.SweepOrderIrrelevant | backend/application/execution/request_executor.cpp:180-191 | in particular when no value refers to a defined variable |
| Expansion.OrderMattersForReferences | backend/application/execution/request_executor.cpp:180-191 | an instance where it does matter: a family of two variables with both outputs |
| Expansion.ResolveRender | backend/application/execution/dynamic_variables.hpp:19-54 | resolving a template's text replaces exactly its references to generator names |
| Expansion.IntMeans | backend/application/execution/dynamic_variables.hpp:22-26 | {{$randomInt}} between brace-free texts becomes, and may become, any number from 1000 to 999999 |
| Expansion.GuidMeans | backend/application/execution/dynamic_variables.hpp:27-29 | {{$guid}} becomes, and may become, any version 4 UUID |
| Expansion.TimestampMeans | backend/application/execution/dynamic_variables.hpp:30-33 | {{$timestamp}} becomes a number of seconds |
| Expansion.IsoMeans | backend/application/execution/dynamic_variables.hpp:34-46 | {{$isoTimestamp}} becomes the printed reading of a clock |
| Expansion.EmailMeans | backend/application/execution/dynamic_variables.hpp:47-51 | {{$randomEmail}} becomes user, a number from 1000 to 999999, and @example.test |
| RequestExecutor.SubstituteString | backend/application/execution/request_executor.cpp:171-194 | resolve first, then the sweep over the variables in ascending key order; what goes in for a variable is stated by OneVariable |
| RequestExecutor.OneVariable | backend/application/execution/request_executor.cpp:171-194 | a reference to a variable of any object, between brace-free texts, becomes exactly the string, unquoted, or the JSON text of a value that is not a string, where no other variable's token arises |
| RequestExecutor.OnlyVariable | backend/application/execution/request_executor.cpp:183 | for a single variable: the string itself, or the JSON text of anything else |
| RequestExecutor.HoldsIff | backend/application/execution/request_executor.cpp:183 | the premise of the template laws, written out: each value is a template whose text is the string, or the JSON text |
| RequestExecutor.SweepOrder | backend/application/execution/request_executor.cpp:180 | the sweep visits every field once, in byte order of the names |
| RequestExecutor.SubstitutedTemplate | backend/application/execution/request_executor.cpp:171-194 | on a template's text: generator references become draws, then every variable reference is expanded with the later keys |
| RequestExecutor.DynamicTokensGoneIff | backend/application/execution/request_executor.cpp:171-194 | since dynamic tokens are resolved before variables go in, results are free of them for all templates if and only if every generator mentioned by a reachable variable's value is the key of a later variable; with no variable named like a generator, if and only if no value mentions one |
| RequestExecutor.SubstituteJson | backend/application/execution/request_executor.cpp:196-225 | the substitution lifted over a JSON tree keeps its shape and keys and rewrites every string leaf |
| RequestExecutor.ResolveJson | backend/application/execution/dynamic_variables.hpp:56-84 | the same for resolve |
| RequestExecutor.ResolvedJsonHasNoToken | backend/application/execution/dynamic_variables.hpp:56-84 | no string of a resolved tree holds a dynamic token |
| RequestExecutor.SubstituteJsonTwice | backend/application/execution/request_executor.cpp:196-225 | on any tree of template strings, generator references included, with forward values that let no generator through: nothing is left to expand anywhere in the tree, and substituting again returns it unchanged |
| RequestExecutor.ExecutionVariables | backend/application/execution/request_executor.cpp:56-57 | overrides are resolved before they are merged: a variable won from them holds no dynamic token, every other one is the last writer of environment and globals as stored |
| RequestExecutor.SubstituteEndpoint | backend/application/execution/request_executor.cpp:121-169 | only name, description and the texts of the details are rewritten, each by the substitution; identity, type and variant stay |
| RequestExecutor.EndpointFinished | backend/application/execution/request_executor.cpp:121-169 | with forward values that let no generator through, nothing is left to expand in any text of any variant, field by field |
| RequestExecutor.EndpointSettles | backend/application/execution/request_executor.cpp:121-169 | and details with nothing to expand come out exactly as they are |
| Endpoints.CodecsRoundTrip | backend/domain/endpoint.hpp:85-167 | type and method names read back as what was printed, and a name survives reading exactly if it is a printed one |
| Endpoints.CodecNames | backend/domain/endpoint.hpp:85-167 | the names of types and methods |
| Endpoints.OtherNames | backend/domain/endpoint.hpp:85-167 | any other name reads as REST, or as GET |
| Roles.RoleNames | backend/domain/auth/capabilities.hpp:64-95 | the names of roles, the reading of any other text as Viewer, and which names the column admits |
| Roles.CapabilityTable | backend/domain/auth/capabilities.hpp:29-62 | the whole capability table, capability by capability |
| Roles.RoleRoundTrip | backend/domain/auth/capabilities.hpp:64-95 | roles read back as printed, and the column admits every role but Admin |
| Roles.StoredRoleCapabilities | backend/migrations/001_initial.sql:78 | no role the column admits reads as Admin or grants deletion or team management; "owner" reads as Viewer |
| CacheKeys.KeysDisjoint | backend/infrastructure/adapters/jwt_token_service.cpp:165-168 | keys of the four caches never coincide, for any ids, and outside the project-role cache the id is recovered |
| CacheKeys.ProjectRoleCollisionIff | backend/application/role_service.cpp:12-15 | a project-role key belongs to a second pair of ids if and only if one of its ids holds a colon |
| CacheKeys.PrintInjective | backend/infrastructure/adapters/environment_cache.cpp:43-46 | an entry found under a key was written for that very key, colons in the key asked for included |
| CacheKeys.SharedRedisRefinesTyped | backend/src/filters/jwt_auth_filter.cpp:16-19 | the one shared string map behaves as four separate typed caches under every command |
| CacheKeys.PrintedKeys | backend/infrastructure/adapters/jwt_token_service.cpp:165-168 | the four keys as Redis sees them |
| TokenService.CreateTokensCoherentIff | backend/infrastructure/adapters/jwt_token_service.cpp:27-61 | issuing tokens keeps the cache coherent if and only if the record used is the stored one |
| TokenService.ValidateIsDirect | backend/infrastructure/adapters/jwt_token_service.cpp:63-97 | a coherent service accepts exactly what the service without a cache accepts if the cache or the database answers, and refuses if neither does |
| TokenService.StepKeepsValid | backend/infrastructure/adapters/jwt_token_service.cpp:27-163 | with pending commands drained every cached version is absent or the stored one, after every login, validation, rotation, delivery, expiry or command of another cache |
| TokenService.CachedRefinesCacheless | backend/infrastructure/adapters/jwt_token_service.cpp:27-163 | over every run the cached service gives the answers, and leaves the users, of the cacheless one, except that it may refuse where the database read fails |
| TokenService.LogoutRevokesForever | backend/application/auth_service.cpp:40-49 | a token whose version was generated before a successful rotation is refused in every continuation |
| TokenService.LogoutRevokesIff | backend/application/auth_service.cpp:40-49 | logout answers true either way; a token accepted until then is refused in every continuation if and only if the rotation reached the database |
| TokenService.StaleLoginRevives | backend/application/auth_service.cpp:14-38 | a login split around a rotation makes the service accept the revoked version again |
| TokenService.AcceptedTokens | backend/infrastructure/adapters/jwt_token_service.cpp:63-97 | a token is accepted only if signed with the service's secret by nexustal, not expired, and of the stored version of a stored user; and always then if the database answers |
| TokenService.TokenLifetime | backend/infrastructure/adapters/jwt_token_service.cpp:27-125 | a token issued at some moment is accepted, after any run, exactly while no more than 900 s have passed and no logout of its user was stored |
| TokenService.LoginIff | backend/application/auth_service.cpp:14-38 | a token is issued exactly if a stored user of that name is active and the password matches; it carries that user, the stored version, the issuer and an expiry 900 s ahead |
| TokenService.LookupsWarm | backend/infrastructure/adapters/jwt_token_service.cpp:127-163 | a lookup that answers, and issuing tokens, leave the version in the cache |
| TokenService.JwtTokenService.IssueTokens | backend/infrastructure/adapters/jwt_token_service.cpp:27-61 | the SETEX queued and the token minted |
| TokenService.JwtTokenService.CurrentVersion | backend/infrastructure/adapters/jwt_token_service.cpp:127-163 | read-through lookup; the version returned is the stored one, and none is returned only if there is none or the read failed |
| TokenService.JwtTokenService.CheckAccessToken | backend/infrastructure/adapters/jwt_token_service.cpp:63-97 | claims only for a token of the service's secret and issuer that has not expired and holds the stored version; the verdict is the cacheless one, or a refusal when the read fails |
| TokenService.JwtTokenService.Rotate | backend/infrastructure/adapters/jwt_token_service.cpp:99-125 | the new version stored, the DEL queued, and every token of an earlier version dead from here on |
| Environments.VariablesRoundTrip | backend/domain/environment/environment.hpp:58-82 | a variable list reads back from its JSON unchanged |
| Environments.EnvironmentRoundTrip | backend/infrastructure/adapters/environment_cache.cpp:15-33 | the cache codec loses the two timestamps and nothing else |
| Environments.PrintedMembers | backend/domain/environment/environment.hpp:40-46 | the members of a printed variable, and of a printed environment |
| Environments.VariableReads | backend/domain/environment/environment.hpp:48-56 | exactly which objects are refused as variables, and what missing members read as |
| Environments.EnvironmentReads | backend/infrastructure/adapters/environment_cache.cpp:24-33 | the same for environments; variables that are not an array are none |
| Environments.WinnerIs | backend/infrastructure/adapters/environment_cache.cpp:110-142 | the value a key ends up with: the override's, else that of the last variable with the key in globals followed by environment, as JSON if it parses |
| Environments.OverlayVariables | backend/infrastructure/adapters/environment_cache.cpp:120-123 | the overlay loop leaves, per key, the last writer of the list over what was there |
| Environments.ResolveVariables | backend/infrastructure/adapters/environment_cache.cpp:110-142 | globals, then the environment if there is one, last writer per key |
| Environments.MergeObjectInto | backend/application/execution/request_executor.cpp:21-32 | every field of an object source is written; other sources change nothing |
| Environments.StartVariables | backend/application/execution/request_executor.cpp:56-57 | an execution starts from the last writer per key in the order globals, environment, overrides |
| Environments.GetAfterSet | backend/application/execution/request_executor.cpp:246-256 | a script reads back the JSON it wrote, printed text verbatim, other keys untouched; setting what was read changes nothing |
| Environments.ScriptEnvironment.EnvironmentSet | backend/application/execution/request_executor.cpp:253-256 | JSON text is stored as what it denotes, other text as a string; other variables stay |
| CacheStaleness.HistoryGrounded | backend/application/role_service.cpp:17-51 | over every history of losses, delays, reorderings, evictions and failing reads, each cached value was the database's when it was stored, or is the "viewer" of a failed read |
| CacheStaleness.BoundedStaleness | backend/application/role_service.cpp:17-51 | every answer about a project role, token version or environment was the database's less than the cache's TTL plus the longest command delay ago; "nothing there" is wrong exactly when the cache does not answer and the read fails |
| CacheStaleness.BoundInSeconds | backend/application/role_service.cpp:17-51 | the bounds: 300 s for a project role, 600 s for an environment, 3600 s for a token version, each plus the longest command delay |
| CacheStaleness.LifetimeInSeconds | backend/infrastructure/adapters/environment_cache.cpp:48-77 | an answer stored at once is found under its key for exactly 300, 600 or 3600 s |
| CacheStaleness.ColdAnswers | backend/src/filters/jwt_auth_filter.cpp:21-61 | the database's answers without a cache: the role's name, the stored version, admin exactly for administrators; nothing, or viewer, when its read fails |
| CacheStaleness.UserRoleStaleness | backend/src/filters/jwt_auth_filter.cpp:21-61 | a user's role was the database's within the same bound, or is "viewer" because a read of an administrator failed now or within the bound |
| CacheStaleness.UserRoleBoundIff | backend/src/filters/jwt_auth_filter.cpp:21-61 | for a user who is an administrator throughout, every answer along a history keeps the bound if and only if no failed read of that user was stored |
| CacheStaleness.FailedReadDemotesAdmin | backend/src/filters/jwt_auth_filter.cpp:45-59 | for any database and any administrator, one failed read makes "viewer" the answer for a full TTL plus the delay, with every later read working |
| CacheStaleness.LateStoreOutlivesTtl | backend/application/role_service.cpp:36-47 | the delay term is needed and the bound is reached to the second: a removed role answered 300 s plus delay minus one later |
| CacheStaleness.ServedRoleWasStored | backend/application/role_service.cpp:17-51 | a project role served was the stored role less than 300 s plus the delay ago |
| CacheStaleness.ServedEnvironmentWasStored | backend/infrastructure/adapters/environment_cache.cpp:48-77 | an environment served was stored, timestamps aside, less than 600 s plus the delay ago |
| CacheStaleness.WarmEqualsCold | backend/infrastructure/adapters/environment_cache.cpp:110-142 | over every history, the variables an execution starts from are the same from the cache as from the repository, a missing environment included, while what is stored under the id does not change within the bound |
| CacheStaleness.CachedServices.GetProjectRole | backend/application/role_service.cpp:17-51 | read-through with SETEX 300; "no role" means the database has none now, or the read failed |
| CacheStaleness.CachedServices.ResolveRole | backend/src/filters/jwt_auth_filter.cpp:21-61 | read-through with SETEX 3600, admin flag to role name; a failed lookup is answered and stored as viewer |
| CacheStaleness.CachedServices.GetEnvironment | backend/infrastructure/adapters/environment_cache.cpp:48-77 | read-through with SETEX 600; an entry that does not decode is read from the database |
| EndpointStore.WriteKeepsIff | backend/infrastructure/adapters/postgres_endpoint_repository.cpp:88-160 | a write keeps one detail row per endpoint, in the table of its type, exactly when it does not reach the detail tables, or its details match its type, or (raw text that does not fit the body) the driver rolls the abandoned transaction back |
| EndpointStore.RunKeepsOneDetailEach | backend/migrations/002_endpoints.sql:13-41 | over any run of conforming creates, updates (type changes included) and removals each endpoint has exactly one detail row, in its type's table, and no detail row is orphaned |
| EndpointStore.MismatchIsPermanent | backend/infrastructure/adapters/postgres_endpoint_repository.cpp:323-343 | an accepted update whose details do not match its type leaves an orphan that no later matching write clears, and the endpoint can never take that type |
| EndpointStore.NormalisationFacts | backend/infrastructure/adapters/postgres_endpoint_repository.cpp:265-284 | folding the raw text into body["raw"] and reading it back is idempotent, its fixed points are the normal forms, and it fails exactly on a "raw" that is not text |
| EndpointStore.RawIsKept | backend/infrastructure/adapters/postgres_endpoint_repository.cpp:265-284 | a raw text becomes the body's member raw and reads back, in place of any that was there |
| EndpointStore.CreateAcceptedIff | backend/infrastructure/adapters/postgres_endpoint_repository.cpp:88-114 | on sound tables a creation is accepted exactly for a new id, an existing project and creator, a status of 20 characters and details that can be stored |
| EndpointStore.UpdateAcceptedIff | backend/infrastructure/adapters/postgres_endpoint_repository.cpp:116-146 | and an update exactly if the endpoint can be read and status and details can be stored, a change of type included |
| EndpointStore.MissingReads | backend/infrastructure/adapters/postgres_endpoint_repository.cpp:186-263 | a missing detail row reads as the empty details of the type, a null description as an empty object |
| EndpointStore.UpdateThenFind | backend/infrastructure/adapters/postgres_endpoint_repository.cpp:116-146 | after an accepted matching update the endpoint reads back as written, with its own origin and the normalised details, or reading throws exactly when there is no normal form |
| EndpointStore.CreateThenFind | backend/infrastructure/adapters/postgres_endpoint_repository.cpp:88-114 | the same for create, under a new id |
| EndpointStore.WriteBack | backend/infrastructure/adapters/postgres_endpoint_repository.cpp:186-321 | writing back any loaded endpoint is accepted and reads back the same but for updated_at; the rows change in updated_at alone exactly when the detail row is there and both are as this repository writes them |
| EndpointStore.WriteKeepsCanonical | backend/infrastructure/adapters/postgres_endpoint_repository.cpp:88-160 | rows this repository wrote stay of that form under every write |
| EndpointStore.WriteFrame | backend/infrastructure/adapters/postgres_endpoint_repository.cpp:127-134 | a write touches one endpoint only and never the project, creator or creation time of an existing one |
| EndpointStore.StringsRoundTrip | backend/infrastructure/adapters/postgres_endpoint_repository.cpp:237 | a protocol list reads back from its JSON array |
| EndpointStore.PostgresEndpointRepository.FindById | backend/infrastructure/adapters/postgres_endpoint_repository.cpp:63-86 | the row with the details of its type; nothing for an unknown id; the exception of a body whose raw is not text |
| EndpointStore.PostgresEndpointRepository.FindByProject | backend/infrastructure/adapters/postgres_endpoint_repository.cpp:36-61 | the loop reads every endpoint of the project in query order, and throws if and only if one of them cannot be read |
| EndpointStore.PostgresEndpointRepository.InsertTypeDetails | backend/infrastructure/adapters/postgres_endpoint_repository.cpp:265-321 | one row in the table of the variant, refused on a taken key or an over-long operation, TypeError before any SQL |
| EndpointStore.PostgresEndpointRepository.DeleteTypeDetails | backend/infrastructure/adapters/postgres_endpoint_repository.cpp:323-343 | the row of the given type is gone, the rest stays |
| EndpointStore.PostgresEndpointRepository.Create | backend/infrastructure/adapters/postgres_endpoint_repository.cpp:88-114 | both rows or, on a database error, none; soundness kept for conforming endpoints |
| EndpointStore.PostgresEndpointRepository.Update | backend/infrastructure/adapters/postgres_endpoint_repository.cpp:116-146 | parent rewritten, old type's details replaced, rollback on a database error; other endpoints and the origin untouched |
| EndpointStore.PostgresEndpointRepository.Remove | backend/infrastructure/adapters/postgres_endpoint_repository.cpp:148-160 | the endpoint and, by cascade, every detail row are gone; false for an unknown id |
| EndpointWire.ParsePrintIff | backend/src/controllers/endpoint_controller.cpp:44-162 | parsing the printed form recovers all the payload carries exactly when the details match the type |
| EndpointWire.ParsedIsMatching | backend/src/controllers/endpoint_controller.cpp:44-109 | whatever JSON arrives, an accepted payload has details of its type, and survives printing and parsing |
| EndpointWire.PrintedFields | backend/src/controllers/endpoint_controller.cpp:111-122 | the members of a printed endpoint |
| EndpointWire.PrintedDetails | backend/src/controllers/endpoint_controller.cpp:124-158 | and of its details, variant by variant |
| EndpointWire.AbsentMembers | backend/src/controllers/endpoint_controller.cpp:44-60 | what is taken for members that are not there: REST, draft, a null name, an empty description |
| EndpointWire.AbsentDetails | backend/src/controllers/endpoint_controller.cpp:61-106 | and in the details: GET, empty texts, empty collections, no schema URL |
| EndpointWire.AcceptedPayloads | backend/src/controllers/endpoint_controller.cpp:44-109 | exactly which payloads are refused with an exception |
| EndpointWire.EndpointToJson | backend/src/controllers/endpoint_controller.cpp:111-162 | the payload filled field by field, schema_url only if present |
| EndpointWire.ParseEndpointPayload | backend/src/controllers/endpoint_controller.cpp:44-109 | defaults for absent members, exceptions for values that do not convert |
| EndpointServices.GetThenPut | backend/src/controllers/endpoint_controller.cpp:236-269 | GET then PUT is a no-op for any loaded endpoint: accepted, reads back unchanged but for updated_at, other endpoints untouched; the rows stay exactly if the detail row is there and both are as this repository writes them |
| EndpointServices.ServeFrame | backend/application/endpoint_service.cpp:40-104 | whatever changes about an endpoint was asked for by name, by a user holding the call's capability in its project; its origin stays; it goes only by deletion |
| EndpointServices.ServeCreates | backend/application/endpoint_service.cpp:40-52 | a new endpoint appears only by a creation, in the caller's name, under a project the caller may edit |
| EndpointServices.PublishChanges | backend/application/endpoint_service.cpp:88-104 | publishing any readable endpoint succeeds for a holder and changes status and updated_at of that row alone exactly if the detail row is there and both are as this repository writes them |
| EndpointServices.StatusChangesIff | backend/application/endpoint_service.cpp:54-104 | exactly when a request changes a status: an effective update by an editor, whatever status it asks for, or a publication by a publisher, asking for another one |
| EndpointServices.PutPublishes | backend/application/endpoint_service.cpp:54-74 | an editor without the publish capability publishes by PUT, with the outcome of a publication |
| EndpointServices.RefusedByRole | backend/application/endpoint_service.cpp:40-104 | a caller without a role in the project, or with one that does not allow the call, is told no and nothing changes |
| EndpointServices.RepliesIff | backend/application/endpoint_service.cpp:40-104 | on sound tables each call answers with the new id, or true, exactly if the role allows it and the write is accepted |
| EndpointServices.RunKeepsOrigin | backend/application/endpoint_service.cpp:40-104 | over any run a stored endpoint keeps project, creator and creation time, and any difference goes back to a request that changed it, named it and came from a user who then held the capability |
| AccessControl.ChangesWereAllowed | backend/application/endpoint_service.cpp:40-104 | with roles from the cached role service, through losses, delays and failing reads, that user was stored with a role holding the capability less than 300 s plus the delay before |
| EndpointServices.NothingIsEverDeleted | backend/application/endpoint_service.cpp:76-86 | with roles read from the database deleteEndpoint never succeeds and every endpoint survives every run |
| EndpointServices.UnreadableIsStuck | backend/application/endpoint_service.cpp:54-104 | an endpoint that cannot be read is never changed again: every call naming it throws |
| EndpointServices.ServiceRunStaysSound | backend/application/endpoint_service.cpp:40-104 | over any run of requests through the controller the tables stay sound, on either kind of driver; one that commits abandoned transactions needs REST bodies that can take their raw text |
| EndpointServices.EndpointService.GetEndpoint | backend/application/endpoint_service.cpp:23-38 | the endpoint, for callers who may view its project |
| EndpointServices.EndpointService.Create | backend/application/endpoint_service.cpp:40-52 | guard, then project and creator overwritten, then the repository |
| EndpointServices.EndpointService.Update | backend/application/endpoint_service.cpp:54-74 | identity fields overwritten from the stored endpoint; others untouched |
| EndpointServices.EndpointService.Delete | backend/application/endpoint_service.cpp:76-86 | guard then removal; with stored roles never true |
| EndpointServices.EndpointService.Publish | backend/application/endpoint_service.cpp:88-104 | status overwritten on the loaded endpoint and stored |
| Migrations.VersionsAre | backend/src/platform/migration_runner.cpp:49-60 | a version is discovered exactly if its name with ".sql" is a regular file; a bare ".sql" is not one |
| Migrations.DiscoveredInByteOrder | backend/src/platform/migration_runner.cpp:62-64 | of two discovered versions the earlier is a prefix of the later or has the smaller character where they first differ |
| Migrations.NumberedInOrder | backend/src/platform/migration_runner.cpp:62-64 | files numbered with three digits are discovered in the order of their numbers, whatever follows |
| Migrations.SearchIsMembership | backend/src/platform/migration_runner.cpp:78 | the binary search never reports an absent name, in any collation, and on a byte-ordered list reports every present one |
| Migrations.RunAppliesPending | backend/src/platform/migration_runner.cpp:69-88 | one run from any consistent database, with any failures and collation, commits a prefix of the unrecorded versions in ascending order; all of them, and their number returned, if it completes |
| Migrations.RunStops | backend/src/platform/migration_runner.cpp:69-128 | a run commits the pending versions up to the first whose file cannot be read, is empty, or fails; of that one nothing, unless its commit took effect unreported; it returns their number exactly if all go well |
| Migrations.RunsCommitAPrefix | backend/src/platform/migration_runner.cpp:69-128 | over any sequence of runs with fixed files the committed scripts are a prefix of the version order, none twice, and schema_migrations names exactly them |
| Migrations.RunsFromEmpty | backend/src/platform/migration_runner.cpp:69-128 | in particular from the empty database |
| Migrations.SecondRunIdle | backend/src/platform/migration_runner.cpp:69-88 | after a completed run a second one returns 0 and changes nothing, exactly if the search finds every discovered name; byte order suffices |
| Migrations.OtherCollationBlocksStart | backend/src/platform/migration_runner.cpp:24-38 | two recorded files in a case-insensitive order on which the next start throws |
| Migrations.LateFileBreaksOrder | backend/src/platform/migration_runner.cpp:69-88 | a completed run keeps the log ascending exactly if everything it applied comes after everything applied before |
| Migrations.MigrationRunner.Discover | backend/src/platform/migration_runner.cpp:40-67 | filter and sort give the versions in byte order, whatever the order of iteration |
| Migrations.MigrationRunner.ApplyMigration | backend/src/platform/migration_runner.cpp:90-128 | script and record together or not at all; a recorded name is refused by the primary key |
| Migrations.MigrationRunner.Run | backend/src/platform/migration_runner.cpp:69-88 | the apply loop: consistency kept, the log only grows, the count is what was applied |
| Invitations.StatusRoundTrip | backend/infrastructure/adapters/postgres_invitation_repository.cpp:154-180 | statuses read back as printed |
| Invitations.SendStores | backend/application/invitation_service.cpp:24-60 | exactly when a send works; it then stores one invitation, from the sender, pending for its addressee and nobody else, to the project's team in the role given, and tells the addressee |
| Invitations.AcceptWrites | backend/application/invitation_service.cpp:85-111 | an accept marks the row accepted, writes the membership of the row's team, or else of its project's, in the row's role, and tells the sender |
| Invitations.SendThenAnswer | backend/application/invitation_service.cpp:24-129 | after a send and any run without the addressee's answer: nobody else can answer, the addressee's accept makes the addressee a member in the role offered, and the addressee's reject changes no membership |
| Invitations.AcceptSucceedsIff | backend/application/invitation_service.cpp:68-114 | accept returns true exactly for the addressee of a pending invitation that leads to a team, accesses permitting, and then that team's member row holds the invitation's role |
| Invitations.AcceptBurnsIff | backend/application/invitation_service.cpp:80-98 | accept answers false and yet uses the invitation up exactly when the answer was written and the membership was not |
| Invitations.BurntForever | backend/application/invitation_service.cpp:68-129 | a used-up invitation can never be answered again |
| Invitations.StepOnInvitation | backend/application/invitation_service.cpp:24-129 | a step changes at most the status of an invitation, and only if it was pending and the step is its addressee's answer |
| Invitations.RunOnInvitation | backend/application/invitation_service.cpp:24-129 | over any run an invitation leaves pending at most once, by its addressee, and keeps every other field |
| Invitations.OneJoinEach | backend/application/invitation_service.cpp:85-98 | over any run an invitation causes at most one membership write |
| Invitations.MembersAreLastAccepts | backend/infrastructure/adapters/postgres_team_repository.cpp:75-95 | after any run every (team, user) role is the initial one or that of the most recent accept that returned true for the pair |
| Invitations.AcceptedRoleIsRead | backend/infrastructure/adapters/postgres_project_repository.cpp:15-40 | and findRoleForUser returns it on every project of the team, through the string codec |
| Invitations.JoinsAreStorable | backend/migrations/001_initial.sql:83-93 | nobody becomes an administrator or owner by invitation; an owner who accepts gets a lesser role |
| Invitations.BooksBalance | backend/application/invitation_service.cpp:24-129 | created = pending + accepted + rejected as they change over a run; accepted notices equal accepts that returned true, received notices equal sends |
| Invitations.NoticesAreOwed | backend/application/invitation_service.cpp:46-57 | over any run the notices handed out are, in order, one to the addressee of each invitation sent and one to the sender of each whose accept returned true, and no others |
| Invitations.WelcomesPerSender | backend/application/invitation_service.cpp:100-111 | so the welcome notices to a user are as many as the accepts of that user's invitations that returned true |
| Invitations.StatusesPartition | backend/migrations/001_initial.sql:90 | at every moment each invitation is in exactly one of the three states |
| Invitations.InvitationService.CreateInvitation | backend/infrastructure/adapters/postgres_invitation_repository.cpp:16-80 | the insert, refused for a taken id, a dangling reference or an inadmissible role |
| Invitations.InvitationService.FindPendingForUser | backend/infrastructure/adapters/postgres_invitation_repository.cpp:82-106 | the loop maps every pending row of the addressee, so the lookup finds exactly those |
| Invitations.InvitationService.UpdateStatus | backend/infrastructure/adapters/postgres_invitation_repository.cpp:108-125 | only the status of that row changes; false for an unknown id |
| Invitations.InvitationService.AddTeamMember | backend/infrastructure/adapters/postgres_team_repository.cpp:75-95 | the upsert, refused for an unknown team or user or an inadmissible role |
| Invitations.InvitationService.AddProjectMember | backend/infrastructure/adapters/postgres_project_repository.cpp:42-63 | the upsert through the project's team; false for an unknown project |
| Invitations.InvitationService.FindRoleForUser | backend/infrastructure/adapters/postgres_project_repository.cpp:15-40 | the member row of the project's team, read as a role |
| Invitations.InvitationService.SendInvitation | backend/application/invitation_service.cpp:24-60 | the row, pending for its addressee alone, with sender, project and role as given; the notice if it was stored |
| Invitations.InvitationService.AcceptInvitation | backend/application/invitation_service.cpp:68-114 | lookup, status, membership, notice, in that order; true only with the membership in place |
| Invitations.InvitationService.RejectInvitation | backend/application/invitation_service.cpp:116-129 | lookup and status; members and notices untouched |
| Sse.PatternIsChannels | backend/infrastructure/adapters/sse_connection_manager.cpp:14 | the subscription pattern admits exactly the channels the notification service prints |
| Sse.DecodeChannel | backend/infrastructure/adapters/sse_connection_manager.cpp:16-25 | the parser recovers any user id from the printed channel |
| Sse.DecodeIsInverseIff | backend/infrastructure/adapters/sse_connection_manager.cpp:16-25 | parser and printer are inverse on a name exactly if the pattern admits it; the one other name that passes the two checks is user:notifications, where the length wraps |
| Sse.TableIsRegistrations | backend/infrastructure/adapters/sse_connection_manager.cpp:65-97 | over any run the table holds a stream as often as it is registered, and never a user without streams |
| Sse.MessagesAccountedFor | backend/infrastructure/adapters/redis_notification_service.cpp:31-39 | over any run what was published is, message for message, what arrived, what was lost and what is under way |
| Sse.ArrivalInOrder | backend/infrastructure/adapters/redis_notification_service.cpp:31-39 | with no loss and arrival in order, what arrived is the first part of what was published, in order |
| Sse.OfferedIsExpected | backend/infrastructure/adapters/sse_connection_manager.cpp:65-119 | over any run each stream has been offered, in order, its greetings and exactly the messages that arrived for its user while it was registered |
| Sse.OpenedOnceHears | backend/infrastructure/adapters/sse_connection_manager.cpp:65-119 | a stream opened once, at any moment of the run, hears its greeting and then each message arriving for its user until it closes, once, in order of arrival |
| Sse.StreamReads | backend/infrastructure/adapters/sse_connection_manager.cpp:24-79 | byte for byte: the ready event, then for each message heard one event with the message between data: and two newlines |
| Sse.WireNames | backend/infrastructure/adapters/sse_connection_manager.cpp:12-24 | channel and pattern texts; distinct messages give distinct events and distinct users distinct channels |
| Sse.SseConnectionManager.AddConnection | backend/infrastructure/adapters/sse_connection_manager.cpp:65-80 | appended to the user's list, greeted |
| Sse.SseConnectionManager.RemoveConnection | backend/infrastructure/adapters/sse_connection_manager.cpp:82-97 | every copy removed in place, the user's entry erased when empty |
| Sse.SseConnectionManager.SendToUser | backend/infrastructure/adapters/sse_connection_manager.cpp:99-119 | the loop offers the frame to each stream once per registration, and to no other |
| Sse.SseConnectionManager.OnMessage | backend/infrastructure/adapters/sse_connection_manager.cpp:15-26 | decode the channel, frame the message, send: the state moves as by the arrival of that packet |
| Sse.RedisNotificationService.SendNotification | backend/infrastructure/adapters/redis_notification_service.cpp:14-40 | one packet put under way on a channel the subscription admits, or nothing without a client |

## Left out

- Expansion.SweepCompleteIffForward: the templates are those of literals and references described above, so texts with stray `{{` are covered by the splicing results only, because a key could then match across a literal and a replacement.
- RequestExecutor.SubstituteJson: object keys are not substituted, as in the source, and JSON numbers are integers, because nothing here depends on floating-point values.
- EndpointStore.PostgresEndpointRepository.Update: as wired (one connection, backend/src/main.cpp:62) its lookup waits for its own open transaction; the model takes the lookup to return, as it does with a second connection.
- EndpointStore.PostgresEndpointRepository.Create: identifiers are taken in the canonical text of the uuid type, and the jsonb type's normalisation of numbers and repeated keys is not modelled.
- TokenService.CachedRefinesCacheless: refresh tokens are not modelled beyond the version they share with access tokens, because nothing validates them.
- Migrations.MigrationRunner.ApplyMigration: scripts hold no transaction commands of their own, and the one connection carries BEGIN to COMMIT.
- Invitations.BooksBalance: deletion of users, teams and projects is not part of a run, because no modelled call deletes them.
- Sse.OfferedIsExpected: adding a stream and greeting it is one step, as is an arrival with all its sends; heartbeats are not recorded, and a frame counts as offered whether or not the send then throws.
- QuickJS, the script API beyond environment get and set, timeouts and test results: a foreign library.
- JWT signing, password hashing and OpenSSL: a token is what verifying it reveals, password checking is an arbitrary predicate.
- SQL and Redis text, drivers, connection loss inside an endpoint call, logging: tables and caches are maps with their keys, checks, references and cascades.
- HTTP handlers, request filters apart from role lookup, response codes, start-up wiring.
- Interleavings inside one invitation or endpoint call: the program neither locks nor re-checks there.
- Tag search, user search and the set-up wizard: guards and queries without further state.
- The timestamp codec: it depends on the C library's locale and time zone; times are integers here.
- The cache's set and invalidate calls for environments appear as stores and deletions among the commands, not as methods.
