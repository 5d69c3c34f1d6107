# Verified models of FeohLedger's stateful protocols

A Dafny model of the parts of FeohLedger whose correctness depends on more than one function:
session tracking in Redis, the database rename script, three data-repair migrations, the
commit-before-response rule, dispatcher-scoped engines, the billing webhook's claim, the seed's
billing baseline, the fake ERP, the import-provenance backfill, the index migration 0093, and
three small codecs. `dafny verify dfyconfig.toml` checks everything.

Each file is one component. Code that changes state is a class whose methods are proved against a
function of the old state; the theorems are lemmas about those functions, mostly over every run.

| file | models |
|---|---|
| `Options.dfy`, `Sql.dfy`, `Strings.dfy` | optional values, SQL's three-valued logic, a fact about strings |
| `SortedSets.dfy` | a Redis sorted set: entries by score, then by member |
| `SessionProtocol.dfy` | session calls as interleaved Redis commands |
| `SessionStore.dfy`, `SessionLifecycle.dfy` | the same calls run one at a time, with a clock, key expiry, tokens and a lifetime setting that changes |
| `SessionEffects.dfy` | what each of those calls changes, key by key |
| `DatabaseRename.dfy` | the rename script, stopped anywhere and run again |
| `EarliestPerGroup.dfy`, `BankClaims.dfy`, `WorkflowDefaults.dfy`, `RoleDedupe.dfy` | migrations 0081, 0050 and 0028 |
| `RequestLifecycle.dfy` | commit before response over any number of sessions |
| `EngineScopes.dfy` | nested dispatch scopes and the engine cache |
| `WebhookClaims.dfy` | concurrent deliveries of billing events |
| `Subscriptions.dfy` | plans and subscriptions under two uniqueness constraints |
| `FakeErp.dfy` | the fake Merge.dev store and its pagination |
| `ImportBackfill.dfy` | stamping import provenance |
| `IndexReconcile.dfy` | migration 0093 |
| `PngChunks.dfy`, `TenantUrl.dfy`, `MessageKeys.dfy` | PNG chunk walk, tenant URLs, message keys |

## Where the code does less than it says

Each of these is proved: the exact condition under which the promise holds, and an input for which
it does not.

- `revoke_all_sessions` deletes the whole key (`backend/app/redis.py:199-203`). A sign-in between
  its read and that delete is lost: the token is live, untracked and never blocklisted
  (`SessionProtocol.SweepCanLoseALogin`). No other command can do this, and this one does it
  exactly when it drops a member it did not read (`SessionProtocol.OnlyTheSweepDeleteCanLoseAToken`).
- `track_session` says a description can never outlive the membership it describes
  (`backend/app/redis.py:78-79`). It can when the session is taken out between its ZADD and its
  HSET (`SessionProtocol.DescriptionCanOutliveMembership`). A command leaves every description
  backed exactly when it is not such a late HSET (`SessionProtocol.OnlyALateDescriptionOutlives`),
  and so does a run (`SessionProtocol.BackedExactlyWhenTimely`).
- A sign-in refreshes the tracking key, and blocklists what it evicts, for the current lifetime
  setting. After the setting is shortened a longer-lived token can end up neither tracked nor
  blocklisted (`SessionLifecycle.ShorteningCanLoseAToken`). A sign-in covers a tracked token to its
  end exactly when the token does not outlive the current lifetime
  (`SessionLifecycle.SignInCoversExactly`); a user whose sign-ins all meet that guard loses no token,
  whatever other users do (`SessionLifecycle.LiveTokensAreTrackedOrBlocklisted`).
- `blocklist_ttl_for` says a revoked token must not come back
  (`backend/app/services/session_management.py:258-273`), but truncates to whole seconds. After a
  shortened setting a revoked token can authenticate again for less than a second
  (`SessionLifecycle.RevokedTokenAuthenticatesAgain`), exactly when the setting and every tracked
  session's remaining life in whole seconds fall short of the token's
  (`SessionLifecycle.RevocationEntryLapsesEarly`).
- Logout truncates in the same way (`backend/app/api/auth.py:1514`): its entry lapses before the
  token exactly when more than a second, and not a whole number of seconds, is left
  (`SessionLifecycle.LogoutEntryLapsesEarly`, `SessionLifecycle.LoggedOutTokenAuthenticatesAgain`).
- The rename rewrites organization rows before it reports conflicts
  (`backend/scripts/rename_databases_to_feohledger.py:247-263`), so a row of a conflicting tenant
  is repointed at the other database (`DatabaseRename.RowResolvesAsBefore`,
  `DatabaseRename.ConflictRepointsARow`).
- Run in the order its comments give, the 0028 statement violates the primary key exactly when a
  user holds two duplicates of one role and not the canonical row
  (`RoleDedupe.CollisionsAreDoubles`, `RoleDedupe.TwoOfThreeCopiesCollide`). PostgreSQL promises no
  order for the parts of one statement. Every order succeeds exactly when no user holds two copies
  of one role (`RoleDedupe.EveryOrderSucceeds`); a user on the canonical row and one duplicate is
  enough for the other order to fail (`RoleDedupe.UpdatingFirstCollides`).
- `make_tenant_url` says a query string is kept (`backend/app/tenant_url.py:53-54`). It is kept
  exactly when the old name is the new one and the query itself ends in a slash and that name
  (`TenantUrl.QueryIsKeptOnlyByAccident`).

## Model

| member | source | states |
|---|---|---|
| SortedSets.InsertKeepsOrder | backend/app/redis.py:86-87 | Inserting an entry under its rank keeps the set ordered and its members distinct, and adds that entry only. |
| SortedSets.RemoveLowest | backend/app/redis.py:95-105 | Removing the lowest members leaves exactly the rest of the set, in order. |
| SortedSets.WithoutOne | backend/app/redis.py:190-191 | Leaving the kept member out of a list keeps all others, in order. |
| SessionProtocol.CapHoldsWhenNoLoginIsPending | backend/app/redis.py:86-108 | Over every interleaving of session commands, a user with no sign-in between its ZADD and its eviction has at most the cap tracked. |
| SessionProtocol.WitnessAdvances | backend/app/redis.py:95-107 | A sign-in that is bound to bring the set under the cap either stays so or does so with its next command. |
| SessionProtocol.OthersKeepWitness | backend/app/redis.py:95-107 | It stays so through every other call's command that adds nothing for its user. |
| SessionProtocol.EvictionsAreRecorded | backend/app/redis.py:95-107 | What counts as evicted is exactly what the ZREM of a sign-in takes out of the set. |
| SessionProtocol.EvictedMembersAreReturned | backend/app/redis.py:100-108 | Every member an eviction took out is in a list some call returned, or will return. |
| SessionProtocol.OnlyTheSweepDeleteCanLoseAToken | backend/app/redis.py:111-204 | One command keeps every issued token tracked, dead, blocklisted or about to be, exactly when it is not a DEL that drops an unread, unended member. |
| SessionProtocol.NoLiveTokenIsLost | backend/app/redis.py:187-204 | Over every interleaving without a sign-in inside a sweep of the same user, no live token is lost. |
| SessionProtocol.SweepCanLoseALogin | backend/app/redis.py:199-203 | A run, at every cap, in which a sign-in inside a sweep leaves a live token untracked and not blocklisted. |
| SessionProtocol.DescriptionCanOutliveMembership | backend/app/redis.py:78-91 | A run in which a description is left of a session that is no longer tracked, after its revocation ended. |
| SessionProtocol.OnlyALateDescriptionOutlives | backend/app/redis.py:78-91 | One command leaves every description tracked or about to be forgotten, exactly when it is not the HSET of a session already taken out with nothing left to forget it. |
| SessionProtocol.BackedExactlyWhenTimely | backend/app/redis.py:78-91 | Over every interleaving, descriptions are tracked or about to be forgotten all along, exactly when each was written while its session was. |
| SessionProtocol.DescriptionsFollowPatientRuns | backend/app/redis.py:78-91 | Over every interleaving that takes no member out between its ZADD and its HSET, once nothing of the user is about to be forgotten, only tracked sessions have a description. |
| SessionProtocol.FinishedCallsHaveBlocklisted | backend/app/redis.py:158-204 | However commands interleave, a call that owes the blocklist a member has paid when it ends. |
| SessionProtocol.ReadingIsOwing | backend/app/redis.py:158-204 | A sweep owes every member it read but the kept one, a revocation the one it removed, an eviction those it took out. |
| SessionProtocol.BlocklistedForAReason | backend/app/redis.py:25-204 | Over every interleaving, a token is blocklisted, or bound to be by a running call, exactly when it was logged out, found in the set of the revoking user by the ZREM of a revocation, found there and not kept by the ZRANGE of a sweep, or found over the cap by that of a sign-in. |
| SessionProtocol.TrackedWereHandedOut | backend/app/redis.py:86-87 | Over every interleaving, a user's set holds only tokens that user signed in as. |
| SessionProtocol.ExpiredByItsExpiry | backend/app/redis.py:144-155 | A token counts as dead exactly when its expiry came. |
| SessionProtocol.LoginAlone | backend/app/redis.py:86-108 | A sign-in with no other command in between describes its session, takes out exactly the overflow with its descriptions, returns it, and touches no other key. |
| SessionProtocol.LoginBlocksAlone | backend/app/services/session_management.py:183-197 | Its caller then blocklists exactly the returned members. |
| SessionProtocol.LogoutAlone | backend/app/redis.py:111-115 | A logout with no other command in between blocklists its token and takes out exactly its session and description. |
| SessionProtocol.RevokeAlone | backend/app/redis.py:158-171 | So does a revocation of a session the user holds; any other revocation changes nothing, whoever holds the session. |
| SessionProtocol.SweepAlone | backend/app/redis.py:174-204 | A sweep with no other command in between takes out and blocklists exactly the sessions but the kept one; with none kept, every description goes. |
| SessionProtocol.PruneAlone | backend/app/redis.py:144-155 | Pruning with no other command in between takes exactly the listed sessions and descriptions out and blocklists none. |
| SessionStore.Redis.BlockToken | backend/app/redis.py:25-28 | The entry lapses after the given time; nothing else changes. |
| SessionStore.BlockedForItsTime | backend/app/redis.py:25-34 | After block_token a token is reported as blocked until exactly its time is over, in whatever steps that passes; no other token's answer changes. |
| SessionStore.Redis.CollectEvicted | backend/app/redis.py:95-104 | The lowest members over the cap, oldest first; none when there is no cap. |
| SessionStore.Redis.TrackSession | backend/app/redis.py:62-108 | The whole new state and the returned list, as functions of the old state. |
| SessionStore.Redis.UntrackSession | backend/app/redis.py:111-115 | Takes one member and its description out. |
| SessionStore.Redis.DropSessions | backend/app/redis.py:144-155 | Takes the members and their descriptions out, and blocklists nothing. |
| SessionStore.Redis.RevokeSession | backend/app/redis.py:158-171 | True exactly for a tracked member, which is then dropped and blocklisted; otherwise nothing changes. |
| SessionStore.Redis.RevokeAllSessions | backend/app/redis.py:174-204 | Returns every member but the kept one, oldest first, blocklists exactly those, and leaves exactly the kept one tracked. |
| SessionLifecycle.BlocklistTtl | backend/app/services/session_management.py:258-285 | At least the current lifetime, and at least each session's own remaining life in whole seconds; no more than the lifetime when no session's own is longer. |
| SessionLifecycle.LiveTokensAreTrackedOrBlocklisted | backend/app/services/session_management.py:164-311 | Over every run, a live token of a user whose own sign-ins met their guard is tracked or blocklisted, but in its last second if logged out, or revoked after a shortened setting; a setting never shortened meets every guard. |
| SessionLifecycle.HistoryIsWhatHappened | backend/app/services/session_management.py:164-322 | What a run says of its past is what happened: a user is exposed exactly when a sign-in of that user found a tracked token outliving the current lifetime, a token logged out exactly when its own user logged it out alive, revoked exactly when a revocation found it tracked and did not keep it, and the setting shortened exactly when it was lowered. |
| SessionLifecycle.DescriptionsFollowMembership | backend/app/redis.py:78-108 | Over every run of whole calls, descriptions belong to exactly the tracked sessions, each with its own lifetime, and the cap holds. |
| SessionLifecycle.RevokingEndsEverySession | backend/app/services/session_management.py:297-322 | While the user's own sign-ins meet their guard, revoking ends every live token of the user but the kept one, with an entry that outlasts it, or falls short by less than a second where logout or a shortened setting truncated it; the kept session stays tracked and is not blocklisted. |
| SessionLifecycle.RevocationEntryLapsesEarly | backend/app/services/session_management.py:258-322 | Over every run, a revoked session's entry lapses before its token exactly when the setting, and each tracked session's own remaining life in whole seconds, are below the token's; by less than a second, and only after a shortened setting. |
| SessionLifecycle.RevokedTokenAuthenticatesAgain | backend/app/services/session_management.py:284 | A run in which a revoked token, never logged out, authenticates again for its last half second. |
| SessionLifecycle.ListingPrunesTheDead | backend/app/services/session_management.py:214-255 | Over every run, whatever happened to the setting, a listing prunes a session exactly when its own recorded lifetime is over; its token is dead. |
| SessionLifecycle.EvictionEntryLapsesEarly | backend/app/services/session_management.py:183-197 | An evicted token's entry lapses before the token exactly when the token has longer to live than the current lifetime, which takes a shortened setting. |
| SessionLifecycle.SignInCoversExactly | backend/app/redis.py:86-108 | Over every run, another sign-in leaves a tracked token covered to its end exactly when the token does not outlive the current lifetime, evicted or not. |
| SessionLifecycle.ShorteningCanLoseAToken | backend/app/redis.py:86-91 | At every cap, a run with a shortened setting after which a live token is neither tracked nor blocklisted. |
| SessionLifecycle.BlocklistTtlIsLifetime | backend/app/services/session_management.py:258-285 | While the setting was never shortened, revocations blocklist for exactly the current lifetime. |
| SessionLifecycle.LogoutEntryLapsesEarly | backend/app/api/auth.py:1501-1517 | A logout's entry lapses before its token exactly when more than a second, and not a whole number of seconds, is left. |
| SessionLifecycle.LoggedOutTokenAuthenticatesAgain | backend/app/api/auth.py:1514 | A run in which a token logged out with a second and a half to live authenticates again for its last half second. |
| SessionLifecycle.EvictionTakesTheOldest | backend/app/redis.py:95-107 | An eviction takes the oldest overflow and keeps the rest as it was: evicted and kept members together are the set. |
| SessionLifecycle.BlocklistIsIsolated | backend/app/redis.py:158-171 | Over every run, no call of one user puts another user's token on the blocklist, takes it off, or changes until when it is there. |
| SessionLifecycle.UsersAreIsolated | backend/app/redis.py:158-171 | No call of one user changes another's sessions; revoking a session the user does not hold changes nothing. |
| SessionEffects.SignInTakesEffect | backend/app/services/session_management.py:164-203 | Over every run: a sign-in adds and describes its session with its lifetime, leaves the newest up to the cap, drops and blocklists exactly those with at least as many newer ones as the cap, renews both keys for the current lifetime, and touches nothing else. |
| SessionEffects.SignOutTakesEffect | backend/app/api/auth.py:1501-1517 | Over every run: a logout of a live token by its own user takes out its session and blocklists it for the whole seconds left, at least one; any other changes nothing. |
| SessionEffects.RevokingOneTakesEffect | backend/app/services/session_management.py:297-311 | Over every run: revoking a session the user holds takes exactly it out, and blocklists it for the longest life left to any session of the user, at least the current lifetime; otherwise nothing changes. |
| SessionEffects.RevokingOthersTakesEffect | backend/app/redis.py:174-204 | Over every run: revoking all but one takes exactly the others out and blocklists them for that time. |
| SessionEffects.KeptSessionStays | backend/app/redis.py:183-198 | Over every run: the kept session stays tracked and described as it was, under keys of the same expiry, with the same blocklist entry if any. |
| SessionEffects.ListingTakesEffect | backend/app/services/session_management.py:214-255 | Over every run: a listing takes out exactly the sessions whose own recorded lifetime is over, and blocklists none. |
| SessionEffects.TimeTakesEffect | backend/app/redis.py:25-28 | Time takes away exactly the keys and entries whose expiry it reaches. |
| DatabaseRename.SqlRewriteIsTheSwap | backend/scripts/rename_databases_to_feohledger.py:137-160 | The SQL rewrite and the Python slice are one prefix swap, which has an inverse both ways and is idempotent. |
| DatabaseRename.SafeNames | backend/app/services/tenant_provisioning.py:40-47 | A safe name is a small letter followed by 2 to 62 small letters, digits, underscores and dashes. |
| DatabaseRename.Postgres.RenameDatabase | backend/scripts/rename_databases_to_feohledger.py:95-120 | Which of the five reports exactly when, and the one that renames; a database is never overwritten. |
| DatabaseRename.Postgres.RewriteOrgDbNames | backend/scripts/rename_databases_to_feohledger.py:123-163 | Rewrites the rows of the control database there is now; no row is written when none carries the prefix. |
| DatabaseRename.Postgres.RenameTenants | backend/scripts/rename_databases_to_feohledger.py:216-220 | Makes the tenant renames in order up to the first unsafe name, and crashes exactly when there is one; otherwise a dry run counts a conflict exactly when a new name exists, an applied one when a tenant keeps its old name. |
| DatabaseRename.Postgres.MigrateNames | backend/scripts/rename_databases_to_feohledger.py:166-269 | Crashes exactly when a listed tenant name, its new name or a control name is unsafe; an applied run makes its statements up to there, a complete one otherwise; the exit code of a dry run is 1 exactly when both names of something exist, of an applied one when some database keeps its old name. |
| DatabaseRename.ExecuteKeepsFinal | backend/scripts/rename_databases_to_feohledger.py:95-160 | No single step of the script changes where any database and row will end up. |
| DatabaseRename.CompleteRunReachesFinal | backend/scripts/rename_databases_to_feohledger.py:210-259 | A complete run, in whatever order the databases are listed, ends there. |
| DatabaseRename.InterruptedRunsConverge | backend/scripts/rename_databases_to_feohledger.py:166-269 | Any runs stopped anywhere, then a complete one, end as a single uninterrupted run does, conflicts or not. |
| DatabaseRename.RerunChangesNothing | backend/scripts/rename_databases_to_feohledger.py:99-110 | A further run changes nothing. |
| DatabaseRename.EveryDatabaseIsConserved | backend/scripts/rename_databases_to_feohledger.py:95-120 | Every database keeps its content under its own new name, and there are no others. |
| DatabaseRename.RowsAreRewritten | backend/scripts/rename_databases_to_feohledger.py:154-160 | After a complete run every organization row holds its rewritten name. |
| DatabaseRename.RowResolvesAsBefore | backend/scripts/rename_databases_to_feohledger.py:123-163 | A row still resolves to the same content exactly when its new name was not taken by other content, nor names the moving control database. |
| DatabaseRename.ConflictRepointsARow | backend/scripts/rename_databases_to_feohledger.py:247-263 | With the default flags, a state in conflict after which an organization row resolves to the other database. |
| DatabaseRename.LeftoversAreConflicts | backend/scripts/rename_databases_to_feohledger.py:102-106 | What keeps its old name is exactly what was in conflict. |
| EarliestPerGroup.ExtrasAreNotEarliest | backend/alembic/versions/0081_one_bank_tx_per_payment.py:84-101 | A row number above one means exactly that the row is not its group's earliest. |
| EarliestPerGroup.EarliestExists | backend/alembic/versions/0081_one_bank_tx_per_payment.py:84-101 | Every group has an earliest row. |
| EarliestPerGroup.NoExtrasRemain | backend/alembic/versions/0050_workflow_per_entity_default.py:41-60 | Once the extra rows are gone there are none. |
| BankClaims.TenantDb.Upgrade | backend/alembic/versions/0081_one_bank_tx_per_payment.py:76-136 | The repaired tables, and a unique index that cannot fail. |
| BankClaims.EarliestClaimIsKept | backend/alembic/versions/0081_one_bank_tx_per_payment.py:84-115 | A claim is kept untouched exactly when no other on its payment has an earlier creation time, or the same and a lower id; a claim given up loses payment, method, confidence and time, and nothing else; every claimed payment has such a first claim. |
| BankClaims.PaymentsHaveOneClaim | backend/alembic/versions/0081_one_bank_tx_per_payment.py:105-136 | No payment has two claims afterwards. |
| BankClaims.CountsStayCorrect | backend/alembic/versions/0081_one_bank_tx_per_payment.py:118-130 | A statement's count is right afterwards exactly when one of its claims was given up or it was right before, counting claims no mismatch or conflict marks; nothing else of a statement changes. |
| BankClaims.RepairIsIdempotent | backend/alembic/versions/0081_one_bank_tx_per_payment.py:76-136 | Running the repair again changes no row and no count. |
| BankClaims.OtherTransactionsAreUntouched | backend/alembic/versions/0081_one_bank_tx_per_payment.py:105-115 | A transaction changes only by losing to an older, kept claim on the same payment; of two equally old ones the lower id is kept. |
| WorkflowDefaults.TenantDb.Upgrade | backend/alembic/versions/0050_workflow_per_entity_default.py:83-87 | The demoted table, and a unique index that cannot fail. |
| WorkflowDefaults.BucketsHaveOneDefault | backend/alembic/versions/0050_workflow_per_entity_default.py:41-67 | One default per organization and entity, the shared entity being one bucket. |
| WorkflowDefaults.EarliestDefaultIsKept | backend/alembic/versions/0050_workflow_per_entity_default.py:41-60 | A default stays one exactly when no other of its organization and entity, none and the nil one being the same, is older, or as old with a lower id; rows change only by losing the flag, and a second run changes nothing. |
| RoleDedupe.ControlPlane.Dedupe | backend/alembic/versions/0028_role_name_unique.py:53-88 | In whatever order the parts run: succeeds, with the new tables, exactly when every colliding link is deleted before it is moved and no user holds two duplicates without the canonical row; otherwise nothing changes. |
| RoleDedupe.CollisionsAreDoubles | backend/alembic/versions/0028_role_name_unique.py:69-86 | In the commented order the repointing violates the primary key exactly when a user holds two duplicates of a role and not the canonical row. |
| RoleDedupe.TwoOfThreeCopiesCollide | backend/alembic/versions/0028_role_name_unique.py:69-86 | Such tables: three equal roles and a user on the two that are not canonical. |
| RoleDedupe.OnlyDeletingFirstSucceeds | backend/alembic/versions/0028_role_name_unique.py:69-86 | The update moves no two links onto one key exactly when it reaches no colliding link before the delete, and no user holds two duplicates without the canonical row. |
| RoleDedupe.EveryOrderSucceeds | backend/alembic/versions/0028_role_name_unique.py:69-86 | No order of the delete and the update violates the key exactly when no user holds two copies of one role, canonical or not. |
| RoleDedupe.UpdatingFirstCollides | backend/alembic/versions/0028_role_name_unique.py:69-86 | Tables the commented order repairs and the other fails on: a user on the canonical row and one duplicate. |
| RoleDedupe.RolesAreUnique | backend/alembic/versions/0028_role_name_unique.py:54-88 | One role per name and organization, system roles being one bucket, and none disappears. |
| RoleDedupe.UsersKeepTheirRoles | backend/alembic/versions/0028_role_name_unique.py:69-88 | No link dangles and every user's set of roles is unchanged. |
| RoleDedupe.DedupeIsIdempotent | backend/alembic/versions/0028_role_name_unique.py:53-88 | A second run changes nothing. |
| RequestLifecycle.Request.CommitBeforeResponse | backend/app/database.py:31-52 | Registers one more hook exactly when there is a usable exit stack. |
| RequestLifecycle.Request.UnwindHooks | backend/app/database.py:44-49 | The loop over the exit stack does what the recursive account of it says. |
| RequestLifecycle.Request.UnwindGenerators | backend/app/database.py:160-173 | Likewise for the code after `yield`, last opened first. |
| RequestLifecycle.Request.Complete | backend/app/tenant.py:180-204 | A request from the handler's end on: hooks, response, teardown, with the whole trace. |
| RequestLifecycle.UnwindIsExact | backend/app/database.py:44-49 | What unwinding leaves of each session, position by position: a hook commits exactly when nothing registered from it on failed. |
| RequestLifecycle.TeardownIsExact | backend/app/database.py:163-173 | What teardown leaves of each session, index by index. |
| RequestLifecycle.WhenSuccessIsSent | backend/app/database.py:31-52 | A success is sent exactly when the handler returned and no hooked commit raised. |
| RequestLifecycle.SuccessIsSentAfterDurable | backend/app/database.py:31-52 | Everything hooked sessions had written is durable before a success is sent. |
| RequestLifecycle.FailedCommitStopsTheEarlierOnes | backend/app/database.py:44-52 | If a commit raises, nothing registered earlier commits, what was registered later has, every session is rolled back to its durable writes, and no success is sent. |
| RequestLifecycle.HandlerExceptionRollsBack | backend/app/database.py:160-173 | After an exception in the handler each session has its durable writes only, no pending one and no open transaction. |
| RequestLifecycle.NoWriteIsLost | backend/app/tenant.py:190-204 | Without failures every write, hooked or from a streaming body, becomes durable, and nothing commits twice. |
| RequestLifecycle.UnhookedSessionCommitsLate | backend/app/database.py:36-39 | A session without a hook still commits, after the response. |
| RequestLifecycle.WhatIsDurableInTheEnd | backend/app/database.py:31-173 | Whatever fails, each session ends with no pending write and no open transaction, and exactly which of its writes are durable: those up to the response when its hook commits, or without a hook its generator; those of the body when its generator does. |
| EngineScopes.InnermostMakerOpensSessions | backend/app/database.py:104-157 | Whatever ran before, nested scopes that ended or raised included, a session is opened with the innermost scope's maker, and outside every scope with the default. |
| EngineScopes.Database.GetTenantEngine | backend/app/database.py:194-221 | Found or made in the scope's pool inside a scope, in the module cache outside. |
| EngineScopes.Database.Perform | backend/app/database.py:130-157 | A scope around any work binds, runs, restores and disposes, also when an exception passes. |
| EngineScopes.Database.DisposeOwned | backend/app/database.py:155-157 | The exit loop disposes of exactly the engines under names that were not given. |
| EngineScopes.Database.DisposeAllEngines | backend/app/database.py:224-228 | Disposes of every cached engine once and empties the cache. |
| EngineScopes.ScopeDisposesWhatItMade | backend/app/database.py:130-157 | However scopes nest and end, a scope disposes of each engine made inside exactly once, of no other but those of a cache shut down inside, and restores both bindings. |
| EngineScopes.ScopedWorkIgnoresTheCache | backend/app/database.py:194-213 | Work inside a scope, without a shutdown, gives the same result over any module cache and leaves it as it was. |
| EngineScopes.EveryEngineIsDisposedOrCached | backend/app/database.py:130-228 | Over any work, shutdowns included, each engine made is disposed of once or cached once, never both; a caller's engine is neither. |
| EngineScopes.NoDisposedEngineIsHandedOut | backend/app/database.py:194-228 | After any work no lookup outside a scope hands out an engine that was disposed of. |
| EngineScopes.ResolutionIsStable | backend/app/database.py:194-221 | A name resolves to the same engine as long as its scope lasts, or, outside every scope, until a shutdown. |
| EngineScopes.ExceptionsEscape | backend/app/database.py:130-157 | A scope passes on exactly the exceptions of its body that nothing inside catches. |
| EngineScopes.NothingRunsAfterAnException | backend/app/database.py:130-157 | Nothing after an exception that escapes is done. |
| EngineScopes.WhereLookupsLook | backend/app/database.py:194-221 | A lookup is answered from the scope's pool, given engines included, or outside every scope from the module cache; a missing engine is made once, joins it and is found again. |
| EngineScopes.ShutdownEmptiesTheCache | backend/app/database.py:224-228 | A shutdown disposes of each cached engine, in order, forgets them, and leaves the current scope alone. |
| WebhookClaims.BillingEndpoint.AlreadyProcessed | backend/app/services/webhook_security.py:53-78 | A duplicate exactly when the id was claimed; an empty id is never recorded. |
| WebhookClaims.BillingEndpoint.ApplyEvent | backend/app/services/billing/webhook_processing.py:47-114 | Commits one status change exactly for a known subscription and one of the four statuses other than its own, unless it raises; otherwise nothing. |
| WebhookClaims.BillingEndpoint.Deliver | backend/app/api/billing_webhook.py:126-152 | A duplicate changes nothing; a failed application leaves everything, the claim included, as it was and raises again. |
| WebhookClaims.EffectCommitsAtMostOnce | backend/app/api/billing_webhook.py:126-150 | Over every interleaving of deliveries, failures and crashes an event's effect commits at most once. |
| WebhookClaims.ClaimedWhenFinished | backend/app/api/billing_webhook.py:126-150 | With no delivery of it in flight, an id is claimed exactly when an application finished without raising or the claim got stuck; never both. |
| WebhookClaims.RedeliveryApplies | backend/app/services/webhook_security.py:81-100 | After failures only, a redelivery commits the effect, once. |
| WebhookClaims.StatusesFollowCommits | backend/app/services/billing/webhook_processing.py:82-112 | The subscriptions are always what the committed events, in order, make of them. |
| WebhookClaims.OnlyLawfulEventsCommit | backend/app/services/billing/webhook_processing.py:52-90 | Over every interleaving, only events with one of the four statuses for a known subscription are committed, and no subscription appears or disappears. |
| WebhookClaims.FailuresLeaveNoTrace | backend/app/api/billing_webhook.py:126-150 | A delivery whose claim, application or commit raises, and whose claim is then released, leaves everything as it was. |
| WebhookClaims.DuplicatesAndIdleEvents | backend/app/api/billing_webhook.py:126-135 | A duplicate changes nothing; an event with nothing to commit is only remembered. |
| WebhookClaims.WhatLeavesAClaimStuck | backend/app/services/webhook_security.py:53-100 | A release that fails, a process that dies holding the claim, and a claim whose reply is lost each leave the claim in place for good. |
| Subscriptions.ControlPlane.ClearStaleCanceledSubscription | backend/app/services/billing/plan_catalog.py:91-122 | Removes exactly the canceled row of that organization and plan. |
| Subscriptions.ControlPlane.EnsurePlanCatalog | backend/app/services/billing/plan_catalog.py:61-88 | Adds the missing catalogue plans; existing ones keep their edits. |
| Subscriptions.ControlPlane.EnsureLiveSubscription | backend/app/services/billing/plan_catalog.py:125-178 | Its insert never violates either constraint. |
| Subscriptions.ControlPlane.EnsurePublicApiEntitled | backend/scripts/seed.py:303-352 | Its repoint never violates either constraint; true exactly when a row moved. |
| Subscriptions.ControlPlane.EnsureDemoBillingBaseline | backend/scripts/seed.py:355-371 | Every write of the baseline keeps both constraints. |
| Subscriptions.CatalogEffect | backend/app/services/billing/plan_catalog.py:36-88 | Each of the three codes has a plan afterwards; those that were there stay, and those added are the catalogue entries whose code nobody had. |
| Subscriptions.EnsureSubscriptionEffect | backend/app/services/billing/plan_catalog.py:125-178 | Gives an active row on the plan to an organization without a live one, in place of a canceled row on that plan; without the plan, or with a live row, it does nothing; every other row stays. |
| Subscriptions.EnsureEntitledEffect | backend/scripts/seed.py:303-352 | Moves the live row in place exactly when its plan does not grant the feature and the target is another plan; removes only a canceled row in its way and adds none. |
| Subscriptions.EntitledByALiveRow | backend/scripts/seed.py:325-331 | Entitled means a row that is not canceled on a plan that grants the feature. |
| Subscriptions.EntitledIsIdempotent | backend/scripts/seed.py:303-352 | A second repair never moves the row. |
| Subscriptions.ProvisionedEffect | backend/scripts/seed.py:365-367 | Provisioning keeps every live row and gives an active one to each demo organization, on the growth and the free plan. |
| Subscriptions.BaselineEffect | backend/scripts/seed.py:355-371 | A live row is never replaced, and never moved once entitled; Acme is entitled exactly when it was or the growth plan grants. |
| Subscriptions.BaselineLeavesOthersAlone | backend/scripts/seed.py:355-371 | No row of any other organization is added, removed or changed. |
| Subscriptions.BaselineIsIdempotent | backend/scripts/seed.py:355-371 | Running the baseline again changes nothing. |
| FakeErp.FakeMerge.CreateInvoice | tools/fake-erp/app.py:337-376 | All five outcomes with the new state. |
| FakeErp.FakeMerge.ForceStatus | tools/fake-erp/app.py:80-105 | Changes one stored status, or nothing and an error. |
| FakeErp.FakeMerge.ResetState | tools/fake-erp/app.py:73-77 | Back to the fresh state. |
| FakeErp.WhatIsServed | tools/fake-erp/app.py:80-385 | What reading an invoice answers after any request: a created one open with the fields sent, a forced status with the same fields, nothing after a reset, and otherwise what it answered before; reading changes nothing. |
| FakeErp.WhoMovesTheCounter | tools/fake-erp/app.py:353-354 | Only a creation moves the counter, by one, and only a reset takes it back. |
| FakeErp.InvoiceIdsDiffer | tools/fake-erp/app.py:353-356 | Different counters give different ids. |
| FakeErp.ReachableStatesAreConsistent | tools/fake-erp/app.py:33-105 | In every reachable state the ids are exactly 1..counter, and cached bodies are open copies of distinct stored invoices whatever was forced since. |
| FakeErp.RetryReturnsTheOriginal | tools/fake-erp/app.py:345-351 | A used key answers with its first response and creates nothing until a reset. |
| FakeErp.FollowCursors | backend/app/services/erp_adapters/merge_dev.py:217-245 | Following the fake's cursors gives every item once, in order, exactly when the marker is not empty or one page is enough. |
| ImportBackfill.Tenant.StampAll | backend/scripts/backfill_import_provenance.py:279-290 | The write loop stamps exactly the candidates. |
| ImportBackfill.Tenant.BackfillTenant | backend/scripts/backfill_import_provenance.py:200-319 | The report in every case; a dry run changes nothing; an audit row is written exactly when something was stamped. |
| ImportBackfill.QueriesPartitionInvoices | backend/app/services/csv_import.py:152-169 | Under three-valued logic, over NULL, JSON null and objects, the three queries never answer unknown and select each pre-cutover invoice exactly once; SQL sees the marker exactly where Python does. |
| ImportBackfill.UnguardedLosesNullColumns | backend/app/services/csv_import.py:152-158 | Without the `IS NOT NULL` guard the native clause would lose exactly the candidates whose column is NULL. |
| ImportBackfill.QueriesPartitionTheTable | backend/scripts/backfill_import_provenance.py:222-268 | Every invoice is later, marked, skipped or a candidate, and counted once. |
| ImportBackfill.TallyCountsStatuses | backend/scripts/backfill_import_provenance.py:235-247 | The tallies count each status among the rows they are about. |
| ImportBackfill.StampingMarksTheCandidates | backend/scripts/backfill_import_provenance.py:279-290 | A row changes exactly when it is from before the cutover, unmarked and in one of the four statuses, and then only by gaining the marker with the operator's source, the cutover and the time of the run; existing markers stay. |
| ImportBackfill.RerunFindsNothing | backend/scripts/backfill_import_provenance.py:210-235 | A second run finds no candidate, changes nothing, and reports what was stamped as marked. |
| ImportBackfill.CutoversCompose | backend/scripts/backfill_import_provenance.py:222-290 | A wider cutover after a narrower one marks the same rows as the wider alone. |
| ImportBackfill.ReportBoundsCandidates | backend/scripts/backfill_import_provenance.py:268-276 | The reported bounds enclose every candidate, are those of candidates, and lie before the cutover. |
| ImportBackfill.ReportIsExact | backend/scripts/backfill_import_provenance.py:216-292 | Every figure of the report: the candidates, the rows already marked and what was stamped are counts of rows; the tallies are over the skipped and the candidate rows. |
| IndexReconcile.WhichRowsConflict | backend/alembic/versions/0093_migration_only_indexes.py:271-299 | Two rows group exactly when the WHERE clause admits both and each column has the same value, or none, in both; the index refuses them exactly when moreover no value is missing. |
| IndexReconcile.CountsTheGrouped | backend/alembic/versions/0093_migration_only_indexes.py:271-299 | A `GROUP BY ... HAVING count(*) > 1` query counts something exactly when two rows under its WHERE agree on its columns, NULLs being equal. |
| IndexReconcile.QueryCountsConflicts | backend/alembic/versions/0093_migration_only_indexes.py:271-299 | Grouping by a unique index's columns under its predicate counts something exactly when the index cannot be built, or two rows share a key that holds a NULL. |
| IndexReconcile.Database.Execute | backend/alembic/versions/0093_migration_only_indexes.py:337-339 | A statement fails exactly when its table is missing, or it builds a missing unique index over rows that conflict under its columns and predicate. |
| IndexReconcile.Database.Run | backend/alembic/versions/0093_migration_only_indexes.py:366-372 | The remembered table checks agree with fresh ones for every statement list. |
| IndexReconcile.Database.Preflight | backend/alembic/versions/0093_migration_only_indexes.py:375-383 | Runs each check's query on the rows of its table, if it is there; names the first that counts something, and changes nothing. |
| IndexReconcile.Database.Upgrade | backend/alembic/versions/0093_migration_only_indexes.py:386-388 | Refuses with nothing changed, or runs to the end: no index build fails. |
| IndexReconcile.Database.Downgrade | backend/alembic/versions/0093_migration_only_indexes.py:391-392 | Always runs to the end. |
| IndexReconcile.LastStatementDecides | backend/alembic/versions/0093_migration_only_indexes.py:342-348 | For every list, the last statement naming an index on a present table decides whether it is there. |
| IndexReconcile.OtherIndexesStay | backend/alembic/versions/0093_migration_only_indexes.py:342-348 | Every other index is left as it was. |
| IndexReconcile.RunsConverge | backend/alembic/versions/0093_migration_only_indexes.py:366-372 | For every list, databases that differ only in the named indexes end alike. |
| IndexReconcile.RunAbsorbs | backend/alembic/versions/0093_migration_only_indexes.py:366-372 | A list run again, after anything that touches only its own names, ends where it did. |
| IndexReconcile.BuildsAreChecked | backend/alembic/versions/0093_migration_only_indexes.py:143-299 | Each unique index the revision builds has a query of its own table by its own columns and predicate, and no statement builds on another table than its gate's. |
| IndexReconcile.PassedChecksAreClear | backend/alembic/versions/0093_migration_only_indexes.py:375-388 | For every list and checks so matched, if no query counts anything no statement can fail. |
| IndexReconcile.PreflightRefusals | backend/alembic/versions/0093_migration_only_indexes.py:271-299 | The preflight refuses exactly the databases whose upgrade would fail part-way, and those where two rows share a key that holds a NULL. |
| IndexReconcile.PreflightIsExact | backend/alembic/versions/0093_migration_only_indexes.py:271-299 | Where the schema's NOT NULL columns hold, the preflight refuses exactly the databases whose upgrade would fail part-way. |
| IndexReconcile.NullFormatsAreRefused | backend/alembic/versions/0093_migration_only_indexes.py:271-280 | Without NOT NULL it would refuse a database whose upgrade succeeds. |
| IndexReconcile.UpgradesConverge | backend/alembic/versions/0093_migration_only_indexes.py:342-344 | The upgrade converges from any two databases that differ only in the named indexes. |
| IndexReconcile.UpgradeUndoesDowngrade | backend/alembic/versions/0093_migration_only_indexes.py:342-348 | The upgrade is idempotent, also with a downgrade in between. |
| IndexReconcile.EnsuredIndexesSurvive | backend/alembic/versions/0093_migration_only_indexes.py:143-252 | Every ensured index of a present table is there after an upgrade and after a downgrade. |
| IndexReconcile.NamesAreReconciled | backend/alembic/versions/0093_migration_only_indexes.py:307-334 | The superseded index and the old name go; a downgrade adds exactly those two back. |
| PngChunks.PngInfo | assets/check_icons.py:60-78 | Terminates on any bytes with the header fields and the tRNS answer of the chunk walk, or the error: without the signature, or with it and fewer than 26 bytes. |
| PngChunks.WalkFollowsChunks | assets/check_icons.py:70-77 | Over any well-formed chunk list, the walk tells exactly whether a tRNS chunk precedes the first IEND. |
| PngChunks.ReadingInvertsWriting | assets/check_icons.py:60-78 | Reading a file written as sections 3.1 and 3.2 of RFC 2083 say gives its width, height and colour type back. |
| TenantUrl.WhichNamesAreRefused | backend/app/tenant_url.py:65-70 | A name is refused exactly when it is empty or holds one of the listed characters. |
| TenantUrl.NameFollowsTheLastSlash | backend/app/tenant_url.py:71 | Any other name takes the place of what follows the base's last slash. |
| TenantUrl.SpliceReplacesTheDatabase | backend/app/tenant_url.py:71 | Splitting a spliced URL recovers the base's user, password, host and port with only the database replaced, exactly when the slash it splices at survives the split. |
| TenantUrl.SplitsAgree | backend/scripts/seed.py:276-281 | Two names after the same text split alike but for the database. |
| TenantUrl.SplitInvertsWriting | backend/scripts/seed.py:276-281 | Splitting a written URL gives user, password, host, port and database back, each in its place. |
| TenantUrl.SchemeVanishes | backend/scripts/seed.py:276 | Removing the scheme removes an occurrence wherever it stands, and nothing around it. |
| TenantUrl.LastSpliceWins | backend/app/tenant_url.py:65-71 | Splicing twice is splicing the last name, for every base, errors included. |
| TenantUrl.QueryIsKeptOnlyByAccident | backend/app/tenant_url.py:50-71 | The query is kept with only the database replaced exactly when the old name is the new one and the query ends in a slash and that name. |
| TenantUrl.QueryWithSlash | backend/app/tenant_url.py:71 | A query with a slash leaves the old database name in place and has its own end replaced. |
| MessageKeys.KeyDecodes | backend/scripts/gen_invoice_warning_messages.py:58-65 | A key decodes to its code exactly for codes without capitals whose later parts start with a letter. |
| MessageKeys.KeysAreInjective | backend/scripts/gen_invoice_warning_messages.py:58-65 | Two such codes never share a key. |
| MessageKeys.SharedKeysAreNormalForms | backend/scripts/gen_invoice_warning_messages.py:58-65 | Any two codes share a key exactly when they have one normal form, in which an underscore stays only before a letter, a capital of the first part becomes an underscore and its small letter, and one of a later part just the small letter. |
| MessageKeys.EmptyPartsCollide | backend/scripts/gen_invoice_warning_messages.py:64-65 | Beyond them, an empty part makes two codes share one. |

## Left out

- Redis: failing commands and lost connections; identifiers are numbers, so members of equal score are ordered by number instead of by bytes.
- SessionProtocol: key expiry; every sign-in there stores a description, as `register_session` does.
- SessionLifecycle: the concurrent-session cap is fixed during a run, and the clock does not run back; only the token lifetime changes.
- DatabaseRename: `--force`, connections, and printing; the two prefixes are assumed not to start with one another and the control names to carry neither.
- BankClaims, WorkflowDefaults, RoleDedupe: ids are numbers; the check that the table exists and the other columns are not modelled.
- RequestLifecycle: the framework's exit stack beyond its last-in, first-out order, and closing the sessions.
- EngineScopes: context variables across threads and tasks, a dispose call that raises, and the control engine.
- WebhookClaims: steps 1 to 3 of the route (kill switch, size, signature), expiry of a claim, and the audit row.
- Subscriptions: prices, periods and trial days; new ids come from a counter instead of uuid4.
- FakeErp: the NetSuite and Dynamics stores; an authorization check is one flag, and an invoice's own fields are one number.
- ImportBackfill: parsing the cutover argument and finding the tenant; metadata that is a JSON array or scalar other than null.
- IndexReconcile: the columns and predicates of indexes that are not unique; rows do not change during the migration.
- PngChunks: `ico_sizes`, and the check values of the chunks, which the source does not read.
- TenantUrl: the port as a number, and reading the base URL from the environment.
- MessageKeys: case mapping outside ASCII, and rendering the generated file.
- The approval chain, purchase-order matching, payments, SSO and SCIM scripts, settings, routers and the frontend are not part of this model.
