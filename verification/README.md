# A Dafny model of the CMK control plane

This project models the protocols of CMK, a customer-managed-key service, and proves what they keep. CMK
changes its tables in database transactions, hands long-running work to orbital jobs whose handlers are
called until they succeed, and reconciles with passes that read a table in batches. The interesting claims
are about how these interleave.

Check everything with `dafny verify dfyconfig.toml`.

| file | what it is about |
|---|---|
| `Tables`, `Iteration`, `Optional` | rows of a table in a fixed order and queries on them; repeating a step until a goal is met; nullable values |
| `Pagination`, `PaginationLaws` | the batch loop behind almost every bulk operation, and what it visits under four kinds of callbacks |
| `OrbitalErrors` | parsing, printing and merging the error texts of jobs |
| `Systems` | the rows, jobs, requests and handlers of the system link protocol, one function per operation |
| `LinkProtocol`, `Handlers`, `LinkRuns` | its invariant over every run; done handlers and their replays; the theorems and the runs that show why each hypothesis is needed |
| `SystemService` | the same operations as methods of a service that updates its tables in place |
| `PrimarySwitch`, `PrimaryChange` | changing the primary key of a key configuration |
| `Offboarding`, `OffboardingRuns`, `OffboardingProgress`, `OffboardingSteps`, `OffboardingReach` | tenant offboarding: one pass; all interleavings with job outcomes; termination; steps and pass agree; which tenants can be deleted |
| `Provisioning` | concurrent invocations of the tenant creation handler |
| `ProviderCache`, `KeystorePool` | the double-checked provider cache, and the pool of keystores |
| `Certificates` | certificate requests and rotation |
| `RegistryRefresh`, `SystemList`, `WorkflowCleanup` | three users of the batch loop |
| `Authz`, `ErrorMapper` | the authorization index, and the best-match error mapper |

## What the model takes for granted

- `List` returns a slice of one fixed-order matching sequence and `Count` its length. A row that is written
  keeps its place; a row that is created comes last.
- A transaction is one step. Orbital's jobs live behind a connection of their own
  (internal/event-processor/helpers.go:21-39), so they are not rolled back with a transaction: the model
  keeps them when a primary-key change is refused and when a request's commit fails (`LostCommit` in
  `Systems`).
- A retry and a cancel load the system and its event outside any transaction (internal/manager/system.go:291,
  484-493, 499-513). `Retry` and `Cancel` are the undisturbed requests; the steps `SendRetry` and `SendCancel`
  write what was loaded at any earlier time.
- A job gets one terminal outcome, and its handler is called until it succeeds. A handler that loads a row
  and writes it later keeps the loaded snapshot in between (`Attempt` in `Systems`).
- The link invariant needs, as in `LinkProtocol.Admissible`: the event row is written (the code only logs a
  failure), a transaction that has created its job commits, CANCEL is not sent for a PROCESSING system, what a
  retry or cancel loaded still fits when it is written, no key rotation and no decommission is in play, a
  primary-key switch goes to linked systems, and a new system has a new identifier. `LinkRuns` has a run for
  each of these but the last two that breaks the protocol without it.
- Offboarding needs, as in `OffboardingRuns.Admissible` and `Fresh`: no job is in flight when it starts, and
  the key sync neither touches a DETACHED key nor reports DETACHING or DETACHED. Two runs show why.
- The store's answers (a failing List, Count, create, patch, commit or delete, a refused job, a registry error) are
  arguments, so every error path of the modelled operations is in the model.

## What the proofs found

- The batch loop skips every second batch when its callback makes rows leave the query. Unlinking and
  detaching therefore need several passes, and the retargeting of stored events at a primary-key change is
  complete exactly when at most 100 events match (`PrimarySwitch.RetargetingIsCompleteIffOneBatch`). After the
  whole change the events that still target the old key are those of the odd blocks that belong to systems of
  other configurations (`PrimaryChange.SuccessfulChangeLeavesOddForeignEvents`).
- A refused primary-key change leaves every row as it was, but leaves a job for each system before the one
  that blocked it. Such a job is canceled at its confirmation and its handler then marks a healthy system
  FAILED (`PrimaryChange.RefusedChangeLeavesJobs`, `LinkRuns.LeftoverJobFailsItsSystem`). Nothing is left
  behind exactly when the change does not reach the systems, the first of them blocks it, or none does and
  the configuration is written (`PrimaryChange.ChangeKeepsInvIff`).
- A link, unlink, switch or retry whose commit fails after its job was created does the same harm, exactly
  when it would have been accepted (`LinkRuns.LostCommitKeepsInvIff`).
- Of two retries that loaded the same FAILED system, one that is written after the other's job is done leaves
  the system PROCESSING without an event, so that it can be neither retried nor canceled if its job fails
  (`LinkRuns.LateRetryHasNoEvent`); exactly which late retries and cancels are harmless is stated by
  `LinkRuns.RetryKeepsInvIff` and `LinkRuns.CancelKeepsInvIff`.
- A request whose event row is lost is harmless exactly when it is refused or an event of the same type is
  already there (`LinkRuns.LostEventKeepsInvIff`).
- The new primary key is looked up by its identifier alone, so it need not belong to the configuration. A
  system linked to the configuration afterwards ends CONNECTED to the one that owns the key
  (`PrimaryChange.ForeignKeyBecomesPrimary`, `PrimaryChange.LinkAfterChangeGoesToTheKeysConfig`).
- Offboarding hangs on the primary keys. With nothing in flight at the start, a tenant can be deleted exactly
  when no linked system is PROCESSING or has a configuration without a primary key
  (`OffboardingReach.DeletableIff`). If jobs and unmaps succeed the number of rounds is then logarithmic
  (`OffboardingProgress.OffboardingEnds`).
- The lookup of a tenant's keystore comes before the transaction that draws one, so two callers may draw two
  and lose the first (`KeystorePool.TwoCallersLoseAKeystore`). Nothing is lost exactly when no tenant drew
  twice (`KeystorePool.NothingIsLostIffNoTenantDrewTwice`).
- A certificate rotation that stops between its two writes is harmless exactly when the certificate is the
  newest of its purpose and does not auto-rotate (`Certificates.InterruptedRotationIsHarmlessIff`). One that
  does auto-rotate becomes due again and its next rotation forks the chain
  (`Certificates.InterruptedRotationForks`).
- A stale system whose `identifier:region` key equals a reported one's is never removed, and refreshes
  converge exactly when there is no such system (`RegistryRefresh.HiddenSystemIsNeverRemoved`,
  `RegistryRefresh.RefreshesConvergeIff`).
- A group creation that fails its validation ends the provisioning for good with a tenant row and no groups
  (`Provisioning.ResponsesAre`).
- Merged task errors keep the first error's code unless that error is a bare code without a colon
  (`OrbitalErrors.MergedErrorKeepsFirstCode`).

## Model

| member | source | states |
|---|---|---|
| `Pagination.ProcessInBatchWithOptions` | internal/repo/repository.go:300-350 | the loop, in normal, delete and ignore-fail mode, computes exactly the recursive pass `PassFrom`: same final store, same batches, same way of ending, for any callback under which it stops |
| `PaginationLaws.SteadyPassVisitsEachRowOnce` | internal/repo/repository.go:300-350 | if the callback leaves the query alone, the batches are a prefix of the matching rows in order, and all of them, once each, when the pass finishes, whatever the store answers |
| `PaginationLaws.LeavingPassVisitsEvenBlocks` | internal/repo/repository.go:300-350 | if the callback makes its batch leave the query, one pass visits exactly the even-numbered blocks of the original rows and leaves exactly the odd ones |
| `PaginationLaws.BlockParityIsOfTheQuotient` | internal/repo/repository.go:300-350 | the number of a row's block is its index divided by the batch size |
| `PaginationLaws.OddBlocksAreAtMostHalf` | internal/repo/repository.go:300-350 | such a pass leaves at most half of the rows, and none exactly when they fit into one batch |
| `PaginationLaws.PassesDrainLogarithmically` | internal/manager/tenant.go:246-269 | n rows that leave the query when visited are all visited after floor(log2 n) + 1 passes |
| `PaginationLaws.BitsIsLog2` | internal/manager/tenant.go:246-269 | the bound used above is floor(log2 n) + 1 |
| `PaginationLaws.DeleteModeDrains` | internal/repo/repository.go:300-350 | in delete mode the visited batches and the rows still stored make up the original rows; a pass that finishes has emptied the query |
| `PaginationLaws.PruningPassKeepsKeptRows` | internal/manager/system.go:640-672 | if the callback deletes only the rows of its batch that are not to be kept, no pass drops a kept row, reorders the kept ones or adds a row, whatever the store answers |
| `PaginationLaws.PruningPassReachesFirstRejectedRow` | internal/manager/system.go:640-672 | though deletions shift the offsets, a pass reaches and drops the first row to delete |
| `PaginationLaws.PruningPassHalvesRejectedRows` | internal/manager/system.go:640-672 | such a pass leaves at most half of the rows to delete, since it steps over no more rows than it deletes |
| `OrbitalErrors.JoinedWordsAreCodes` | internal/event-processor/errors.go:40-53 | every non-empty list of upper-case words joined by underscores is accepted as a code |
| `OrbitalErrors.CodesAreJoinedWords` | internal/event-processor/errors.go:40-53 | and nothing else is |
| `OrbitalErrors.ParsePrint` | internal/event-processor/errors.go:32-53 | parsing a printed error with a proper code gives it back, for every message |
| `OrbitalErrors.ParsePrintParse` | internal/event-processor/errors.go:32-53 | for every text, parsing the printed parse gives the same parse |
| `OrbitalErrors.MergeTaskErrors` | internal/event-processor/helpers.go:68-88 | the loop builds the texts joined by colons |
| `OrbitalErrors.MergedErrorKeepsFirstCode` | internal/event-processor/helpers.go:68-88 | the merged text has the first text's code if and only if the first text has a colon, is alone, is no code, or is the default code |
| `SystemService.Service.SubmitEvent` | internal/event-processor/factory.go:313-353 | status guard, job, PROCESSING row and upserted event row, in one step or not at all |
| `SystemService.Service.LinkSystemAction` | internal/manager/system.go:321-382 | the new tables, jobs and reply are those of `Systems.Link`, for every refusal and for link and switch; the link invariant is kept, and after acceptance the system waits for exactly the new job |
| `SystemService.Service.UnlinkSystemAction` | internal/manager/system.go:384-431 | likewise for `Systems.Unlink`, with and without the decommission trigger; the invariant is kept without it |
| `SystemService.Service.RetrySystemAction` | internal/manager/system.go:498-537 | a retry with a row and an event loaded at any earlier times: tables, jobs and reply are those of `Systems.RetryLoaded`; when accepted it keeps the invariant if and only if what was loaded still fits, and undisturbed it always does and the system waits for exactly the new job |
| `SystemService.Service.SendRetry` | internal/manager/system.go:509-533 | the retry's transaction, for a row and an event loaded at any earlier time: it patches the row and creates the job or changes nothing, and keeps the invariant if and only if what was loaded still fits |
| `SystemService.Service.CancelSystemAction` | internal/manager/system.go:483-496 | a cancel with an event read at any earlier time: tables and reply are those of `Systems.CancelLoaded`; when accepted it keeps the invariant if and only if the status it writes fits, which undisturbed means that the system is not PROCESSING; then the system has no job, and status, configuration and claim agree |
| `SystemService.Service.HandleJobDone` | internal/event-processor/handlers_system.go:62-107 | a done handler's registry call, row, event and job are those of `Handlers.DoneHandled`, at every point where it can fail; the invariant is kept, a failing call changes claims only, a successful one settles the system |
| `SystemService.Service.HandleJobNotDone` | internal/event-processor/handlers_system.go:621-706 | a failed or canceled job notes its error, marks the system FAILED and is closed, or nothing happens; the invariant is kept |
| `LinkProtocol.StepKeepsInv` | internal/event-processor/handlers_system.go:62-282 | every admissible request, job outcome, handler step and table change keeps the protocol's invariant; the hypotheses are listed above |
| `LinkProtocol.RunKeepsInv` | internal/manager/system.go:321-592 | so does every admissible run |
| `LinkRuns.FreshIsInv` | internal/manager/system.go:594-628 | a tenant whose systems were all just added satisfies the invariant |
| `LinkRuns.ProcessingIffOneOutstandingJob` | internal/event-processor/factory.go:313-353 | at every point of every run from a state with the invariant a system is PROCESSING if and only if exactly one job of it is outstanding, and that job has the stored event's type |
| `LinkRuns.StatusAgreesWithConfigAndClaim` | internal/event-processor/handlers_system.go:708-759 | at every such point CONNECTED implies a key configuration and an active claim, DISCONNECTED implies neither |
| `LinkRuns.CancelRestoresALegalStatus` | internal/manager/system.go:483-496 | the stored previous status is never PROCESSING and agrees with the configuration, so an accepted cancel of a system that is not PROCESSING ends in a legal state |
| `LinkRuns.LinkAcceptedIff` | internal/manager/system.go:321-382 | exactly when a link request is accepted, and what it asks the job to do |
| `LinkRuns.LinkEndsConnectedToItsTarget` | internal/event-processor/handlers_system.go:62-107 | an accepted link or switch whose job is done ends CONNECTED, with an active claim and no target, event or job, to the configuration that owns the requested one's primary key, so to the requested one if and only if it owns that key |
| `LinkRuns.UnlinkEndsDisconnected` | internal/event-processor/handlers_system.go:155-194 | an accepted unlink whose job is done ends DISCONNECTED without configuration, claim, event and job; the target stays |
| `LinkRuns.UnlinkAcceptedIff` | internal/manager/system.go:384-431 | exactly when an unlink or decommission request is accepted, and what it asks the job to do |
| `LinkRuns.SettledFailure` | internal/event-processor/handlers_system.go:621-706 | a failed or canceled job leaves its system FAILED and the parsed error in the event, and nothing else changed |
| `LinkRuns.CancelUndoesAFailedLink` | internal/manager/system.go:483-496 | cancelling a failed link puts the system back where it was before the request, but for a cleared target |
| `LinkRuns.RetriedLinkEndsConnectedToItsTarget` | internal/manager/system.go:498-537 | a failed link that is retried and then done ends where the link itself would have ended |
| `LinkRuns.AcceptedRequestWaits` | internal/event-processor/factory.go:313-353 | after every accepted link, unlink, switch and retry the system is PROCESSING and has exactly the new job |
| `LinkRuns.DoneHandlerSettles` | internal/event-processor/handlers_system.go:62-282 | every call of a done handler keeps the invariant, and a successful one leaves the system without a job and with status, configuration and claim in agreement |
| `LinkRuns.NotDoneHandlerKeepsInv` | internal/event-processor/handlers_system.go:621-706 | so does the handler of a failed or canceled job |
| `LinkRuns.RetryKeepsInvIff` | internal/manager/system.go:509-533 | whatever a retry loaded earlier, its job keeps the invariant if and only if the system is not PROCESSING by then, its event still has the loaded type, and no loaded configuration is gone |
| `LinkRuns.CancelKeepsInvIff` | internal/manager/system.go:483-496 | whatever status a cancel read earlier, writing it keeps the invariant if and only if the system is not PROCESSING by then and the status agrees with its configuration |
| `LinkRuns.LateRetryHasNoEvent` | internal/manager/system.go:498-537 | two retries loaded the system FAILED, the second is written when the first one's job is done: the system is PROCESSING without an event, outside the invariant, and if the second job fails it can be neither retried nor canceled |
| `Handlers.DoneHandlerIsItsSteps` | internal/event-processor/handlers_system.go:62-282 | one call of a done handler, failing or not, is exactly the small steps the invariant is about |
| `Handlers.FailedCallOnlyClaims` | internal/event-processor/handlers_system.go:62-107 | a failed call changes nothing but the registry's claim, and not what a later success leads to |
| `Handlers.ReplayedHandlerIsIdempotent` | internal/event-processor/handlers_system.go:708-759 | any number of failed calls followed by a success leaves the same state as one success |
| `LinkRuns.LostEventStrandsTheSystem` | internal/event-processor/factory.go:341-350 | without the event row a failed link leaves a system no request can move again |
| `LinkRuns.LostEventKeepsInvIff` | internal/event-processor/factory.go:341-350 | a link, unlink or switch whose event write is lost keeps the invariant if and only if its guards refuse it or the system already has an event of the job's type |
| `LinkRuns.CancelWhileProcessingLeavesAJobBehind` | internal/manager/system.go:286-309 | a cancel of a PROCESSING system leaves a job whose system is not PROCESSING, and which then fails it |
| `LinkRuns.UncommittedRequest` | internal/event-processor/factory.go:313-353 | a request whose commit fails leaves every row as it was, and its job if the guards let it create one |
| `LinkRuns.LostCommitKeepsInvIff` | internal/event-processor/factory.go:313-353 | a failing commit keeps the invariant if and only if the request's guards refuse it |
| `LinkRuns.LostCommitFailsItsSystem` | internal/event-processor/handlers_system.go:594-706 | the job it leaves is canceled at its confirmation and fails a system that was fine |
| `LinkRuns.LeftoverJobFailsItsSystem` | internal/event-processor/handlers_system.go:594-706 | so is every job of a system that is not PROCESSING |
| `LinkRuns.RotationStrandsTheSystem` | internal/event-processor/handlers_system.go:503-542 | a rotation event overwrites a switch event; cancel and the finished rotation then leave the system PROCESSING with no job and no way on |
| `LinkRuns.DecommissionLeavesAStaleEvent` | internal/event-processor/handlers_system.go:429-461 | a decommission leaves the event row behind, with a previous status that no longer fits the configuration |
| `PrimaryChange.ChangePrimary` | internal/manager/keyconfiguration.go:235-290 | the update with its two batch loops computes `Changed`: rows on success, rolled-back rows and surviving jobs on every failure, an event that cannot be decoded or patched included |
| `PrimaryChange.SuccessfulChangeSwitchesEveryMember` | internal/manager/keyconfiguration.go:428-494 | after success every system of the configuration is PROCESSING with one new-primary switch event carrying both keys and its earlier status, has exactly one new job, and every other row is unchanged but for the primary key and retargeted events |
| `PrimaryChange.SuccessfulChangeLeavesOddForeignEvents` | internal/manager/keyconfiguration.go:428-529 | after any successful change to another key the events that still target the old one are exactly those of the odd blocks of 100 whose system is not of the configuration, hence none if at most 100 matched |
| `PrimaryChange.ChangeAcceptedIff` | internal/manager/keyconfiguration.go:428-539 | with stores that answer, the change is made exactly when the caller may, both keys are ENABLED, and no system of the configuration is PROCESSING or refused its job |
| `PrimaryChange.RefusedChangeKeepsRows` | internal/manager/keyconfiguration.go:268-283 | whatever made it fail, a refused change leaves every system, event, configuration and key row as it was |
| `PrimaryChange.RefusedChangeLeavesJobs` | internal/manager/keyconfiguration.go:470-493 | but a job for exactly the first m systems, none of which is blocked; with stores that answer the next one is what blocked the change |
| `PrimaryChange.ChangeKeepsInvIff` | internal/manager/keyconfiguration.go:235-290 | with stores that answer, the link protocol's invariant survives if and only if the change is refused before it reaches the systems, there was no primary key, there is no system, the first system is PROCESSING or refused its job, or no system is and the configuration is written |
| `PrimaryChange.LinkAfterChangeGoesToTheKeysConfig` | internal/manager/keyconfiguration.go:428-459 | a link to the changed configuration ends at the configuration of the new key, hence at the changed one if and only if the key is its own |
| `PrimaryChange.ForeignKeyBecomesPrimary` | internal/manager/keyconfiguration.go:428-459 | a configuration without a primary key accepts an enabled key of another one, and a system linked to it then ends CONNECTED to that other one |
| `PrimarySwitch.SwitchPassIsOneLoop` | internal/manager/keyconfiguration.go:470-493 | the batches of the systems pass amount to one loop that stops at the first refusal |
| `PrimarySwitch.RetargetingIsCompleteIffOneBatch` | internal/manager/keyconfiguration.go:500-529 | the events pass leaves exactly the odd blocks targeting the old key, hence none if and only if at most 100 matched |
| `Offboarding.OffboardTenant` | internal/manager/tenant.go:90-142 | the pass computes `Offboarded`: three batch loops, three checks and the unmap verdict, with every error return |
| `Offboarding.UnmapVerdictIsTheWorstAnswer` | internal/manager/tenant.go:306-376 | the unmap step gives up if and only if some stored system's answer is an invalid argument, waits if and only if none is but some answer can be retried, and is never a success |
| `OffboardingRuns.MoveKeepsSafe` | internal/event-processor/handlers_key.go:92-194 | every step of the reconciler, of a decommission job, of a detach job and of the key sync keeps the safety invariant |
| `OffboardingRuns.DeletedTenantIsOffboarded` | internal/operator/operator.go:512-530 | in every interleaving, when the tenant is deleted no system has a key configuration and every key of a configuration with a primary is DETACHED |
| `OffboardingRuns.NothingIsLost` | internal/event-processor/handlers_system.go:374-395 | at every point of every run a linked system or an undetached key is in the next pass's query or has an outstanding job |
| `OffboardingRuns.BlockingSystemPreventsDeletion` | internal/manager/system.go:762-772 | a linked system without a job that is PROCESSING or whose configuration has no primary key stays so in every run, and the tenant is never deleted |
| `OffboardingRuns.LinkInFlightOutlivesTheTenant` | internal/manager/tenant.go:271-284 | a link in flight at the checks ends in a deleted tenant with a linked system |
| `OffboardingRuns.KeySyncOutlivesTheTenant` | internal/manager/tenant.go:407-431 | a key sync after the last check ends in a deleted tenant with a key that is not DETACHED |
| `OffboardingSteps.StepsAreOffboardTenant` | internal/manager/tenant.go:90-142 | the reconciler's single steps, undisturbed, end with the rows, jobs and verdict of one call of OffboardTenant |
| `OffboardingProgress.AnyOrderCompletes` | internal/event-processor/handlers_key.go:118-155 | completing all jobs of systems and keys, each done or failed, gives the same state in every mixed order |
| `OffboardingProgress.RoundLowersTheMeasure` | internal/manager/tenant.go:90-142 | a pass followed by the non-canceled completion of the jobs is a success exactly when nothing is linked and nothing undetached, and otherwise lowers the lexicographic measure (idle linked, linked, unprocessed keys, undetached keys) |
| `OffboardingProgress.OffboardingEnds` | internal/manager/tenant.go:246-304 | success comes after at most (floor(log2 linked) + 1) + (floor(log2 undetached) + 1) rounds that wait |
| `OffboardingReach.DeletableIff` | internal/manager/tenant.go:90-142 | with nothing in flight, nobody refused a job and a registry that unmaps, some run deletes the tenant if and only if every linked system is idle and its configuration has a primary key |
| `Provisioning.TenantOperator.Check` | internal/operator/probe.go:60-118 | when the probe succeeds it reports the row, and both groups only in an existing schema |
| `Provisioning.TenantOperator.HandleCreateTenant` | internal/operator/operator.go:182-234 | one invocation changes the tables and answers as `Handled` says, on every error path |
| `Provisioning.ProvisioningIsSafe` | internal/manager/group.go:171-220 | in every interleaving of invocations: at most one row per tenant, both default groups or neither and each at most once, and a completed creation has its row, both groups and the registry's acceptance |
| `Provisioning.AloneIsHandled` | internal/operator/operator.go:182-234 | an undisturbed invocation of the interleaved model is one call of the handler |
| `Provisioning.TwoInvocationsSuffice` | internal/operator/operator.go:688-737 | from any reachable state an invocation with cooperating stores completes exactly when everything is there, and otherwise the next one does |
| `Provisioning.ResponsesAre` | internal/operator/operator.go:558-573 | exactly when an invocation completes and exactly when it fails for good; a failing one creates no group, and changes nothing unless it was the groups that were invalid |
| `ProviderCache.ProviderConfigManager.GetOrInitProvider` | internal/manager/providerconfigmanager.go:119-189 | the two checks and the initialisation between them, with the map as other callers may have left it; only an entry built with a past expiration can be returned expired |
| `ProviderCache.DefaultLifetimeIsADay` | internal/manager/providerconfigmanager.go:50-68 | an entry built without an expiration is served again for exactly 24 hours |
| `ProviderCache.SharedEntryIff` | internal/manager/providerconfigmanager.go:120-142 | exactly which requests share a cache entry |
| `ProviderCache.OneInitialisationPerLifetime` | internal/manager/providerconfigmanager.go:144-189 | under every interleaving, and from any filled map, when a provider is initialised every entry ever stored for its key had expired by the second check |
| `ProviderCache.ReturnedEntryIsGood` | internal/manager/providerconfigmanager.go:144-189 | every returned entry is one of its key and was unexpired when checked, or was built and stored by the caller |
| `ProviderCache.NoDataRace` | internal/manager/providerconfigmanager.go:144-189 | the map is never read while it is written and has one writer at most |
| `ProviderCache.AloneServes` | internal/manager/providerconfigmanager.go:153-189 | behind a free write lock the steps of one caller are those of the method |
| `KeystorePool.Pool.Pop` | internal/manager/keystorepool.go:53-72 | the youngest keystore leaves the pool and is returned, or nothing changes |
| `KeystorePool.FillKeystorePool` | internal/manager/providerconfigmanager.go:191-219 | an undisturbed fill ends at max(old count, size), keeps what was there and adds what it created in order; a failing one stops at the round that failed |
| `KeystorePool.KeystoresAreConserved` | internal/manager/tenantconfigs.go:224-307 | over every run the added keystores are the disjoint union of the pooled, the assigned and the lost ones, and no keystore is assigned to two tenants |
| `KeystorePool.SerialDrawsLoseNothing` | internal/manager/tenantconfigs.go:270-282 | with one caller per tenant at a time nothing is lost and no tenant draws twice |
| `KeystorePool.NothingIsLostIffNoTenantDrewTwice` | internal/manager/tenantconfigs.go:270-307 | over every run each tenant's draws number its stored keystore and those it lost, so nothing is lost if and only if every tenant drew at most once |
| `KeystorePool.TwoCallersLoseAKeystore` | internal/manager/tenantconfigs.go:224-237 | two callers that both looked before either drew draw twice and lose the first keystore |
| `Certificates.CertificateManager.RequestNewCertificate` | internal/manager/certificate.go:143-160 | a certificate is issued only if there is none of the purpose |
| `Certificates.CertificateManager.UpdateCertificate` | internal/manager/certificate.go:109-141 | auto-rotation is switched as `Update` says, with both refusals |
| `Certificates.CertificateManager.RotateCertificate` | internal/manager/certificate.go:162-179 | a successor that refers to the old certificate, which stops rotating |
| `Certificates.CertificateManager.RotateExpiredCertificates` | internal/manager/certificate.go:88-107 | the loop rotates the due certificates up to the first failure |
| `Certificates.RotationIsOneBatch` | internal/manager/certificate.go:88-107 | at most three certificates are ever due, so the batch loop has one batch and is that loop |
| `Certificates.OneChainPerPurpose` | internal/manager/certificate.go:333-470 | after every run, for each singleton purpose, the newest certificate's history is all certificates of the purpose from the latest to the earliest date, and none but the newest auto-rotates |
| `Certificates.UpdateAcceptedIff` | internal/manager/certificate.go:119-134 | auto-rotation can be switched on exactly for the newest certificate of its purpose |
| `Certificates.InterruptedRotationIsHarmlessIff` | internal/manager/certificate.go:162-179 | a rotation stopped between its writes keeps the chains if and only if the old certificate is the newest of its purpose and does not auto-rotate |
| `Certificates.InterruptedRotationForks` | internal/manager/certificate.go:162-179 | if it does auto-rotate it is due again, and its next rotation forks the chain |
| `RegistryRefresh.SystemManager.RefreshSystemsData` | internal/manager/system.go:205-244 | the creation loop and the deletion pass compute `Refreshed`, on every error path |
| `RegistryRefresh.KeyIsInjective` | internal/manager/system.go:632-637 | with colon-free regions the lookup key tells systems apart |
| `RegistryRefresh.RefreshTouchesOnlyStale` | internal/manager/system.go:594-678 | even a refresh that fails halfway deletes no stored system the registry reports and stores none it does not |
| `RegistryRefresh.PassDropsTheFirstStaleRow` | internal/manager/system.go:630-678 | a deletion pass removes the first stale system, if none is hidden by a reported system's key |
| `RegistryRefresh.RefreshesConverge` | internal/manager/system.go:630-678 | if none is hidden, one refresh, or floor(log2 stale) + 1 if there are stale systems, make the stored systems exactly the reported ones |
| `RegistryRefresh.RefreshesConvergeIff` | internal/manager/system.go:594-678 | with a store that refuses nothing, refreshes converge if and only if no stale system has a reported system's key |
| `RegistryRefresh.ColonFreeHidesNothing` | internal/manager/system.go:632-637 | colon-free regions suffice for that |
| `RegistryRefresh.HiddenSystemIsNeverRemoved` | internal/manager/system.go:650-655 | a stale system whose key is reported survives every number of refreshes |
| `RegistryRefresh.ColonsHideAStaleSystem` | internal/manager/system.go:632-637 | such a pair of systems exists |
| `SystemList.ListSystemsWithProperties` | internal/repo/repository.go:164-282 | the list is built from one loop over all joined rows, however they are split into batches |
| `SystemList.BatchesDoNotMatter` | internal/repo/repository.go:246-269 | the map filled batch by batch is the map of a single loop |
| `SystemList.ListIsFaithful` | internal/repo/repository.go:271-282 | the list has the page's systems in order, exactly those with a joined row, each with its details and all its properties |
| `WorkflowCleanup.CleanupTerminalWorkflows` | internal/manager/workflow.go:700-743 | the delete-mode loop computes `Cleaned` |
| `WorkflowCleanup.CleanupDeletesExactlyTheDue` | internal/manager/workflow.go:700-743 | only terminal workflows older than the cutoff go, with their approvers; all of them when cleanup ends without error |
| `WorkflowCleanup.CleanupSucceedsIff` | internal/manager/workflow.go:715-738 | with stores that answer, cleanup succeeds exactly when every due workflow can be deleted |
| `Authz.BusinessUserAuthzData.AddUser` | internal/authz/authorization_data.go:72-101 | the nested loops add exactly the keys of the roles before the first unknown one, in whatever order the map is iterated |
| `Authz.IsBusinessUserAllowed` | internal/authz/handler.go:99-142 | the decision is `Decide`: invalid, allowed by some requested group, or denied |
| `Authz.AllowedIffEntitled` | internal/authz/handler.go:99-142 | after any history of resets and loads a request is allowed if and only if it is valid, its pair is declared, and one of its groups was loaded for its tenant since the last reset under a role whose policies grant it |
| `Authz.OtherTenantsDoNotMatter` | internal/authz/authorization_data.go:72-101 | loading users of other tenants never changes an answer |
| `Authz.LoadAddsOnlyEntitledKeys` | internal/authz/authorization_data.go:72-101 | a load, also a failing one, adds only keys that a known role's policies grant to its users; one without unknown roles adds all of them |
| `Authz.NewInternalUserAuthzData` | internal/authz/authorization_data.go:106-137 | the internal index holds exactly what the static policies grant, in whatever order they are iterated |
| `ErrorMapper.CountMatchingErrors` | internal/errs/mapper.go:93-104 | the loop counts the candidates found in the error |
| `ErrorMapper.GetBestMatches` | internal/errs/mapper.go:66-90 | the result is exactly the fully matched entries of maximal chain length, in table order |
| `ErrorMapper.Transform` | internal/errs/mapper.go:35-53 | first priority entry with any match, else first fully matched entry of maximal length, else the default |
| `ErrorMapper.RulesDecide` | internal/errs/mapper.go:31-34 | these rules determine what is exposed |
| `ErrorMapper.ShorterEntryChangesNothing` | internal/errs/mapper.go:66-90 | an entry with a shorter chain than the winner's changes nothing, wherever it is inserted |

## Left out

- The workflow approval state machine, key creation, import and sync, tags, labels, search and the HTTP, gRPC, AMQP, plugin, telemetry and configuration layers.
- The text of SQL queries, JSON and protobuf encodings, PEM and X.509 parsing: rows, keys and certificates are values.
- Clocks: the provider cache has a clock that only grows; certificates get strictly increasing dates; the termination timeout of offboarding and the OIDC mapping removal before it are not modelled.
- The registry reply "not successful, no error" during provisioning, on which the code reads a missing error.
- The failed existence count in createSystemIfNotExists: the code ignores the error and then fails to create, which the model has as a refused creation.
- Cross-instance races on the keystore pool: a draw is one step. The provisioning of a drawn keystore with trust grants does not change which keystore it is and is left out.
- Audit logs and the LOCKED status that a failed decommission sets in the registry.
- IsInternalUserAllowed, GetRecoveryActions and the list filters: single lookups.
- DeleteTenant's own cascade: the deletion is one step that may fail.
- OffboardingRuns.DeletedTenantIsOffboarded: two reconcilers of one tenant at the same time are not modelled, and a transaction that has created its job is assumed to commit.
- Certificates.OneChainPerPurpose: a rotation is one step; when an interrupted one is harmless is stated by InterruptedRotationIsHarmlessIff.
- Pagination.ProcessInBatchWithOptions: the store is threaded as a value, so aliasing between the callback and the caller is not captured; the loop is modelled for callbacks under which it stops.
