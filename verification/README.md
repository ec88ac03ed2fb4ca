# Verification of mcp2cli's core

mcp2cli is a command-line client and a daemon in front of MCP servers. This project
models its self-contained logic in Dafny and proves what that logic is for.

- **Alias analysis and import closure** (`AliasAnalysis`, `AliasSoundness`,
  `AliasPrecision`, `AliasReach`, `AliasLimits`, `AliasAnalyser`, `ImportClosure`,
  `ImportResolver`, `ImportFollowing`). A fixed point over five sets of names finds every
  way a test file can reach `mock.module`. It is proved sound against a semantics that runs
  the bindings, and hands on arguments and other values, in any order; it is least; and
  what it reports can happen.
- **Connection pool and circuit breaker** (`ConnectionPool`, `PoolRuns`, `PoolBounds`,
  `PoolHistory`, `PoolCapacity`, `DeadBackendRuns`, `CircuitBreaker`). Callers, connect attempts and
  breaker files are steps between `await`s that interleave freely over an integer clock.
  Single flight makes each key's breaker history sequential, which gives the bound on a
  dead backend.
- **Credentials and the pool** (`Credentials`, `Resolution`, `StoreChanges`, `Coherence`,
  `Managers`). Requests,
  credential changes and configuration changes are the steps of a run; what a caller is
  served with is always what would be resolved for it now.
- **Skill files** (`Grouping`, `SkillFile`, `SkillRoundTrip`, `LegacyTable`, `SkillDiff`,
  `ManualSections`, `ManualText`, `ManualRounds`, `SkillTemplate`, `Frontmatter`, `TriggerLists`,
  `MergeContent`, `MergeAppend`, `MergeFronts`, `MergeTwice`, `MergeLimits`, `SkillMerge`). The printer,
  the line parser, grouping, and the two ways to keep what a user wrote.
- **Exact transformers** (`CanonicalJson`, `SchemaDrift`, `Csv`, `Glob`, `FieldPaths`,
  `FieldCopies`, `FieldMask`, `FieldLimits`, `LineFramer`) and the **start lock** (`StartLock`).

`Wrappers`, `Lists`, `Lookups`, `Strings`, `Ordering` and `Prototypes` hold what several of
these use.

Code that changes state is a class or a method with loops; it is proved equal to a
specification function, and the properties are lemmas about that function. Files, clocks,
network outcomes, locale order, upper-casing, SHA-256 and the host's `Number` are
parameters or nondeterministic steps. Characters are Unicode scalar values.

## What came out

Where the code does not meet a property in general, there is an input for which it fails
and, but for the alias analysis, the exact condition is proved:

- The alias analysis does not follow `await` of a stored import promise, destructuring by
  assignment, a copied wrapper, arguments, returned values or property assignments; and it
  drops the escapes of a name that is declared first and assigned later (`AliasLimits`).
  Files of the fragment have none of the former, and `NoSilencedEscape` excludes the last.
- Each lost breaker record allows one more connect to a dead backend, and no more
  (`DeadBackendBound`, `DeadBackendBoundIsReached`).
- A group removal stopped by a throwing close leaves a connection that no request can
  reach by its key, unless it had closed that service; answers stay current
  (`InterruptedRemovalIsNotExact`, `RemovalExactIff`).
- The start lock excludes exactly while hold time plus the delay between `stat` and the
  age check is at most 30 s; `MCP2CLI_STARTUP_TIMEOUT` can raise the hold time above that.
  With a crashed owner two processes may take over together.
- A tool name with `<!-- AUTO-GENERATED:END -->` in it does not survive the round trip
  (`ReadsBackIff`); the flat list drops names with blanks.
- Merging is idempotent unless an existing quoted trigger starts with white space
  (`QuotedBlankIsUnstable`), the existing front matter begins with a key that starts with
  `---` (`DashKeyIsNotStable`), or dropping a block joins the two halves of a marker
  (`JoinedMarkIsNotStable`); `MergeIsIdempotentIff` has the exact condition. Files that the
  program generated itself are never affected (`RegenerationMergesOnce`).
- Manual sections are matched by order. The comment at src/generation/preserve.ts:82-92
  speaks of matching by heading, which the code does not do.
- `canonicalJson` drops members named `__proto__`.
- A CSV cell of an absent key is empty unless plain objects inherit a member of that name,
  such as `constructor` (`AbsentCellIff`, `InheritedCell`); a one-column table that ends in
  an empty cell reads short if a line feed may end the last record.
- A glob wildcard never takes a line terminator; a pattern that is too long goes unnoticed
  behind one that matches.
- A field mask loses a field when a key made of digits turns the object around it into an
  array (`DigitKeyLosesField`). Behind an own member `constructor` or `__proto__` the code
  goes on in what all objects share, which throws or changes it (`InheritedNamesStop`), and
  an inherited value asked for behind its own object becomes a member of the input
  (`InheritedValueChangesInput`). `OneFieldIff` has the exact condition for one field.
- Past its limit the framer can hand on the end of a line as a line.

## Model

| member | source | states |
|---|---|---|
| `AliasSoundness.EveryCallIsRecorded` | scripts/done-means/no-connection-module-mocks.ts:675-1032 | Whenever some run of a file in the fragment with no escape, reported or dropped as a shadow, reaches a state where a call site calls `mock.module`, the report has a call record for that site, and the record either claims no specifier or has the one that is really patched. A run executes the bindings and passes, keeps and renames values in any order. |
| `AliasSoundness.CleanFileNeverPatches` | scripts/done-means/no-connection-module-mocks.ts:976-1131 | A file of the fragment with an empty report, in which no escape was dropped as a shadow, never calls `mock.module`, in any run. |
| `AliasPrecision.EveryRecordStandsForCall` | scripts/done-means/no-connection-module-mocks.ts:976-1032 | The converse: every call record names a call of the file that can be one of `mock.module` in some state the sets allow, by its name, as a property named `module` or computed, or through `call`, `apply` or `bind`; its target is the literal given first, and it is dynamic exactly when it may not be the specifier. |
| `AliasPrecision.RecordedIff` | scripts/done-means/no-connection-module-mocks.ts:976-1032 | A site is recorded if and only if it is a call of that kind. |
| `AliasPrecision.EveryEscapeIsRead` | scripts/done-means/no-connection-module-mocks.ts:1034-1131 | Every escape in the report is a read, used as a value, of a name or property that can give the function and that is not silenced. |
| `AliasPrecision.SilencedIff` | scripts/done-means/no-connection-module-mocks.ts:733-775 | A name is silenced exactly when the file declares it as no value, or when some declaration takes it for what is no alias at its turn in the first pass. |
| `AliasReach.NamesAreHeld` | scripts/done-means/no-connection-module-mocks.ts:733-974 | Every name of the least sets really comes to hold its value in some run of the file, when no import, pattern or literal gives one name two values. |
| `AliasReach.EveryRecordCanPatch` | scripts/done-means/no-connection-module-mocks.ts:976-1032 | In such a file every recorded call is one that some run can make of `mock.module`, or of its `bind`. |
| `AliasReach.NoModuleNoReport` | scripts/done-means/no-connection-module-mocks.ts:942-1131 | A file that nowhere names `module`, has no computed read and no key of that name has an empty report. |
| `AliasSoundness.RunCovered` | scripts/done-means/no-connection-module-mocks.ts:733-974 | In every state of every run each name that holds the mock namespace, `mock.module`, the bun:test module, the fetcher or a wrapper is in the matching set of any closed solution. |
| `AliasSoundness.BindingSound` | scripts/done-means/no-connection-module-mocks.ts:789-880 | One executed binding keeps every name inside the set that explains its value, for names, patterns and one-level wrappers. |
| `AliasSoundness.DirectCallRecorded` | scripts/done-means/no-connection-module-mocks.ts:976-1032 | A site whose callee evaluates to `mock.module` has exactly one record, and a record that claims a specifier has the one the call really gets. |
| `AliasSoundness.IndirectCallRecorded` | scripts/done-means/no-connection-module-mocks.ts:905-933 | `call` and `apply` on `mock.module` get one record, marked as not having read the specifier. |
| `AliasAnalysis.SettledIsLeast` | scripts/done-means/no-connection-module-mocks.ts:942-974 | When a pass learns nothing, the five sets are the least sets closed under the transfer rules. |
| `AliasAnalysis.OrderIndependence` | scripts/done-means/no-connection-module-mocks.ts:733-974 | Files with the same bindings and imports in any order, with any repetitions, have the same five sets. |
| `AliasAnalysis.BindBetween` | scripts/done-means/no-connection-module-mocks.ts:789-880 | One `bind` only grows the sets and stays within every closed solution above them. |
| `AliasAnalysis.SettledIffAdmits` | scripts/done-means/no-connection-module-mocks.ts:789-880 | A `bind` changes nothing exactly when the sets already satisfy the rule for that binding. |
| `AliasAnalysis.ShadowsShrink` | scripts/done-means/no-connection-module-mocks.ts:733-775 | A later pass takes no name for a shadow that the first one did not, so the names of the first pass are all that is ever dropped. |
| `AliasAnalysis.SeedsAsUnion` | scripts/done-means/no-connection-module-mocks.ts:675-726 | What the import declarations seed, independently of their order: only named imports of `mock`, namespace imports and `import = require` of bun:test. |
| `AliasAnalyser.Analyser.Settle` | scripts/done-means/no-connection-module-mocks.ts:942-974 | The pass loop stops within five passes for each name with the least solution, or raises an error at 64 passes, which takes more than 64 / 5 names. |
| `AliasAnalyser.Analyser.BindName` | scripts/done-means/no-connection-module-mocks.ts:789-826 | Updates the five sets in place by one binding of a name. |
| `AliasAnalyser.Analyser.BindPattern` | scripts/done-means/no-connection-module-mocks.ts:827-880 | Updates the sets by one destructuring, a nested pattern below `mock` included. |
| `AliasAnalyser.Analyser.Learn` | scripts/done-means/no-connection-module-mocks.ts:733-786 | One pass over all bindings, each seeing what the earlier ones taught, recording a shadow for each declaration that is not known to be an alias. |
| `AliasAnalyser.Analyser.Check` | scripts/done-means/no-connection-module-mocks.ts:942-1131 | The whole check of one file: either the report for the least solution, less the escapes of shadowed names, or the error for not settling. |
| `AliasLimits.AwaitedNameIsMissed` | scripts/done-means/no-connection-module-mocks.ts:887-903 | A run that patches the registry with an empty report: `await` of a stored import promise is not followed. |
| `AliasLimits.AssignmentPatternIsMissed` | scripts/done-means/no-connection-module-mocks.ts:789-880 | The same for destructuring by assignment. |
| `AliasLimits.CopiedWrapperIsMissed` | scripts/done-means/no-connection-module-mocks.ts:789-826 | The same for a copy of a wrapper object. |
| `AliasLimits.ParameterIsMissed` | scripts/done-means/no-connection-module-mocks.ts:733-786 | The same for a namespace passed as an argument, `f(mock)`: parameters are no bindings. |
| `AliasLimits.ReturnIsMissed` | scripts/done-means/no-connection-module-mocks.ts:905-1032 | The same for a namespace returned from a function. |
| `AliasLimits.PropertyIsMissed` | scripts/done-means/no-connection-module-mocks.ts:789-826 | The same for a namespace assigned to a property. |
| `AliasLimits.SilencedEscapeIsMissed` | scripts/done-means/no-connection-module-mocks.ts:769-775 | The same for a name declared first and assigned later, whose escapes are dropped as those of a shadow. |
| `ImportClosure.WithLocalImports` | scripts/done-means/no-connection-module-mocks.ts:1215-1438 | The worklist ends with exactly the files reachable from the entrypoints along resolved in-repository code edges, and with exactly the reports their imports call for. |
| `ImportClosure.EmptyReportFollowsAll` | scripts/done-means/no-connection-module-mocks.ts:1215-1438 | With an empty report every relative import of every reached readable file is a reached file or a data file. |
| `ImportClosure.WalkComplete` | scripts/done-means/no-connection-module-mocks.ts:1215-1438 | An empty queue means that nothing reachable was left out. |
| `ImportResolver.FirstExistingIsFirst` | scripts/done-means/no-connection-module-mocks.ts:337-350 | Resolution takes the first candidate, in the order of the suffixes, that exists. |
| `ImportResolver.RepoResolves` | scripts/done-means/no-connection-module-mocks.ts:466-510 | Following a specifier only ever yields files of the repository. |
| `ImportFollowing.FollowIs` | scripts/done-means/no-connection-module-mocks.ts:1371-1424 | By the file an import loads: it is vendored exactly when the link target lies in `node_modules`, outside exactly when that target is not below the root, data exactly when its last segment has a dot and it ends in no runnable suffix, and otherwise the code that is read. |
| `ImportFollowing.FoundIs` | scripts/done-means/no-connection-module-mocks.ts:1343-1376 | The file an import loads: that of a package `main` first, else the path as written, then with a suffix, then as a directory index, then the same for the TypeScript paths that an emitted path stands for. |
| `ImportFollowing.LoadsOne` | scripts/done-means/no-connection-module-mocks.ts:1343-1376 | Every specifier loads one file, or none. |
| `ImportFollowing.ExactFileIsRead` | scripts/done-means/no-connection-module-mocks.ts:1410-1424 | An existing repository file outside `node_modules` that a specifier names exactly and whose name ends in a runnable suffix, in letters of either case, is read as code when no package `main` comes first. |
| `ImportFollowing.ReportedIff` | scripts/done-means/no-connection-module-mocks.ts:1315-1434 | What is reported: the computed imports of reached files, and of their relative ones exactly those that load nothing, a vendored file or one outside. |
| `ImportFollowing.FollowImports` | scripts/done-means/no-connection-module-mocks.ts:1215-1438 | The walk over a repository reads exactly the reachable files; with an empty report every relative import of each is a reached file or a data file. |
| `ImportFollowing.NothingUnread` | scripts/done-means/no-connection-module-mocks.ts:1215-1438 | With an empty report no relative import of a reached file that loads a runnable repository file goes unread. |
| `PoolRuns.AtMostOneAttemptPerKey` | src/daemon/pool.ts:84-205 | In every interleaving of callers and attempts a key is pending exactly when an attempt for it is unsettled, and no key has two. |
| `PoolHistory.ConnectedIff` | src/daemon/pool.ts:84-205 | In every interleaving a key is connected through an attempt exactly when that attempt ended well for it and nothing has closed or replaced the connection since. |
| `PoolHistory.EveryConnectionServes` | src/daemon/pool.ts:84-205 | Every connection in the pool is one that an attempt made. |
| `PoolHistory.OutcomesExplained` | src/daemon/pool.ts:313-451 | In every interleaving an attempt ends well only with a recorded remote connection or a local one, a remote connection is lost only when its record fails, and with a local way to connect it ends badly only when its secrets, its gate or its record could not be had or the local way failed too. |
| `PoolHistory.AdmissionIff` | src/daemon/pool.ts:103-128 | Exactly when a request joins an attempt, meets the limit, has no configuration or starts an attempt. |
| `PoolHistory.FileIffSaved` | src/resilience/circuit-breaker.ts:173-241 | The breaker file of a key changes just when a record of it is saved. |
| `PoolBounds.CapacityBound` | src/daemon/pool.ts:103-205 | If at most k attempts are ever in flight together, the keys connected or connecting number at most maxSize - 1 + k. |
| `PoolBounds.SequentialNeverExceedsMax` | src/daemon/pool.ts:103-128 | One attempt at a time never exceeds the configured size. |
| `PoolCapacity.CapacityBoundIsReached` | src/daemon/pool.ts:103-205 | For every size and every k some run reaches maxSize - 1 + k, so the bound is exact. |
| `PoolBounds.DeadBackendBound` | src/daemon/pool.ts:313-355 | Against a backend that always fails, in every interleaved run of one daemon, the remote connects begun under a key within a window are at most the failure threshold plus one for each whole cooldown, plus one for each failure record that was lost. |
| `DeadBackendRuns.DeadBackendBoundIsReached` | src/daemon/pool.ts:313-355 | For every configuration, window and number of lost records some run starts exactly as many connects as that bound allows, so each part of it is needed. |
| `PoolBounds.DefaultDeadBackendBound` | src/resilience/circuit-breaker.ts:39-48 | With the default configuration and every record saved: five, and one a minute. |
| `PoolBounds.AlwaysKeyInv` | src/daemon/pool.ts:384-430 | What one key sees of a run is a sequential history of its breaker, because attempts of a key never overlap. |
| `ConnectionPool.ConnectionPool.Admit` | src/daemon/pool.ts:103-128 | From the look at `pending` to the new pending entry: join, limit, missing configuration or start, decided in this order in one step. |
| `ConnectionPool.ConnectionPool.SettleConnected` | src/daemon/pool.ts:180-196 | A finished attempt replaces its pending entry by a connection. |
| `ConnectionPool.ConnectionPool.CloseServicePattern` | src/daemon/pool.ts:224-239 | Closes exactly the connections of a service other than its exact key. |
| `ConnectionPool.ConnectionPool.CloseService` | src/daemon/pool.ts:208-221 | Closes the exact key first; if that close throws, nothing else is closed. |
| `CircuitBreaker.StateSummarisesHistory` | src/resilience/circuit-breaker.ts:145-260 | In sequential runs the stored count is the failures since the last success, the stored state is open exactly when it has reached the threshold and is never half-open, and the opening time is the one the history shows. |
| `CircuitBreaker.StampsAreLast` | src/resilience/circuit-breaker.ts:173-241 | The two stamps of a stored state are those of the last failure and of the last success. |
| `CircuitBreaker.RefusedWithinCooldown` | src/resilience/circuit-breaker.ts:243-260 | HTTP is refused exactly within the cooldown of the last opening. |
| `CircuitBreaker.InterleavingKeepsConsistency` | src/resilience/circuit-breaker.ts:173-241 | When loads, saves, lost saves and resets of any number of processes interleave, open still means an opening time and a count at the threshold, and the count never exceeds the failures reported. |
| `CircuitBreaker.StateFile.RecordFailure` | src/resilience/circuit-breaker.ts:173-213 | Loads, updates and saves the state file as the transition for a failure. |
| `Coherence.EveryAnswerIsCurrent` | src/daemon/server.ts:124-171 | In every run of requests, credential changes and configuration changes, a served caller gets the configuration and credential that would be resolved for it at that moment, cached or not. |
| `Coherence.AlwaysCoherent` | src/credentials/credential-manager.ts:175-332 | In every run each pooled connection whose key stands for something was built from the current configuration and credential of that key; and in all states of the run every key stands for something if and only if each group removal closed the services of all connections opened for the group. |
| `Coherence.RouteDenotes` | src/daemon/server.ts:124-171 | The pool key of a request stands for exactly what the request resolves to. |
| `Resolution.ResolvedIs` | src/credentials/credential-manager.ts:87-108 | A user's own credential is always the result; without one it is that of the first group with the user in it that has one; then the default; else none. |
| `Resolution.UnresolvedIff` | src/credentials/credential-manager.ts:87-108 | None if and only if there is no own credential, no such group and no default. |
| `Resolution.MergedIs` | src/daemon/credential-merge.ts:27-58 | The headers of a credential override those of an HTTP or WebSocket service and its environment that of a stdio one; all else stays. |
| `Resolution.EveryAnswerIsDue` | src/daemon/server.ts:124-171 | In every run whoever is served gets the configuration that the precedence of the three sources and the merge, both said by lookups, give now. |
| `Resolution.RefusedIff` | src/daemon/server.ts:124-171 | A request is refused exactly when the service requires credentials and none is there. |
| `Resolution.AnswerIs` | src/daemon/pool.ts:84-205 | What a request answers and what it leaves in the pool, case by case. |
| `Resolution.OtherServicesStay` | src/credentials/credential-manager.ts:407-435 | A credential change closes no connection of another service. |
| `Resolution.BareConnectionStays` | src/daemon/pool.ts:224-239 | A scoped credential change leaves the connection under the service name. |
| `Resolution.UnchangedServicesStay` | src/daemon/config-manager.ts:57-202 | A configuration change closes no connection of a service it leaves alone. |
| `StoreChanges.KeysAreSourcesIff` | src/daemon/server.ts:139-146 | Two resolved credentials share a pool key exactly when they are one assignment of one service. |
| `Coherence.AlterKeepsCoherent` | src/credentials/credential-manager.ts:407-435 | Every credential change evicts enough, whatever closes throw. |
| `Coherence.ReconfigureKeepsCoherent` | src/daemon/config-manager.ts:57-202 | Every configuration change evicts enough, an import that stops half way included. |
| `Coherence.RemovalExactIff` | src/credentials/credential-manager.ts:315-332 | A group removal from a state without stale connections leaves none if and only if it got to close the service of every connection opened for the group. |
| `Coherence.CompleteRemovalsKeepExact` | src/credentials/credential-manager.ts:315-332 | When group removals run to their end, every key in the pool stands for something in all states. |
| `Coherence.FailedChangesLeaveNoTrace` | src/credentials/credential-manager.ts:418-435 | Leaving the changes that were refused or could not be written out of a run gives a run that ends in the same services, credentials, disk and pool. |
| `Coherence.DiskFollowsStore` | src/credentials/credential-manager.ts:418-435 | After every run memory and disk hold the same credentials. |
| `Coherence.InterruptedRemovalIsNotExact` | src/credentials/credential-manager.ts:315-332 | A group removal that stops at a connection whose close throws leaves a connection whose key stands for nothing. |
| `Managers.CredentialManager.SetCredential` | src/credentials/credential-manager.ts:175-196 | One step of the model: mutation, write or rollback, and eviction; a failure leaves store, disk and pool as they were. |
| `Managers.CredentialManager.RemoveCredential` | src/credentials/credential-manager.ts:215-237 | The same for a removal, which drops an emptied identity. |
| `Managers.CredentialManager.SetDefault` | src/credentials/credential-manager.ts:199-210 | The same for a default, which closes the service until a close throws. |
| `Managers.CredentialManager.RemoveDefault` | src/credentials/credential-manager.ts:240-255 | The same for the removal of a default. |
| `Managers.CredentialManager.AddGroup` | src/credentials/credential-manager.ts:260-272 | The same for a new group, refused when its name is an identity or a group. |
| `Credentials.ListedKeepsListing` | src/credentials/credential-manager.ts:260-272 | Adding a group keeps the order in which an object lists its members: indices first and ascending, then the others as they were added. |
| `Managers.CredentialManager.AddGroupMembers` | src/credentials/credential-manager.ts:277-292 | The same for new members, those already there left out. |
| `Managers.CredentialManager.RemoveGroupMembers` | src/credentials/credential-manager.ts:297-310 | The same for removed members. |
| `Managers.CredentialManager.RemoveGroup` | src/credentials/credential-manager.ts:315-332 | The same for a group, whose credentials go with it and whose services are found before. |
| `StoreChanges.SetCredentialIs` | src/credentials/credential-manager.ts:175-197 | By lookups: the one credential is set and all others stay. |
| `StoreChanges.RemoveCredentialIs` | src/credentials/credential-manager.ts:215-238 | By lookups: refused exactly when there is none; all others stay, and an identity is dropped exactly when it has none left. |
| `StoreChanges.DefaultsAre` | src/credentials/credential-manager.ts:199-258 | By lookups: one default is set, or removed, and refused exactly when there is none. |
| `StoreChanges.AddGroupIs` | src/credentials/credential-manager.ts:260-272 | Refused exactly when a group or an identity with credentials has the name; else one group more, and the others in their order. |
| `StoreChanges.AddMembersIs` | src/credentials/credential-manager.ts:277-292 | The members stay, and behind them come just the new ones that are none yet, in order. |
| `StoreChanges.RemoveMembersIs` | src/credentials/credential-manager.ts:297-313 | The members left are just those not listed, in order. |
| `StoreChanges.RemoveGroupIs` | src/credentials/credential-manager.ts:315-332 | The group goes with the credentials under its name, and nothing else. |
| `Managers.CredentialManager.Finish` | src/credentials/credential-manager.ts:418-429 | The end of a transaction: write or rollback, and the closes only after a write. |
| `Managers.ConfigManager.UpdateService` | src/daemon/config-manager.ts:72-89 | Closes before it replaces; a close that throws leaves the old configuration. |
| `Managers.ConfigManager.Replace` | src/daemon/config-manager.ts:111-142 | Closes exactly the services removed or changed, then takes over the new file. |
| `Managers.ConfigManager.MergeIn` | src/daemon/config-manager.ts:144-202 | Takes imported services over one at a time, and on a close that throws keeps what was taken over so far. |
| `StoreChanges.ConfiguredIs` | src/daemon/config-manager.ts:57-202 | The entry under any name after each configuration change whose closes complete. |
| `StoreChanges.StoppedIs` | src/daemon/config-manager.ts:72-202 | The same when a close throws: an import keeps what it took over, the others change nothing. |
| `SkillDiff.GenerateThenDiff` | src/generation/diff.ts:45-184 | A skill file generated from any tools with plain names and read again gives their names back as a multiset if and only if no name holds the end marker; then the difference to any other list is exactly the new names, the names gone, and nothing modified. |
| `SkillRoundTrip.ReadsBack` | src/generation/templates.ts:32-114 | The printed file reads back as the tools it lists, in order, for the group table and for the flat list. |
| `SkillRoundTrip.ReadsBackIff` | src/generation/diff.ts:45-122 | For a printed group table the names read are the names written if and only if no name holds the end marker. |
| `SkillRoundTrip.NoNameHoldsEnd` | src/generation/diff.ts:54-61 | In any text with its markers in order, no tool name is read that has the end marker in it. |
| `SkillRoundTrip.RowReads` | src/generation/templates.ts:73-79 | A printed row of a group whose caption and file name have no bar or line feed adds just its tools. |
| `SkillRoundTrip.BarsEscaped` | src/generation/templates.ts:76 | In a printed row every bar of a name gets a backslash in front and nothing else changes. |
| `LegacyTable.LegacyReads` | src/generation/diff.ts:45-122 | A file whose markers enclose nothing, with a table `| Tool | Description |` among lines that list nothing, lists just its tools, in order and with their descriptions. |
| `LegacyTable.ToolRowReads` | src/generation/diff.ts:93-101 | Below that header `| n | d |` reads as the tool `n` described `d`. |
| `SkillRoundTrip.FlatLinesRead` | src/generation/diff.ts:113-119 | Of a flat list exactly the names without blanks are read. |
| `SkillFile.GenerateSkillMd` | src/generation/templates.ts:32-114 | Builds the file line by line. |
| `SkillFile.ParseExistingTools` | src/generation/diff.ts:45-122 | Reads the scoped text line by line, with the two kinds of table and the flat list. |
| `Grouping.DetectPrefixGroups` | src/generation/grouping.ts:83-142 | Every tool is in exactly one group. The list is cut alphabetically exactly when all names belong to one place; otherwise there is one group for each place, with just the tools that belong there, named after it: the noun a tool shares with another one, said of its last segment, or the general group. Tools keep their order in a group; the general one lists those of that noun first, if there are two. |
| `Grouping.SameNounIff` | src/generation/grouping.ts:66-71 | Two nouns fold into one if and only if they are equal, or one is the other and "s", is longer than three characters, and the other is no noun of more than three characters that ends in "s". |
| `Grouping.NounsMeet` | src/generation/grouping.ts:93-102 | Two tools whose last segments are such nouns are in one group whenever the list is not cut alphabetically. |
| `Grouping.LastSegmentIs` | src/generation/grouping.ts:53-60 | The noun of a name is what stands behind its last underscore, or all of it. |
| `Grouping.DecimalReads` | src/generation/grouping.ts:155-163 | The number of a part is written in digits, without a leading zero. |
| `Grouping.StripServicePrefix` | src/generation/grouping.ts:13-47 | Strips the longest prefix of whole segments that all names share, which never changes the noun of a name. |
| `Grouping.CommonCount` | src/generation/grouping.ts:24-40 | The number of leading segments is the largest that all names share while each keeps one. |
| `Grouping.AlphabeticalChunks` | src/generation/grouping.ts:147-167 | The sorted tools in order, in parts of at most eight, all but the last of one size. |
| `Grouping.ByNoun` | src/generation/grouping.ts:93-102 | One entry for each noun with all its tools in order, and no tool lost. |
| `SkillDiff.ComputeSkillDiff` | src/generation/diff.ts:131-184 | Added, removed and modified names, each exactly and once, sorted; an unknown old description never counts as modified. |
| `SkillDiff.GroupsReadBack` | src/generation/diff.ts:45-122 | Any groups made of plain names print so that they read back. |
| `ManualRounds.TextRotates` | src/generation/preserve.ts:94-175 | With the end marker above k placeholders, extracting after injecting n >= k sections gives the same sections rotated left by k: nothing is lost, duplicated or changed. |
| `ManualRounds.PlainKeepsOrder` | src/generation/preserve.ts:94-175 | When no line of the new file or of the sections begins an end marker, the sections keep their order. |
| `ManualRounds.TextKeepsOrder` | src/generation/preserve.ts:94-175 | The sections keep their order whenever the new file with its placeholders filled has no end marker. |
| `ManualRounds.RoundsRestore` | src/generation/preserve.ts:28-175 | With one placeholder, n rounds of injecting and extracting n sections restore their order. |
| `ManualRounds.ExtractedAreSections` | src/generation/preserve.ts:28-66 | Whatever is extracted from any file can be injected again: it starts at a line with a start marker and ends at the first line with an end marker. |
| `ManualRounds.InjectLines` | src/generation/preserve.ts:94-175 | Injecting into the text of a file with its markers on lines of their own is putting lines between its lines. |
| `ManualText.ReplaceLines` | src/generation/preserve.ts:117-134 | The global replacement by an expression that spans lines works line by line on such a text, and finds as many placeholders. |
| `ManualSections.InjectedRotates` | src/generation/preserve.ts:94-175 | The rotation, on lists of lines. |
| `ManualSections.ReplacedReads` | src/generation/preserve.ts:117-134 | Filling placeholders replaces just the sections read at their places. |
| `ManualText.ExtractManualSections` | src/generation/preserve.ts:28-66 | Finds every closed section, each ending at the first end marker below its start. |
| `ManualText.ReplaceManualPlaceholders` | src/generation/preserve.ts:117-145 | Replaces the matches in order and counts the sections used. |
| `ManualText.InjectManualSections` | src/generation/preserve.ts:94-145 | Replaces placeholders when the file has one as it is printed, and puts what is left before the end marker. |
| `SkillTemplate.RegenerationRestores` | src/generation/templates.ts:102-113 | The generated skill file has one placeholder below its block, so regenerating it as often as there are sections leaves them as they were. |
| `SkillTemplate.TemplateIsTidy` | src/generation/templates.ts:32-114 | In a generated file without comments in its texts, the three expressions match exactly the lines printed as markers. |
| `SkillMerge.RegenerationMergesOnce` | src/generation/file-manager.ts:146-176 | Merging a newly generated file into an older generated one twice is always merging it once. |
| `SkillMerge.GeneratedMergeIff` | src/generation/file-manager.ts:146-176 | For a generated file without comments and with stable triggers, the exact condition on the existing file under which merging twice is merging once: stable triggers, no leading key that starts with `---`, and no marker in the trigger list and the lines that only the existing file has. |
| `SkillMerge.FrontIsPrinted` | src/generation/templates.ts:35-52 | The front matter of a generated file is read as its fields and its trigger list. |
| `MergeTwice.MergeIsIdempotentIff` | src/generation/file-manager.ts:44-176 | For every existing text with its markers in order, a second merge changes nothing if and only if every existing trigger is one that its printed line is read as, the front matter does not begin with a key that starts with `---`, and the merged trigger list with the generated and kept lines below it holds no marker. |
| `MergeTwice.JoinsNoMarkIff` | src/generation/file-manager.ts:85-139 | A merged front matter has a marker exactly when its trigger list and the lines below it have one. |
| `MergeTwice.MergeIsLocal` | src/generation/file-manager.ts:85-176 | A merge keeps the text below the end marker, the text below the front matter, and every block whose key is not generated; the triggers become the ordered union without repetitions. The front matter is read as printed if and only if no key that starts with `---` comes first. |
| `MergeAppend.UnmarkedKeepsText` | src/generation/file-manager.ts:141-163 | Without both markers the whole existing text stays in front, and the generated block, or all of a generated text without markers, is put on new lines behind it. |
| `MergeAppend.AppendedOnce` | src/generation/file-manager.ts:141-176 | A second merge into a file that had no markers appends no second block; it changes nothing if and only if the generated front matter merges into the text above without a change. |
| `MergeAppend.ReversedGivesNothing` | src/generation/file-manager.ts:151-158 | Generated text whose end marker comes first gives no block. |
| `MergeTwice.MergedParts` | src/generation/file-manager.ts:146-176 | Merged text is the merged front matter, the generated block and the text behind it unchanged; its markers are those of the block, in order, if and only if the merged front matter has none. |
| `MergeTwice.MarkedNotAgain` | src/generation/file-manager.ts:146-176 | With a marker in the merged front matter a second merge always changes the text. |
| `MergeTwice.FrontHasNoMark` | src/generation/file-manager.ts:123-139 | Without a comment in the existing front matter, merging puts no marker above the block. |
| `MergeFronts.FrontTwiceIff` | src/generation/file-manager.ts:85-139 | The condition on the front matters alone: stable triggers and no leading key that starts with `---`. |
| `MergeLimits.DashKeyIsNotStable` | src/generation/file-manager.ts:37 | The key `---x` in an existing front matter: whatever is generated, a second merge changes the text. |
| `MergeLimits.JoinedMarkIsNotStable` | src/generation/file-manager.ts:112-116 | Dropping the block between `x: <!--` and `AUTO-GENERATED:START -->` joins them to a marker, and a second merge changes the text. |
| `Frontmatter.MergeTwiceIff` | src/generation/file-manager.ts:85-121 | The same on blocks, with the exact condition on the existing triggers. |
| `Frontmatter.BlocksReadBack` | src/generation/file-manager.ts:44-58 | Printed blocks are read as the same blocks. |
| `Frontmatter.PrintedItemIff` | src/generation/file-manager.ts:78-82 | A printed trigger is read back exactly when it is one line that is not empty and has no leading white space or is one character. |
| `TriggerLists.SpellingsAgree` | src/generation/file-manager.ts:60-83 | A dash list, a list in brackets and one of quoted values are read as the same triggers. |
| `TriggerLists.InlineListIs` | src/generation/file-manager.ts:63-69 | A list in brackets stands for what its parts spell, white space around them and a quote at either end aside, and empty parts left out. |
| `TriggerLists.InlineScalarIs` | src/generation/file-manager.ts:71-76 | The same for one value on the key line. |
| `Frontmatter.QuotedBlankIsUnstable` | src/generation/file-manager.ts:63-77 | A quoted trigger with a leading blank is a value that its printed line is not read as. |
| `Frontmatter.MergeFrontmatter` | src/generation/file-manager.ts:85-121 | Prints the generated blocks, then those only the existing file has. |
| `Frontmatter.SplitFrontmatterBlocks` | src/generation/file-manager.ts:44-58 | Splits lines into blocks, dropping what stands before the first key. |
| `MergeContent.FindMarkIsFirst` | src/generation/file-manager.ts:35-36 | The marker found is the first, with any white space around its name. |
| `MergeContent.MarkLengthLocal` | src/generation/file-manager.ts:35-36 | A marker that starts before a `<` ends before it, so joined texts have no markers their parts lack. |
| `CanonicalJson.CanonicalTextIffSame` | src/cache/hash.ts:10-21 | Canonical texts are equal exactly for values equal up to member order at every depth, members named `__proto__` aside. |
| `CanonicalJson.CleanTextIffSame` | src/cache/hash.ts:10-21 | Without `__proto__` members, equal texts mean equal values up to member order. |
| `CanonicalJson.ProtoMemberLeavesNoTrace` | src/cache/hash.ts:13-17 | Two different values with one text: a `__proto__` member is dropped. |
| `CanonicalJson.EmitUnambiguous` | src/cache/hash.ts:10-21 | No text of a value continues another, so a text has one reading. |
| `CanonicalJson.Replace` | src/cache/hash.ts:12-18 | The loop of assignments leaves the members in one order whatever order they came in, index names first. |
| `Ordering.IndexNameIff` | src/cache/hash.ts:12-18 | The keys that an object lists first are those that write a number below 2^32 - 1 without leading zeros. |
| `CanonicalJson.CanonicalJson` | src/cache/hash.ts:10-21 | Serialising top down through the replacer gives the canonical text. |
| `CanonicalJson.HashIffSameSurface` | src/cache/hash.ts:60-94 | Two tools hash alike exactly when name, description (the ways to say none taken as one), schema and annotations are the same. |
| `SchemaDrift.FingerprintIffNoDrift` | src/cache/hash.ts:42-50 | For lists with distinct names the sorted, joined fingerprint texts are equal exactly when drift detection reports nothing. |
| `SchemaDrift.FingerprintIffSameSurfaces` | src/cache/hash.ts:42-94 | End to end: two lists have one fingerprint text exactly when each tool is declared alike in the other list. |
| `SchemaDrift.DetectDrift` | src/cache/drift.ts:21-72 | Reports each name once, sorted: added if only the live list has it, removed if only the cached one has it, changed if the last entries of that name differ, and no other. |
| `SchemaDrift.KindIff` | src/cache/drift.ts:33-60 | What the three kinds mean, by the entries of both lists. |
| `SchemaDrift.JoinInjective` | src/cache/hash.ts:42-50 | Joined hashes come from one list of hashes only. |
| `Csv.FormatCsv` | src/format/csv.ts:44-119 | A reader of section 2 of RFC 4180 gets the records of the data: below a header of each key once, in order of first appearance, each row has in the column of each of its members the text of that member, and in the others what it inherits or nothing; each primitive has its text below VALUE; it fails exactly when a list of objects has a missing item. |
| `Csv.TableIs` | src/format/csv.ts:67-119 | The printed records are those of the data. |
| `Csv.QuotedIff` | src/format/csv.ts:10-22 | A field is quoted only for a comma, a quote or a line break in it. |
| `Csv.TableReads` | src/format/csv.ts:17-22 | Any table of records with fields reads back cell by cell, with commas, quotes and line breaks in the cells. |
| `Csv.FieldReads` | src/format/csv.ts:10-22 | A printed field reads back whatever characters are in it. |
| `Csv.LastBreakReads` | src/format/csv.ts:97-119 | If a line feed may also end the last record, a table reads back exactly when it does not end in a record of one empty cell. |
| `Csv.ColumnIff` | src/format/csv.ts:97-105 | There is a column for exactly the keys some row has. |
| `Csv.AbsentCellIff` | src/format/csv.ts:112-116 | An absent key of a plain object is an empty cell exactly when plain objects inherit no member of that name. |
| `Csv.InheritedCell` | src/format/csv.ts:112-116 | The rows `[{constructor: 1}, {a: 2}]`: the second has no `constructor`, and its cell is not empty. |
| `Csv.FormatArrayCsv` | src/format/csv.ts:97-119 | Collects the columns in order of first appearance and prints one record for each row. |
| `Csv.ColumnsAre` | src/format/csv.ts:97-105 | The columns are the keys of the rows, each once, in the order in which they first appear. |
| `Glob.CompiledIsGlob` | src/access/filter.ts:17-30 | The emitted expression accepts exactly the names the glob accepts, a wildcard never taking a line terminator; for names without one it is the plain glob. |
| `Glob.TextReads` | src/access/filter.ts:26-27 | The emitted text is a well-formed expression and is read as the parts of the pattern. |
| `Glob.TerminatorIsNotMatched` | src/access/filter.ts:26-28 | A name with a line feed that `*` stands for but the expression refuses. |
| `Glob.AllowedIff` | src/access/filter.ts:48-73 | With patterns of legal length a tool is allowed exactly when some allow pattern accepts it, or there is none, and no block pattern does; not listed exactly when the allow list has patterns and none accepts it; and otherwise blocked. |
| `Glob.TooLongIff` | src/access/filter.ts:17-37 | The test fails exactly when a pattern of more than 200 characters comes before any that decides. |
| `Glob.RegexCache.GlobToRegex` | src/access/filter.ts:17-30 | The table of compiled patterns always agrees with compiling afresh, and never holds a pattern that is too long. |
| `Glob.RegexCache.MatchesAny` | src/access/filter.ts:35-37 | The first pattern that matches or is too long decides. |
| `Glob.RegexCache.FilterTools` | src/access/filter.ts:80-94 | Exactly the allowed tools, in order; the fast path agrees. |
| `FieldMask.ApplyFieldMask` | src/invocation/fields.ts:76-112 | On any data. When every field found in an object fits it, the input does not change, each masked object reads these fields exactly as the input does and holds nothing else, and missing are the fields found nowhere, once each for an array. |
| `FieldMask.ApplyToObject` | src/invocation/fields.ts:118-135 | One object: the turns of the loop one by one, for any fields, or the turn that stops; and the same promise when the fields found fit. |
| `FieldMask.FilledMasks` | src/invocation/fields.ts:118-135 | Whatever turns the loop takes on an object whose found fields fit, with overlaps in any order, they leave a mask of exactly these fields. |
| `FieldMask.NothingElse` | src/invocation/fields.ts:118-135 | Every chain of keys that reads something from a mask leads to, or lies below, a field that was asked for and found. |
| `FieldCopies.MaskIsSubtree` | src/invocation/fields.ts:118-135 | Whatever any path reads from a mask is what it reads from the input, a partial copy of it, or nothing; a path with an inherited name may also read what all objects inherit. |
| `FieldCopies.OneFieldIff` | src/invocation/fields.ts:41-68 | For one found field, on any input: the code writes it into an empty mask and the mask is a partial copy if and only if no step before the last takes an array index that is not its own key or a name that objects inherit, the last is not `__proto__` on an object, and below the root the field goes on in an array exactly when its next segment is made of digits. |
| `FieldCopies.WalkKept` | src/invocation/fields.ts:41-68 | Writing a found field that fits into any mask keeps it a partial copy, changes it only along that field, leaves the input as it was, and the field then reads the value. |
| `FieldCopies.ExactStays` | src/invocation/fields.ts:41-68 | A path that reads the input value from the mask goes on doing so while other fields are written. |
| `FieldPaths.SetByPath` | src/invocation/fields.ts:41-68 | On any input: every step of the walk and the last assignment, or the step at which it goes on in something inherited or in a scalar. |
| `FieldPaths.GetByPath` | src/invocation/fields.ts:17-35 | Walks a path step by step through own and inherited members; a miss is undefined. |
| `FieldPaths.WrittenIsRead` | src/invocation/fields.ts:17-68 | What a walk writes is what the path reads afterwards, when its steps on arrays take the index that the segment writes and it meets no node twice. |
| `FieldMask.DropFound` | src/invocation/fields.ts:99-104 | Deletes from the insertion-ordered set just the fields an item has. |
| `FieldLimits.DigitKeyLosesField` | src/invocation/fields.ts:41-68 | `users.123` and `users.name` of `{"users": {"123": 1, "name": "x"}}`: neither is missing, and the mask does not have the second. |
| `FieldLimits.DigitKeyDoesNotFit` | src/invocation/fields.ts:49-56 | Of these two fields the first does not fit and the second does. |
| `FieldLimits.InheritedNamesStop` | src/invocation/fields.ts:54-68 | `constructor.name` of `{"constructor": {"name": "x"}}` and `__proto__.foo` of `{"__proto__": {"foo": 1}}` are found, and writing them goes on outside the mask. |
| `FieldLimits.InheritedValueChangesInput` | src/invocation/fields.ts:118-135 | `a` and `a.toString` of `{"a": {}}`: the second makes the inherited function a member of the input. |
| `FieldLimits.FunctionIsNoObject` | src/invocation/fields.ts:17-35 | `toString.name` is missing, because an inherited function is not read on from. |
| `FieldLimits.NullIsReplaced` | src/invocation/fields.ts:54-58 | Writing below a `null` puts an object in its place. |
| `FieldLimits.PrototypeEnds` | src/invocation/fields.ts:17-35 | `__proto__.__proto__` of any object is found and is `null`; nothing lies behind it. |
| `LineFramer.ChunkIndependence` | src/connection/transport.ts:164-209 | The lines handed on and the carry are those of the whole input however it is cut, exactly when each chunk, with the text since the last line feed before it, fits the limit. |
| `LineFramer.CarryBounded` | src/connection/transport.ts:164-209 | In every run the carry has no line feed and is no longer than the limit or the last chunk. |
| `LineFramer.DiscardCutsALine` | src/connection/transport.ts:180-194 | Past the limit a later line may be handed on without its beginning. |
| `LineFramer.ReadStdout` | src/connection/transport.ts:164-209 | The nested loops, with the overflow branch, make the steps of the model. |
| `StartLock.MutualExclusion` | src/process/client.ts:251-308 | While hold time and the time from stat to check stay within 30 s together and nobody crashes, at most one process holds the lock, the lock there is its own, and the stale branch is never taken. |
| `StartLock.ExclusionIff` | src/process/client.ts:276-308 | Mutual exclusion holds in every timely run if and only if hold time plus delay is at most the threshold. |
| `StartLock.AtMostTwoTries` | src/process/client.ts:276-308 | In every run a process tries to create the file at most twice before it is idle again, the second time only after removing it. |
| `StartLock.CrashBreaksExclusion` | src/process/client.ts:287-293 | After a crash two processes that both find the lock stale can both end up holding it. |
| `StartLock.DaemonPaths.EnsureDaemon` | src/process/client.ts:276-308 | Makes the steps of the protocol; left alone it starts the daemon unless it runs or a young lock is there, and leaves no lock of its own. |

## Left out

- Real I/O: file reads and renames, sockets, process spawning, fetch, the MCP SDK, timers.
- The TypeScript parser; parentheses and type assertions are taken as removed. Shadow spans need full scoping: here a name that is a shadow anywhere is one in the whole file, so the code reports at least what this report does. The `rebound` set only turns records into dynamic ones and is left out, as are escapes through declaration names and values that other modules export.
- AliasSoundness.EveryCallIsRecorded: for files in the fragment `PlainFile` (no computed read, collection, argument or loose expression that holds a followed value, wrappers of one level) in which no escape is dropped as a shadow; `AliasLimits` has files outside it that the code misses.
- AliasReach.NamesAreHeld: for files in which no two imports, no pattern and no literal give one name two values, of which the last would hide the others.
- ImportFollowing.FollowIs: letters are folded in ASCII, where `toLowerCase` also folds others.
- Path normalisation and the file system behind import resolution are a function from specifiers to outcomes; package `exports` maps are not read by the code either.
- Preconnect and the status route, which connect under the base key without the default credential, and unauthenticated routes; caller templates in configurations and credentials.
- Connects in flight during a credential or configuration change: requests and changes are single steps in `Coherence`.
- The encoding of pool keys into text: scoped and bare keys are taken as distinct, so service names do not look like scoped keys.
- Schema-cache clearing in the credential manager, and validation of configurations and credentials, which is a given outcome.
- A claim that every connection opened is pooled or closed when two callers check one key's health at once: the later one can drop a fresh entry.
- Describing a change in words, in drift results and skill differences; log lines; the `name`, `description` and reference files of a group beyond what the front skill lists.
- JSON escaping and number printing: strings and numbers are single tokens of the canonical text.
- `undefined`, functions and `toJSON` in JSON values: schemas come from parsed JSON.
- FieldPaths.SetByPath: what happens after the walk has left the mask, where the code throws or changes what all objects share, and an array's `length`. The engine's `Number` and the names that objects and arrays inherit are parameters, and objects have the one prototype of plain objects.
- FieldMask.FilledMasks: for several fields the condition on each found field is sufficient, and its value must not be an inherited one; `OneFieldIff` is exact for one field.
- Characters outside the Unicode scalar values, that is, unpaired surrogates; a length counts characters, where the code counts UTF-16 code units.
- Glob.RegexCache.MatchesAny: the expression engine is a parameter that agrees with the grammar of escapes, literals, `.` and `*`.
- ManualRounds.TextRotates: for new files whose markers are lines of their own, one placeholder as it is printed, and the end marker above them, as the template has it; sections may hold any text. The recorded heading and index, which injection ignores, are left out.
- SkillTemplate.RegenerationRestores: for names and descriptions without the start of a comment.
- MergeTwice.MergeIsIdempotentIff: for texts with both markers in order and a generated front matter in printed form with one trigger list, which `SkillMerge` shows of generated files; texts without markers, to which the block is appended, are in `MergeAppend`.
- SkillDiff.GenerateThenDiff: a tool is its name; header texts hold no markers and the service name is one line.
- Csv.AbsentCellIff: for rows that are plain objects; what other items inherit is a parameter.
- LineFramer.ReadStdout: the decoder and what the parser does with a line are left out.
- StartLock.DaemonPaths.EnsureDaemon: runs without other processes between its steps; interleavings are the runs of the step relation. Waiting for another process's daemon counts as done.
- The composition of injecting manual sections and merging, which can duplicate content; the two laws are separate.
- The YAML and table formatters, the UI page, help text, command-line plumbing, import URL policy, role tables, token files, secret lookup and log redaction.
