# Verification of the cf-vpn control paths

A Dafny model of the parts of cf-vpn whose correctness is decided by code: how the node
agent and CLI publish files and undo half-done work, how two user stores and their
concurrent editors stay consistent, how the panel Worker and the node build the same
subscriptions, and the alerting, rate-limiting and DERP-editing state machines. The
outside world (the network, DNS, systemd, other processes, clocks and random values)
appears as parameters that may answer anything, and every theorem holds for all answers.

`dafny verify dfyconfig.toml` checks the whole project.

## What is modelled

| file | part of the system |
|---|---|
| `Text.dfy`, `Storage.dfy` | string operations and the result of an atomic write, shared by the rest |
| `AtomicFile.dfy` | the crash-atomic file write: any number of writers, any failing call, kernel flushes and power cuts at any point |
| `Rotate.dfy` | host rotation in both modes: DNS, two config files, the env file and the HY2 certificate pair |
| `Upgrade.dfy` | the upgrade with its backup, the pruning of old backups and the rollback |
| `Hysteria.dfy`, `HysteriaRoundTrip.dfy` | the line-based editor of the hysteria YAML and its round trips |
| `HysteriaReader.dfy` | what a YAML reader finds in the rendered config |
| `UserStores.dfy`, `Node.dfy` | the xray and hysteria user stores and the five operations that edit them, write by write |
| `Credentials.dfy` | whose uuid and password those operations leave where, and what they refuse |
| `ConfigLock.dfy` | taking the config lock, and every interleaving of the programs that hold it |
| `LockFile.dfy` | the lock as a file that an upgrade's rollback removes and copies back |
| `XrayConfig.dfy` | the JSON editor of the xray config: four levels of preserved members, stable key order, add and remove |
| `Rerender.dfy`, `Reconcile.dfy` | the in-place re-render, its user round trip and the systemd unit reconcile |
| `Uri.dfy` | percent-encoding over UTF-8 on both sides, and decoding |
| `Routes.dfy`, `Configs.dfy` | the routes a row serves, the URI list, and the Shadowrocket, Clash and sing-box configs over the same names |
| `GoMirror.dfy` | the node's own URI list against the Worker's |
| `UriReader.dfy` | what a URI reader gets from the lines of both |
| `ModuleRules.dfy` | the blocked-site list and its sing-box translation |
| `HealthSweep.dfy` | the Worker's health sweep, alone and overlapping |
| `FleetProbe.dfy` | the fleet prober's alert state over histories of runs |
| `RateLimit.dfy` | the Worker's request limiter |
| `Derp.dfy` | DERP policy edits by conditional write |

Code that changes things step by step is a class or a method with loops, proved against a
specification function; the theorems are lemmas about those functions. A plan in
`UserStores` is the list of file writes an operation makes, so a lemma about every prefix
of a plan is a statement about every intermediate state and every crash.

## What the code does not promise

Where a promise fails for some inputs, the exact condition is proved, with an input that
shows the failure where that helps:

- A rotation that gives up leaves a cloudflared config that was written but not durable
  (`UndurableRun`), and a certificate pair of which only one file existed
  (`LoneCertRun`); `Restores` is the exact condition.
- A rotation without a new HY2 host deletes the old HY2 record it is handed
  (`Hy2Orphaned`); a new HY2 host without a zone is persisted without a record
  (`Hy2Unzoned`). `LosingRun` runs both; `RotatedServes` is the exact condition.
- The upgrade rollback deletes the HY2 address record even if it existed before, and the
  backup it restores from may hold leftovers of the same second or be pruned by the run
  itself (`UpgradeFails`, `Hy2RecordLost`). The aliases it made stay, the admin one
  in both modes (`AdminAliasLeft`).
- Between its two writes `applyUsers` has a user in xray that hysteria does not know
  (`ApplyGap`).
- A user with an empty name is written to the hysteria config and not read back
  (`RewriteRoundTrip`).
- Emails that differ in blanks before the suffix make a second re-render change the file
  (`BlankNamesUnsettled`).
- Overlapping sweeps can flip a node after one failure and report a recovery twice
  (`OvertakenFlipsEarly`, `OverlapRecoversTwice`); `FlipNeedsTwo` and `RunPairs` say
  exactly when they do not. A manual check can close an error without a recovery event
  (`ManualCheckPairs`).
- A route that leaves the subscription while it is down is reported down twice
  (`UnlistedRepeatsDown`); `RouteAlternation` is the exact condition.
- The limiter never evicts an entry with an empty key (`SizeAfter`).
- The node leaves out HY2 lines the Worker emits for a disabled HY2, a negative port or an
  empty password (`NodeMatchesWorker`).
- A read without an ETag makes a DERP edit unconditional (`UntaggedLosesEdit`), and one
  whose answer is lost fails although it was written (`Tailnet.EditPolicy`).
- The rollback of an upgrade removes the lock file it holds the lock of, so two processes
  can hold the lock (`TwoHolders`); `RollbackGuards` says exactly when they cannot.
- A '#' in a host or uuid changes the name a client reads off a URI (`LineName`), and any
  delimiter there what it connects to; `RowReads` says exactly when it does not.
- A sync of an empty list goes through unconfirmed when the hysteria users cannot be
  listed (`EmptySync`).

## Model

| member | source | states |
|---|---|---|
| `AtomicFile.Disk.WriteFile` | internal/fsutil/atomic.go:68-110 | The call is a legal sequence of system calls of one writer, and its result tells how they went: nil all seven well, DurabilityError only the last not, any other error an earlier one not, with or without its temp file left; nil and DurabilityError leave the target owned by this writer's complete, fsynced content, any other error leaves its owner as it was |
| `AtomicFile.Disk.Settle` | internal/fsutil/atomic.go:78-82 | After the rename the directory is flushed, before it the temp file is removed; neither changes any file content |
| `AtomicFile.Disk.Fill` | internal/fsutil/atomic.go:83-101 | True means the rename happened on fsynced content, false leaves the target's owner alone and the temp file for the deferred removal |
| `AtomicFile.RunInv` | internal/fsutil/atomic.go:68-126 | Every state of every interleaving of writers, failures and kernel flushes keeps: who owns the target at each directory operation, whose data is fsynced, and which temp names remain |
| `AtomicFile.NeverTorn` | internal/fsutil/atomic.go:60-67 | At every point, what a reader sees and what any power cut can leave is the initial content or one writer's complete content |
| `AtomicFile.NilSurvives` | internal/fsutil/atomic.go:103-110 | After a nil return, any later power cut leaves this writer's content or that of a writer whose rename came after |
| `AtomicFile.ResultMeaning` | internal/fsutil/atomic.go:28-58 | Nil and DurabilityError hold exactly when this writer's rename happened; otherwise the target was never this writer's and the temp name is gone unless its removal failed |
| `AtomicFile.CallsRun` | internal/fsutil/atomic.go:68-110 | The calls of one WriteFile extend any run, so the promises about runs hold during and after it whatever other writers did |
| `Rotate.DnsRestored` | internal/commands/rotate.go:645-659 | Creating the records in order and deleting them newest first gives back the DNS exactly when each deleted record was new and each one that stayed was already there |
| `Rotate.Rotation.IssueHy2Cert` | internal/commands/rotate.go:617-641 | Goes through exactly when no cert is asked for or one was issued; a failed issue leaves everything as it was exactly when the pair existed and its restore worked, or the issue had left it alone |
| `Rotate.Rotation.Fail` | internal/commands/rotate.go:649-659 | The cert pair is put back when both old files existed, all created records are deleted, nothing else moves; an outage of any step still shows at the end |
| `Rotate.Rotation.PublishXray` | internal/commands/rotate.go:282-300 | Live exactly when validation, write and restart worked; otherwise the previous file is back as far as the restore or removal worked |
| `Rotate.Rotation.PublishCloudflared` | internal/commands/rotate.go:532-547 | A failed write undoes xray only; a failed restart undoes both files |
| `Rotate.Rotation.RotateHy2Config` | internal/commands/rotate.go:338-388 | Goes through exactly when users, port and obfs password are there and render, write and reload work; only the hysteria file changes, a failed reload puts it back, a write that is live but not durable is left |
| `Rotate.Rotation.CreateRecords` | internal/commands/rotate.go:270-280 | Exactly the records the inputs and answers decide are created, each with its undo registered; a new HY2 host without a zone gets none |
| `Rotate.Rotation.DeleteOldRecord` | internal/commands/rotate.go:661-670 | Deletes exactly the named record, and nothing when host or zone is blank |
| `Rotate.Rotation.Commit` | internal/commands/rotate.go:302-325 | Finishes exactly when the hysteria rewrite, a durable save of the env and the subscriptions worked; only then old records go, and the env and DNS it leaves are given for every other case too |
| `Rotate.Rotation.Reach` | internal/commands/rotate.go:243-300 | How far a run gets before the commit point, which records it made and which files it touched, is decided by the inputs and answers; a run that gives up has changed nothing exactly when Restores holds of them and the state before |
| `Rotate.Rotation.RunRotateDirect` | internal/commands/rotate.go:198-334 | For every oracle, over env, inputs and answers: exactly which runs are refused; a run that gives up equals no run exactly when Restores holds, and always with fresh names and working undo steps; one that goes through leaves both A records, unless retired, at the new address, each old record gone or as it was, and every env key as given; DOMAIN and HY2_HOST had a record at every step exactly when they had one before and have one after |
| `Rotate.Rotation.RunRotateCloudflare` | internal/commands/rotate.go:425-579 | The same for the cloudflare rotation: the new host is a CNAME to the trimmed ADMIN_TUNNEL_UUID, or TUNNEL_UUID when that is blank, under cfargotunnel.com, the HY2 host an A record to the trimmed PUBLIC_IP; a cloudflared write that is live but not durable is the one file a run that gives up leaves changed |
| `Rotate.DnsIs` | internal/commands/rotate.go:270-325 | What DNS holds for every name after a run that went through: the made records with their values, minus the retired ones, and the rest as it was |
| `Rotate.DirectLeft` | internal/commands/rotate.go:243-325 | What a direct run that went through leaves in DNS and env, in terms of the env, the inputs and the answers only |
| `Rotate.CloudflareLeft` | internal/commands/rotate.go:495-569 | The same for the cloudflare run |
| `Rotate.EndingMeans` | internal/commands/rotate.go:198-334 | Which answers decide how a run ends: refused at the certificate, rolled back, half done or finished |
| `Rotate.Rotation.FilesNew` | internal/commands/rotate.go:282-325 | A run that goes through leaves the rendered xray and, on a cloudflare node, cloudflared configs, the issued certificate pair when there is a new HY2 host, and once finished its hysteria config; without one certificate and hysteria stay |
| `Rotate.Rotation.FilesLeft` | internal/commands/rotate.go:584-659 | Which of xray, cloudflared and the certificate pair a run that gave up can leave changed, and through which failed undo step |
| `Rotate.CleanRestores` | internal/commands/rotate.go:584-659 | All-or-nothing: with new names fresh in DNS, both old cert files, working undo and restores and no cloudflared write left undurable, a run that gives up leaves everything as it was |
| `Rotate.RotatedServes` | internal/commands/rotate.go:302-325 | After a finished rotation a host has a record exactly when one that was there or was made is not among the deleted ones |
| `Rotate.DomainStaysServed` | internal/commands/rotate.go:270-325 | With the hosts kept apart DOMAIN has a record at the end of every run, finished, partial or given up |
| `Rotate.Hy2StaysServed` | internal/commands/rotate.go:270-325 | The same for HY2_HOST, whose new host needs its zone |
| `Rotate.Hy2Orphaned` | internal/commands/rotate.go:324-325 | Without a new HY2 host, handing in the only record of the persisted one for deletion leaves HY2_HOST with none |
| `Rotate.Hy2Unzoned` | internal/commands/rotate.go:275-313 | A new HY2 host without a zone is persisted with no record made for it |
| `Rotate.LosingRun` | internal/commands/rotate.go:198-334 | Two given direct rotations in which nothing fails both finish, and HY2_HOST, which had a record before, ends without one |
| `Rotate.LoneCertRun` | internal/commands/rotate.go:602-641 | A direct rotation with a new HY2 host that gives up on a node with at most one of the two cert files, all else being undone, leaves the new pair and nothing else |
| `Rotate.LoneCertAt` | internal/commands/rotate.go:602-641 | Such a run: the key file is missing and xray does not restart |
| `Rotate.UndurableRun` | internal/commands/rotate.go:532-536 | A cloudflare rotation whose cloudflared write is live but not durable, all else being undone, leaves the new cloudflared config and nothing else |
| `Rotate.UndurableAt` | internal/commands/rotate.go:532-536 | Such a run on given inputs |
| `Upgrade.StampOfName` | internal/commands/install.go:429 | The name given to a backup parses back to its time |
| `Upgrade.StampExactly` | internal/commands/install.go:892-922 | A directory is a backup exactly when its name is the prefix and digits whose number fits 64 bits, which is its time |
| `Upgrade.SortedBackups` | internal/commands/install.go:897-925 | Lists exactly the backup directories among the names, newest first by number |
| `Upgrade.FirstAreNewest` | internal/commands/install.go:924-931 | Keeping a prefix of the sorted list keeps the numerically newest |
| `Upgrade.Survives` | internal/commands/install.go:892-935 | The backup in use is kept when fewer than keep others are at least as new |
| `Upgrade.Pruned` | internal/commands/install.go:892-935 | It is not kept when keep others are newer |
| `Upgrade.Node.PruneConfigBackups` | internal/commands/install.go:897-935 | Exactly the outdated backups that can be removed are removed; other directories are untouched |
| `Upgrade.Node.Rollback` | internal/commands/install.go:854-883 | Deletes every created address record whose deletion works, whatever happens to the others, replaces the config directory by the backup's copy, or leaves it empty if the backup is gone |
| `Upgrade.Node.WriteConfigs` | internal/commands/install.go:437-519 | Succeeds exactly when every step does, a non-durable xray write included, and then both files are the new ones |
| `Upgrade.Node.PublishRecords` | internal/commands/install.go:521-538 | Which records are made before a failure and with which values, and that nothing else in DNS moves |
| `Upgrade.Node.RunUpgradeCore` | internal/commands/install.go:408-611 | Succeeds exactly when every step does, each of them named by its answer; success changes exactly three config files, each to its rendered text; a failure after the backup whose rollback works ends with the backup's copy; every address and alias it leaves is given by inputs and answers: the new host of a direct node and the HY2 host at the node's address, the host of a cloudflare node and the admin host at the tunnel, and what a failed run leaves of them |
| `Upgrade.AddressesAre` | internal/commands/install.go:521-538 | Host by host: an address record is the node's exactly when its step was reached and went well and, after a failure, its removal did not |
| `Upgrade.AliasesAre` | internal/commands/install.go:521-560 | Host by host: an alias is the tunnel's exactly when its step was reached and went well, whatever failed later |
| `Upgrade.CopyIsSnapshot` | internal/commands/install.go:951-980 | The backup equals the config directory exactly when the backup directory held no other files before |
| `Upgrade.RollbackCopy` | internal/commands/install.go:426-436 | After the prune the copy survives with fewer than three others as new, and is gone with three newer ones |
| `Upgrade.UpgradeFails` | internal/commands/install.go:408-883 | A failing run whose backup outlives its own prune restores the config directory exactly when there were no leftovers in the backup directory; the address records come back exactly when none of those the inputs and answers decide was there before (or, where the deletion fails, was there with the same address); the aliases exactly when every one it made was there before |
| `Upgrade.Hy2RecordLost` | internal/commands/install.go:530-545 | A run whose restart fails deletes the HY2 record although it was there before |
| `Upgrade.AdminAliasLeft` | internal/commands/install.go:573-596 | A run, direct or not, in which only the units fail leaves the admin alias it made |
| `Hysteria.YamlQuote` | internal/hysteria/hysteria.go:239-261 | The loop writes the escaped text between quotes |
| `Hysteria.YamlUnquote` | internal/hysteria/hysteria.go:263-293 | The loop accepts exactly the quoted scalars with known escapes and returns what they denote |
| `Hysteria.QuoteRoundTrip` | internal/hysteria/hysteria.go:239-293 | Unquoting a quoted string gives the string back, for every string |
| `Hysteria.QuotedOneLine` | internal/hysteria/hysteria.go:239-261 | A quoted scalar contains no line break |
| `Hysteria.CutUserpassEntry` | internal/hysteria/hysteria.go:191-213 | Splits at the first colon outside quotes, with escapes, or not at all |
| `Hysteria.ColonAfterQuoted` | internal/hysteria/hysteria.go:191-213 | Colons and quotes inside a quoted name do not end it |
| `Hysteria.SortByNameCorrect` | internal/hysteria/hysteria.go:29-47 | Sorting by name is an ordered permutation |
| `HysteriaRoundTrip.SortUnique` | internal/hysteria/hysteria.go:29-47 | With distinct names every ordered permutation is the same list, so an unstable sort gives the same file |
| `Hysteria.UserpassRange` | internal/hysteria/hysteria.go:163-189 | Finds the block: the line after userpass under auth, up to the first line indented by two or less |
| `Hysteria.ParseUserpassLine` | internal/hysteria/hysteria.go:103-139 | An entry is four blanks, a cut at the colon, both sides unquoted; an empty name is dropped |
| `Hysteria.ParseUsers` | internal/hysteria/hysteria.go:103-139 | The sorted entries of the block, none without a block |
| `Hysteria.ReplaceUserpass` | internal/hysteria/hysteria.go:141-161 | Lines before and after the block with the sorted entries between, or the body unchanged when there is no block |
| `Hysteria.Render` | internal/hysteria/hysteria.go:29-47 | Refuses exactly the configs missing a field; the text it writes reads back as the config (ConfigReads) |
| `HysteriaRoundTrip.EntryRoundTrip` | internal/hysteria/hysteria.go:103-139 | A written entry parses back to its user, whatever the name and password hold, unless the name is empty |
| `HysteriaRoundTrip.RewrittenBlock` | internal/hysteria/hysteria.go:141-189 | The rewritten file has its block where it was, exactly as long as the new list |
| `HysteriaRoundTrip.WriteLinesRead` | internal/hysteria/hysteria.go:215-237 | Lines joined and read again come back, minus one trailing empty line |
| `HysteriaRoundTrip.RewriteRoundTrip` | internal/hysteria/hysteria.go:87-189 | For every body without CR and every user list: lines outside the block are kept, and parsing gives exactly the sorted users if and only if no name is empty |
| `HysteriaRoundTrip.RewriteTwice` | internal/hysteria/hysteria.go:141-161 | A second rewrite replaces exactly what the first wrote |
| `HysteriaRoundTrip.RenderRoundTrip` | internal/hysteria/hysteria.go:29-139 | Parsing a rendered config gives the sorted users, all of them if and only if no name is empty |
| `HysteriaReader.ConfigReads` | internal/hysteria/hysteria.go:29-47 | A YAML mapping reader, given the rendered text, finds listen, tls.cert, tls.key, obfs.salamander.password, bandwidth.up and bandwidth.down of the config under their own keys, the two fixed types, and the users as pairs of quoted name and password in sorted order |
| `HysteriaReader.PairsRead` | internal/hysteria/hysteria.go:151-154 | Every entry line written holds the name first and the password second, both quoted by the YAML escapes |
| `HysteriaReader.QuotedDenotes` | internal/hysteria/hysteria.go:239-261 | A quoted text denotes the text under the double-quoted escapes of YAML |
| `UserStores.CliKeepsContained` | internal/commands/users.go:122-161 | Every intermediate and failing state of a CLI add or remove keeps names(xray) within names(hysteria) |
| `UserStores.AddSucceeds` | internal/commands/users.go:92-170 | A successful add appends the client to xray and puts the name into hysteria |
| `UserStores.RemoveSucceeds` | internal/commands/users.go:207-269 | A successful removal takes the name out of both stores and keeps everybody else |
| `UserStores.RemoveUndoesAdd` | internal/commands/users.go:92-269 | Remove after add restores the xray users, and the hysteria names exactly when the name had no entry before |
| `UserStores.AfterPublish` | internal/commands/validate_config.go:147-170 | Publishing leaves the new clients, or the previous ones when the restart failed and the restore worked |
| `UserStores.ApplyRestoresEquality` | cmd/cfvpn-agent/main.go:658-720 | A successful applyUsers leaves both stores with exactly the requested users, from any drifted state |
| `UserStores.ApplyGap` | cmd/cfvpn-agent/main.go:690-710 | Between its two writes applyUsers keeps containment exactly when every requested user already had a hysteria entry |
| `UserStores.AgentAddSucceeds` | cmd/cfvpn-agent/main.go:502-558 | A successful agent add leaves the same names in both stores: the current ones and the new one |
| `UserStores.AgentDeleteSucceeds` | cmd/cfvpn-agent/main.go:560-599 | A successful agent delete leaves the same names in both stores: the current ones without it |
| `UserStores.PlanWritesOnly` | cmd/cfvpn-agent/main.go:454-720 | Every operation only ever writes the previous xray users or the ones it proposes |
| `UserStores.PlanBounded` | internal/commands/users.go:110-112 | No operation, complete or cut short, takes the xray user count past MaxUsers, and on a node already past it none makes it worse |
| `UserStores.Records` | cmd/cfvpn-agent/main.go:601-648 | One record per distinct name, all names distinct, covering exactly the names of the clients |
| `UserStores.CurrentUsers` | cmd/cfvpn-agent/main.go:601-648 | The same names in whatever order the map yields them |
| `Node.CurrentSyncUsers` | cmd/cfvpn-agent/main.go:601-648 | Fails exactly when a config cannot be loaded, a lookup finds no uuid or a missing password cannot be generated; otherwise the records of the current users, each with the uuid of xray and the password of hysteria (CurrentTrue) |
| `Node.WithoutUser` | internal/commands/users.go:246-252 | The filter loop drops exactly the named user, in order |
| `Node.WithoutRecord` | cmd/cfvpn-agent/main.go:579-587 | The filter loop drops the named record and reports whether there was one |
| `Node.Node.WriteXrayConfigChecked` | internal/commands/validate_config.go:128-140 | A rejected config is not written; a write that is live but not durable counts as written |
| `Node.Node.ApplyXrayConfig` | internal/commands/validate_config.go:154-170 | Makes exactly the writes of a publish and reports whether the new config is running |
| `Node.Node.SetUsers` | internal/hysteria/hysteria.go:87-97 | Writes the users in name order, and reports success only for a durable write |
| `Node.Node.AddHysteriaUser` | internal/commands/users.go:176-203 | Keeps an existing entry, adds a missing one, accepts a node without hysteria, and never touches xray |
| `Node.Node.RunAddUser` | internal/commands/users.go:92-170 | Makes exactly the planned writes in order and reports success exactly when every step succeeded |
| `Node.Node.RunRemoveUser` | internal/commands/users.go:207-269 | Makes exactly the planned writes in order and reports success exactly when every step succeeded |
| `Node.Node.ApplyUsers` | cmd/cfvpn-agent/main.go:658-720 | xray first, then hysteria; nothing when a record lacks credentials |
| `Node.Node.HandleSync` | cmd/cfvpn-agent/main.go:454-500 | Refuses a list over the limit and an unconfirmed empty one; success leaves exactly the requested users |
| `Node.Node.HandleUsers` | cmd/cfvpn-agent/main.go:502-558 | Re-adding an existing user re-applies the current records; only a new one counts against the limit; who keeps which credentials is AgentAddKeeps |
| `Node.Node.HandleUser` | cmd/cfvpn-agent/main.go:560-599 | Deletes an existing user by re-applying the others, and nothing for an unknown one; who keeps which credentials is AgentDeleteKeeps |
| `Credentials.SyncHolds` | cmd/cfvpn-agent/main.go:454-723 | A successful sync leaves in xray exactly the requested names with their uuids, in order, and in hysteria exactly the requested names with their passwords |
| `Credentials.CurrentTrue` | cmd/cfvpn-agent/main.go:617-641 | The record read for a name has the uuid of its clients and the password of its entries; only a name without a password gets the minted one |
| `Credentials.AgentAddKeeps` | cmd/cfvpn-agent/main.go:502-558 | After a successful addition every other name keeps its uuid and its password, a name without one gets the minted one, and the new user has exactly the generated pair |
| `Credentials.AgentDeleteKeeps` | cmd/cfvpn-agent/main.go:560-599 | After a successful deletion every other name keeps its uuid and its password, a name without one gets the minted one |
| `Credentials.CliAddEntries` | internal/commands/users.go:92-192 | A successful CLI addition keeps every hysteria entry and adds one with the generated password exactly when the name had none |
| `Credentials.CliRemoveEntries` | internal/commands/users.go:209-269 | A successful CLI removal drops the hysteria entries of the name and no other |
| `Credentials.RefusedExactly` | cmd/cfvpn-agent/main.go:454-720 | Which requests the five operations turn down with nothing written, and that all others go through when nothing outside fails: names, limits, missing users, incomplete credentials, an unconfirmed empty sync |
| `Credentials.EmptySync` | cmd/cfvpn-agent/main.go:466-480 | An empty list empties both stores unless it is unconfirmed and hysteria was seen to have users |
| `ConfigLock.Deadline` | internal/commands/lock.go:52-55 | The caller's deadline or the default wait, whichever comes first |
| `ConfigLock.AcquireConfigLock` | internal/commands/lock.go:51-89 | Gives up or succeeds within 202 polls: every poll but the last found the lock taken before the caller's deadline, before the default wait and with the caller still there, the last did not, and only a free lock acquires |
| `ConfigLock.StepSerialized` | internal/commands/lock.go:31-50 | One step of any process keeps mutual exclusion and the serial meaning of the store |
| `ConfigLock.Serializable` | internal/commands/lock.go:31-50 | Every interleaving of any number of programs, killed anywhere, leaves the store the operations give one by one in lock order; finished ones ran in full, so no update is lost |
| `ConfigLock.NeverOverLimit` | internal/commands/users.go:101-112 | No reachable state of any interleaving has more xray users than the limit |
| `ConfigLock.CliRunsContained` | internal/commands/users.go:122-161 | Any interleaving of CLI adds and removes, killed anywhere, keeps names(xray) within names(hysteria) |
| `LockFile.GuardedWhenCurrent` | internal/commands/lock.go:51-89 | Exclusion holds in every continuation without another rollback exactly when everybody who has the lock file open has the one the path leads to |
| `LockFile.NoRollbackExcludes` | internal/commands/lock.go:26-50 | Without a rollback two processes never hold the lock at once |
| `LockFile.RollbackGuards` | internal/commands/install.go:854-883 | While the upgrade holds the lock file its rollback removed, the next process gets in beside it; after its release exclusion is guarded again exactly when nobody has the removed file open any more, whatever others did meanwhile and whether or not the copy worked |
| `LockFile.QuietRollbackGuards` | internal/commands/install.go:854-883 | An undisturbed rollback keeps exclusion exactly when nobody else was waiting for the lock |
| `LockFile.TwoHolders` | internal/commands/lock.go:62-76 | One process waiting through a rollback and one arriving after it both hold the lock |
| `XrayConfig.ClientKeys` | internal/xray/config.go:67-117 | Id, email and flow of a client are the members of those names, read and written |
| `XrayConfig.SettingsKeys` | internal/xray/config.go:119-158 | Clients and decryption are the members of those names |
| `XrayConfig.InboundKeys` | internal/xray/config.go:217-258 | Protocol and settings are the members of those names |
| `XrayConfig.ConfigKeys` | internal/xray/config.go:184-215 | The inbounds are the member of that name |
| `XrayConfig.ClientSurvives` | internal/xray/config.go:67-117 | Unknown members of a client survive, and writing is read back to the same client |
| `XrayConfig.ClientsSurvive` | internal/xray/config.go:67-155 | The same for every client of a list, in order |
| `XrayConfig.SettingsSurvive` | internal/xray/config.go:119-155 | Unknown members of the settings and of every client in them survive, and writing is read back to the same settings |
| `XrayConfig.InboundsSurvive` | internal/xray/config.go:217-254 | Unknown members of every inbound survive, its settings verbatim |
| `XrayConfig.ConfigSurvives` | internal/xray/config.go:184-214 | Unknown top-level members survive, and writing is read back to the same config |
| `XrayConfig.MarshalStableObject` | internal/xray/config.go:260-305 | Emits every member once: preferred keys in their order, then the rest sorted, for any iteration order of the map |
| `XrayConfig.StableOrderUnique` | internal/xray/config.go:260-305 | The emitted key order is determined by the object alone and names every key once |
| `XrayConfig.NameAlphabet` | internal/xray/config.go:158-169 | A valid name is 1 to 32 ASCII letters, digits, underscores and hyphens |
| `XrayConfig.Editor.AddUser` | internal/xray/config.go:374-393 | Refuses an invalid or listed name and a config without vless settings; otherwise appends the client |
| `XrayConfig.Editor.RemoveUser` | internal/xray/config.go:395-419 | Refuses an unknown name; otherwise drops every client that normalizes to it |
| `XrayConfig.UsersInbound` | internal/xray/config.go:307-331 | The users are those of the first vless inbound, whatever stands after it, and there are none to edit without one |
| `XrayConfig.FilterClients` | internal/xray/config.go:404-418 | The filter loop drops exactly the matching clients and says whether there was one |
| `XrayConfig.NamePlain` | internal/xray/config.go:23-29 | A valid name is its own normal form, with or without the suffix |
| `XrayConfig.RemoveUndoesAdd` | internal/xray/config.go:374-419 | RemoveUser after AddUser gives the config itself exactly when its vless settings were in written form: a client list and a decryption text, every client with id and email texts and no empty flow |
| `XrayConfig.AddKeepsOthers` | internal/xray/config.go:353-393 | Adding a user changes nobody else's lookup |
| `XrayConfig.RemoveKeepsOthers` | internal/xray/config.go:353-419 | Removing a user changes nobody else's lookup and leaves none for the removed one |
| `XrayConfig.AddSurvives` | internal/xray/config.go:67-393 | From the document read to the document written, an addition keeps every unknown member at all four levels and every other inbound, and appends one client entry |
| `XrayConfig.RemoveSurvives` | internal/xray/config.go:67-419 | And a removal keeps the same, with exactly the entries of the user gone |
| `Rerender.RenderedNames` | internal/commands/install.go:817-831 | Reading the users out of a rendered config gives the same names in the same order |
| `Rerender.RenderFixpoint` | internal/templates/render.go:240-467 | Reading back a render succeeds and gives the same users exactly when every name's lookup is settled |
| `Rerender.NormalNamesSettled` | internal/xray/config.go:353-369 | Names without trailing blanks, such as all valid names, are settled |
| `Rerender.BlankNamesUnsettled` | internal/xray/config.go:23-29 | Three emails differing in blanks before the suffix for which a second re-render changes the file |
| `Reconcile.Node.ReconcileUnits` | internal/commands/reconcile.go:72-93 | For any iteration order of the unit map: writes exactly the drifted units and reports them sorted, with those newly created |
| `Reconcile.Node.RunReconcile` | internal/commands/reconcile.go:111-147 | Goes through exactly when the units could be written, the retired one removed and every call worked; the calls are those of the changed units in sorted order up to the first that fails; a node in sync is not touched |
| `Reconcile.Node.PickUp` | internal/commands/reconcile.go:126-146 | Reload first, then timers and new daemons enabled, changed daemons restarted, one-shot jobs left alone; the first call that fails is the last |
| `Reconcile.Node.Apply` | internal/commands/reconcile.go:149-171 | A retired hysteria unit is disabled and removed before the reload; a failed disable or removal ends the reconcile |
| `Reconcile.CallsMade` | internal/commands/reconcile.go:111-171 | Which systemctl calls a reconcile that nothing stops makes: the retired unit is disabled first, then one reload, then, sorted by unit, an enable for each changed timer and each new daemon and a restart for each daemon that changed, and no other |
| `Reconcile.ChangedUnique` | internal/commands/reconcile.go:92 | The sorted list of changed units, and so the calls, do not depend on the map's order |
| `Reconcile.ReconciledInSync` | internal/commands/reconcile.go:95-99 | A reconciled node is in sync |
| `Reconcile.Node.ReRenderInPlace` | internal/commands/install.go:618-720 | Goes through exactly when the changed xray config validates, is written and restarts and the changed cloudflared config is written; then the files are what the env renders to and the restarts come before the reconcile's calls; a node already rendered and in sync, or a legacy direct one, is left completely unchanged |
| `Reconcile.ReRenderTwice` | internal/commands/install.go:618-720 | After a re-render that went through, a second one writes no file and makes no systemctl call when the lookups are settled |
| `Reconcile.SecondRenderSame` | internal/commands/install.go:618-720 | The second rendered client list equals the first exactly when the lookups are settled |
| `Uri.EncodeURIComponent` | internal/subscription/subscription.go:29-44 | The byte loop escapes exactly the bytes that are not unreserved |
| `Uri.UnreservedIs` | internal/subscription/subscription.go:46-56 | The ASCII characters that pass unescaped, and no others |
| `Uri.PercentIs` | internal/subscription/subscription.go:39-41 | An escaped byte is a percent sign and its two capital hex digits, the high one first |
| `Uri.Utf8Bits` | internal/subscription/subscription.go:22-28 | The bytes of a character carry its code point in the bit pattern of UTF-8 |
| `Uri.EncodersAgree` | internal/subscription/subscription.go:21-57 | The node's byte loop and encodeURIComponent give the same text for every string |
| `Uri.Utf8RoundTrip` | internal/subscription/subscription.go:21-29 | Decoding the UTF-8 of a string gives the string, for every scalar value |
| `Uri.DecodeEncode` | internal/subscription/subscription.go:21-57 | Decoding an encoded text gives the text back, also with a plain suffix behind it |
| `Uri.EncodeVLESSPath` | internal/subscription/subscription.go:59-71 | The segment loop gives the encoding of the whole path, for every path |
| `Uri.PathSegments` | panel/worker/src/lib/subscription.ts:82-87 | Split at slashes, encode, join with the escaped slash is encoding the path |
| `Routes.NameInjective` | panel/worker/src/lib/clash.ts:57-95 | A route name determines its node and its route, whatever the node is called |
| `Routes.SuffixesApart` | panel/worker/src/lib/clash.ts:57-95 | No route suffix ends another |
| `Routes.NamesDistinct` | panel/worker/src/lib/clash.ts:57-95 | With distinct nodes no two routes share a name, in any format |
| `Routes.SpotsServed` | panel/worker/src/lib/subscription.ts:156-175 | What a format lists is exactly the kept routes the rows serve |
| `Routes.ServesExactly` | panel/worker/src/lib/subscription.ts:99-166 | Which settings of a row each route needs; a row that is neither a complete Reality node nor a cloudflare one serves nothing |
| `Routes.RowURIs` | panel/worker/src/lib/subscription.ts:193-236 | One row's lines are its served routes in the common order |
| `Routes.BuildSubscriptionURIs` | panel/worker/src/lib/subscription.ts:191-239 | One line per served route of every row, in order, each of which tells a client what the row says (ListReads); nothing for a row that is neither kind |
| `UriReader.RowReads` | panel/worker/src/lib/subscription.ts:50-149 | A reader of the URI syntax gets from the line of a served route what the row says (scheme, login, dialled host without brackets, port and every parameter decoded) exactly when the host and the uuid, which go in as they are, read back: no delimiter or escape in the uuid, no end of the authority in the host, and a colon in it only where the route puts brackets |
| `UriReader.ListReads` | panel/worker/src/lib/subscription.ts:191-239 | The same for every line of every list |
| `Routes.AvailableNames` | panel/worker/src/lib/shadowrocket.ts:60-100 | The names of the routes the URI list carries without Naive |
| `Routes.LineName` | panel/worker/src/lib/subscription.ts:50-150 | What follows the first # of a URI decodes to the route name the configs use exactly when host and uuid, which go in unencoded, hold no # |
| `Routes.AvailableIsSubscription` | panel/worker/src/lib/shadowrocket.ts:58-100 | The available names and the URI list correspond one for one in order; a client reads each name off its URI exactly when the unencoded fields hold no # |
| `Configs.ShadowrocketGroups` | panel/worker/src/lib/shadowrocket.ts:123-154 | The groups are exactly AUTO, HY2-BACKUP and PROXY, each with its members listed; every member resolves and no url-test group is empty |
| `Configs.AutoNames` | panel/worker/src/lib/shadowrocket.ts:16-53 | The names AUTO prefers, in order, for Russia and for everyone else |
| `Configs.BackupNames` | panel/worker/src/lib/shadowrocket.ts:141-144 | HY2-BACKUP holds the names of the IPv4 Hysteria2 routes, in order |
| `Configs.EndsHy2` | panel/worker/src/lib/shadowrocket.ts:141-144 | The -HY2 filter takes the IPv4 Hysteria2 routes and nothing else |
| `Configs.EndsV6` | panel/worker/src/lib/clash.ts:77-79 | The -v6 filter takes exactly the IPv6 twins |
| `Configs.NodeOutbounds` | panel/worker/src/lib/clash.ts:100-168 | The entries are the served routes without XHTTP, each with its name, host and port |
| `Configs.SameEndpoint` | panel/worker/src/lib/singbox.ts:42-102 | Every entry has the name of its route and dials the host and port a client reads off the URI of that route |
| `Configs.SomeV4` | panel/worker/src/lib/clash.ts:188-204 | A user with any Clash route has one that is no IPv6 twin |
| `Configs.V4Names` | panel/worker/src/lib/clash.ts:188-204 | Auto holds the names of all routes but the IPv6 twins, in order |
| `Configs.BuildClashConfig` | panel/worker/src/lib/clash.ts:170-220 | The groups are exactly Auto over the names that are no IPv6 twins and Proxy over Auto and all names; Auto is never empty, every reference resolves, and a user with no route gets DIRECT |
| `Configs.BuildSingboxConfig` | panel/worker/src/lib/singbox.ts:147-232 | Every group member, rule set and target resolves, no urltest is empty, dns never names the address set, tags are distinct, and the blocked sets are the translated module |
| `Configs.AutoTagsAre` | panel/worker/src/lib/singbox.ts:152-159 | AUTO in sing-box is the preferred names that are there, with the Hysteria2 route of JPY-03 for a missing H3 one, and Naive of JPY-01 last for Russia |
| `Configs.SingboxRouting` | panel/worker/src/lib/singbox.ts:173-215 | Each blocked set is defined and referenced exactly when it has rules, dns names the domain set exactly when there is one, and a rule names PROXY exactly when something goes through it |
| `Configs.NotOwnTag` | panel/worker/src/lib/singbox.ts:147-172 | No route is named like one of the config's own outbounds |
| `Configs.FormatsAgree` | panel/worker/src/lib/shadowrocket.ts:58-60 | Clash carries exactly the URI list's routes that are not XHTTP, sing-box those and Naive, all in the list's order |
| `GoMirror.TagIs` | internal/commands/subscription.go:37-50 | The tag is the trimmed node id in capitals, or the user name when there is none |
| `GoMirror.BuildUserURIs` | internal/commands/subscription.go:34-110 | The node's list for every env: what MODE serves, then Hysteria2; what each line tells a client is RealityLinesSay, UpgradeLineSays, XHTTPLinesSay and Hy2LinesSay |
| `UriReader.RealityLinesSay` | internal/commands/subscription.go:55-76 | What a client reads from the node's Reality lines, in terms of the env and exactly when: uuid, address, sni, pbk and sid |
| `UriReader.UpgradeLineSays` | internal/commands/subscription.go:86-91 | The same for the HTTPUpgrade line: host, path and alpn |
| `UriReader.XHTTPLinesSay` | internal/commands/subscription.go:77-97 | When each of the three XHTTP lines is there, and what a client reads from it: host, path, mode and alpn |
| `UriReader.Hy2LinesSay` | internal/commands/subscription.go:104-171 | The same for the Hysteria2 lines: name and password, address and port, obfs password and sni |
| `GoMirror.Hy2LinesRead` | internal/commands/subscription.go:140-170 | A Hysteria2 line exactly when HY2 is enabled and host, port, obfs and password are there, a second one exactly with an IPv6; a client reads the name off each exactly when its address holds no # |
| `GoMirror.RealityLinesRead` | internal/commands/subscription.go:58-84 | A Reality line exactly with all three parameters, a second one exactly with an IPv6; a client reads the name off each exactly when its address and the uuid hold no # |
| `GoMirror.MainAgrees` | internal/commands/subscription.go:17-33 | On corresponding states the VLESS lines of both builders are equal |
| `GoMirror.TailAgrees` | internal/commands/subscription.go:134-170 | On corresponding states the Hysteria2 lines are equal, or the node has none |
| `GoMirror.NodeMatchesWorker` | internal/commands/subscription.go:17-110 | On corresponding states both lists are equal exactly when a complete HY2 endpoint also has what only the node checks |
| `ModuleRules.LineIs` | panel/worker/src/lib/cnrules.ts:49-57 | Which lines are rules: not blank, a comment or a section header, of a known type and with a value, which are those of the first two fields, trimmed |
| `ModuleRules.ParseModuleRules` | panel/worker/src/lib/cnrules.ts:46-66 | The printed first rule of each site, in the order of the text |
| `ModuleRules.FirstsAre` | panel/worker/src/lib/cnrules.ts:48-64 | The kept positions rise and are exactly the first occurrences of their type and value |
| `ModuleRules.KeepsFirsts` | panel/worker/src/lib/cnrules.ts:48-64 | What is kept at each place is the rule at that position |
| `ModuleRules.KeyInjective` | panel/worker/src/lib/cnrules.ts:60-62 | Two rules have the same key exactly when type and value agree |
| `ModuleRules.ShowReads` | panel/worker/src/lib/cnrules.ts:49-59 | A printed rule is type, value, PROXY and the flags, and reads back as itself |
| `ModuleRules.KindTable` | panel/worker/src/lib/cnrules.ts:31-41 | Each rule type is recognized by its own name and no other |
| `ModuleRules.NoResolveIs` | panel/worker/src/lib/cnrules.ts:58 | The flag that is kept is no-resolve in any case, and no other |
| `ModuleRules.ParseIdempotent` | panel/worker/src/lib/cnrules.ts:46-66 | Parsing the parser's own joined output gives it back, for any text |
| `ModuleRules.ModuleToHeadlessRules` | panel/worker/src/lib/singbox.ts:112-135 | The value lists by type; sets without values are left out |
| `ModuleRules.TranslationKeepsMeaning` | panel/worker/src/lib/singbox.ts:108-135 | For every destination and every meaning of the matches, some rule of the module matches exactly when a translated set does; no set is empty and names and addresses are apart |
| `HealthSweep.Database.SweepNodesHealth` | panel/worker/src/routes/nodes.ts:711-819 | Every listed node takes exactly its own step from the row selected, all of them or none; other nodes do not change |
| `HealthSweep.SweepRuns` | panel/worker/src/routes/nodes.ts:704-801 | After any run of sweeps the counter is the failing streak, unreachable means a transport failure after another failure, and an error is outstanding exactly when the next ok would report a recovery; events pair |
| `HealthSweep.UnreachableMeansTwo` | panel/worker/src/routes/nodes.ts:704-707 | Two consecutive failing sweeps stand behind every unreachable node |
| `HealthSweep.ManualCheckPairs` | panel/worker/src/routes/nodes.ts:661-685 | A successful manual check keeps the pairing exactly when an error is outstanding on an unreachable node and none on a reachable one |
| `HealthSweep.OverlapCounts` | panel/worker/src/routes/nodes.ts:722-727 | In every interleaving of overlapping sweeps, failed commits, manual checks and parking, the counter is the failing batches landed since the last ok one |
| `HealthSweep.FlipNeedsTwo` | panel/worker/src/routes/nodes.ts:774-790 | Under overlap a flip has two landed failures behind it exactly when the row counts one as the batch commits; so always unless an ok landed after the select |
| `HealthSweep.LandPairs` | panel/worker/src/routes/nodes.ts:728-801 | A landing keeps errors and recoveries paired exactly when what was selected fits the row it lands on: for an ok both or neither announced, for a config error a first one or an announced row, for a transport failure a flip or an announcement that matches the status |
| `HealthSweep.RunPairs` | panel/worker/src/routes/nodes.ts:661-819 | Over any interleaving of sweeps, failed commits, manual checks that answer or fail, marking and parking, the pairing holds after every action exactly when every action fits; a failed manual check fits exactly on an announced row |
| `HealthSweep.UnchangedFits` | panel/worker/src/routes/nodes.ts:728-801 | A batch that lands on the row it was decided on always fits, so sweeps that do not overlap keep the pairing |
| `HealthSweep.DisabledStays` | panel/worker/src/routes/nodes.ts:712-717 | No sweep, manual check or marking changes a disabled row |
| `HealthSweep.AloneIsSerial` | panel/worker/src/routes/nodes.ts:711-819 | A sweep nothing overlaps is a serial step |
| `HealthSweep.OvertakenFlipsEarly` | panel/worker/src/routes/nodes.ts:774-790 | With an ok landing in between, one failure flips the node |
| `HealthSweep.OverlapRecoversTwice` | panel/worker/src/routes/nodes.ts:741-752 | Two overlapping sweeps of an announced row both report its recovery |
| `FleetProbe.NextState` | scripts/fleet-probe.py:150-173 | The fold over the results gives each probed route its next entry and the alerts in order; other routes are dropped |
| `FleetProbe.FoldFetch` | scripts/fleet-probe.py:183-193 | The subscription folded as a route of its own, its alert reworded |
| `FleetProbe.Prober.RunOnce` | scripts/fleet-probe.py:456-536 | What a run saves and sends: a crash saves nothing and loses the fetch alert, a failed fetch keeps the routes |
| `FleetProbe.RouteState` | scripts/fleet-probe.py:150-173 | For every history the saved count is the route's trailing failures over probed runs, and alerted says they reached the threshold |
| `FleetProbe.FetchState` | scripts/fleet-probe.py:176-193 | The same for the subscription |
| `FleetProbe.RouteAlerts` | scripts/fleet-probe.py:150-173 | Each run sends a route exactly what it is due: DOWN in the run of the threshold-th failure, UP in the first success after it |
| `FleetProbe.FetchAlertsSent` | scripts/fleet-probe.py:176-193 | The same for the subscription; a crashed run reports nothing about it |
| `FleetProbe.RouteAlternation` | scripts/fleet-probe.py:150-173 | For every history the alerts of a route alternate DOWN and UP exactly when none is due after a run that left the route out while it was down |
| `FleetProbe.RouteAlternates` | scripts/fleet-probe.py:150-173 | So a route listed in every probed run alternates, DOWN last exactly while its streak is at the threshold |
| `FleetProbe.SubscriptionAlternates` | scripts/fleet-probe.py:176-193 | The subscription's alerts alternate over every history |
| `FleetProbe.UnlistedRepeatsDown` | scripts/fleet-probe.py:150-173 | A route that leaves the list while down is reported down again with no recovery |
| `RateLimit.Limiter.EnforceRateLimit` | panel/worker/src/lib/auth.ts:192-205 | Opens a window for a new or stale key, counts within it, refuses at the limit |
| `RateLimit.Limiter.EvictStaleBuckets` | panel/worker/src/lib/auth.ts:207-226 | Over the size limit, drops the stale entries and then the oldest, unless its key is empty |
| `RateLimit.Limiter.FindOldest` | panel/worker/src/lib/auth.ts:214-223 | The scan finds the first entry with the smallest window start |
| `RateLimit.RunTracks` | panel/worker/src/lib/auth.ts:192-226 | Over every run the bucket of a spared key is its last admitted request, until the window is over |
| `RateLimit.Spread` | panel/worker/src/lib/auth.ts:192-205 | Twenty-one admitted requests in a row take more than a window |
| `RateLimit.SlidingWindow` | panel/worker/src/lib/auth.ts:192-226 | Any half-open window admits at most twice the limit of a key the size fallback never deleted |
| `RateLimit.RefusedIsBusy` | panel/worker/src/lib/auth.ts:200-202 | A refused key has the full limit admitted within less than a window |
| `RateLimit.SizeAfter` | panel/worker/src/lib/auth.ts:207-226 | One request takes the map over the limit exactly when a new key meets a full map with nothing stale and the empty key oldest |
| `RateLimit.SizeBound` | panel/worker/src/lib/auth.ts:207-226 | With non-empty keys the map never exceeds the limit |
| `Derp.Summarize` | internal/tailscale/policy.go:73-96 | The regions sorted by id, whatever order the map yields |
| `Derp.MutateSafe` | internal/tailscale/policy.go:122-204 | Every policy a command writes is safe whatever it started from, and differs only in the flag or the one region named; a policy without a derpMap gets one with the flag off |
| `Derp.MutateWhen` | internal/tailscale/policy.go:122-204 | Exactly when each command is refused and when it has nothing to do, by what the document holds |
| `Derp.AddThenRemove` | internal/tailscale/policy.go:145-204 | Removing a region just added restores the policy exactly when the region map existed, the key was free and the policy was safe |
| `Derp.ChinaOnOff` | internal/tailscale/policy.go:122-140 | China mode on and off again restores exactly the policies that had the flag written off |
| `Derp.Tailnet.SetPolicy` | internal/tailscale/api.go:148-164 | A request that arrives is written exactly when the ETag sent is current, or none was sent; it is reported written only if the answer came back |
| `Derp.Tailnet.EditPolicy` | internal/commands/derp.go:87-125 | The server writes exactly when read, backup, check and request work, the command changes the policy and no one wrote meanwhile if an ETag was sent; what it writes is the command applied to the policy read, which is backed up first; a lost answer makes the edit report a failure although it was written; anything else leaves the last policy others wrote |
| `Derp.NoLostEdit` | internal/commands/derp.go:81-125 | With an ETag on every read, any interleaving of editors stores what the stored commands give one after the other |
| `Derp.AlwaysSafe` | internal/tailscale/policy.go:117-204 | Every policy stored by any interleaving is safe, with or without ETags |
| `Derp.UntaggedLosesEdit` | internal/tailscale/api.go:145-152 | Without an ETag the second of two overlapping additions removes the first |

## Left out

- HTTP, Cloudflare, Telegram, Tailscale, systemd, lego, xray and hysteria processes: oracles that succeed or fail; a failed DNS upsert or deletion is taken to have changed nothing.
- JSON and HuJSON text, comments and formatting, and the text of the cloudflared and xray templates: documents are maps, lists and opaque text around the parts the code edits.
- The env file codec: cfvpn.env is a map or the record of the keys a part reads.
- The 64 KiB limit of the line scanner and bodies with carriage returns in the hysteria round trips, and invalid UTF-8 everywhere: a string is a sequence of Unicode scalar values.
- White space: one definition, the one of unicode.IsSpace; the Worker's trim keeps U+0085 and strips U+FEFF.
- Capitals: ASCII letters only, in the module rule types and the node tag.
- AtomicFile.Disk.WriteFile: does not model the creation of missing parent directories and their own durability, nor file modes.
- Upgrade.Node.Rollback: a partly removed or partly copied directory is not modelled, a removal or copy works or has no effect; service restarts and the files outside the config directory (units, subscriptions) are not either.
- Upgrade.Node.WriteConfigs: the checks before the first write are one answer, as nothing is changed between them.
- Rotate.Rotation.Commit: the restart calls after a restore only matter to the running services, which are not part of the state.
- Node.Node.HandleSync: the reply fields, and the health data the agent reports with them, are not modelled.
- ConfigLock.Serializable: covers the user operations; install, upgrade and rotation take the same lock and are modelled on their own; the lock there is one object, which it is until an upgrade rolls back (LockFile).
- LockFile.RollbackGuards: the removal and the copy of the config directory are one step each, and the second restores the lock file if it works.
- XrayConfig.Editor.AddUser: like the code, edits the first vless inbound only, so nothing is claimed about users of a second one.
- Rerender.RenderFixpoint: one client list stands for every inbound of the rendered config, which all carry the same users.
- Routes.BuildSubscriptionURIs: the fixed paths and modes both builders put into their lines are parameters, and every result holds for any values; the IPv6 check is an input (the address that passed it), the joining of the lines and the base64 body are not modelled, nor is the log line about a missing obfs password.
- Configs.NodeOutbounds: an entry is its name, host and port; the credentials and TLS settings in it are not modelled.
- Configs.BuildSingboxConfig: the dns servers, the fixed rules and the control-plane host lists are not modelled beyond the outbounds they name.
- Configs.ShadowrocketGroups: the text of the [General] and [Rule] sections is not modelled.
- GoMirror.NodeMatchesWorker: direct nodes without complete Reality parameters and unknown modes, where the two sides branch differently.
- ModuleRules.TranslationKeepsMeaning: rule types sing-box cannot express (USER-AGENT, URL-REGEX, GEOIP, IP-ASN) are dropped by the code and are outside the statement.
- HealthSweep.SweepRuns: latency and last-seen columns, and the detail text of events.
- HealthSweep.RunPairs: a manual check reads and writes its row in one action, so a batch landing between the two is not modelled.
- FleetProbe.Prober.RunOnce: the probing itself, the reason text in alerts, delivery and deletion of messages; duplicate names are refused before results exist, so results have distinct names.
- RateLimit.SlidingWindow: a key the size fallback deleted may open a second window early, so it is excluded.
- Derp.Tailnet.EditPolicy: edits in the admin console are the writes by others; members of other JSON types than the code expects are not modelled.
- React pages, QR codes, Telegram commands, installers and checksums, sysctl tuning, socket probes, cryptography and JWT checks: no property decided by this code.
