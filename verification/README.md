# YCFRP: a verified model of the panel's control logic

YCFRP is a panel that supervises many embedded frps and frpc kernels in one process. This project models the
logic around those kernels in Dafny 4.11 and proves what it is meant to guarantee. `dafny verify dfyconfig.toml`
verifies everything.

* **The supervisor** (`Supervisor*.dfy`). `SupervisorSpec` describes every public call as a function on states;
  the frp library is an oracle (`Fate`) that accepts or refuses the n-th request, and a `Library`
  records which kernels and contexts were opened, closed and cancelled. `Supervisor` is the engine itself, classes
  whose methods update `runtimes`, `order` and the runtime fields in loops; each method is proved equal to its
  function, and `Drive` runs any sequence of calls. `SupervisorSafety`, `SupervisorConvergence`,
  `SupervisorTunnels` and `SupervisorReports` prove what every run, every `Apply` and every `ApplyTunnels` keeps or
  achieves, and when the failures reported can be trusted. `SupervisorDelivers` says the same of the lists themselves:
  which instance a kernel was launched from, which tunnels it runs and in which order, which kernels survive.
* **Status** (`MergeStats.dfy`, `MergeOrder.dfy`, `MergeRows.dfy`, `Snapshot.dfy`). Go walks its maps in any order; the merge picks map keys
  non-deterministically and its result is described by the relation `IsMerge`, so statements about it hold for
  every order. The dashboards are folded, merged into the panel's rows and then overlaid with what the clients say;
  `MergeRows` says field by field what a row then shows.
* **The database** (`Store.dfy`, `Removals.dfy`, `InstanceRules.dfy`, `InstanceConflicts.dfy`, `Panel.dfy`, `Settings.dfy`,
  `TunnelRequests.dfy`, `TunnelRecords.dfy`, `ImportRules.dfy`, `Startup.dfy`, `PanelSteps.dfy`, `PanelRuns.dfy`). The JSON-backed collection, and every request
  that changes instances or tunnels; the file may refuse any write, in which case memory and file differ exactly as
  they do in the source. `InstanceConflicts` and `TunnelRecords` write out in terms of the fields what is refused and
  what each stored record looks like. `PanelSteps` says of each request which rules it keeps and exactly when it breaks one;
  `PanelRuns` runs any sequence of requests and records the moments in between.
* **The exporter** (`ExportJson*.dfy`, `Json.dfy`, `ExportToml*.dfy`, `ExportFields.dfy`). The printers of both
  formats, and readers written from RFC 8259 sections 2 to 7 and from the comment, key, string, integer, boolean,
  array and array-of-tables sections of TOML 1.0.0. For both, a reader that looks up the keys it knows recovers what
  the tunnels' and the options' fields say (`ExportJsonRecovers`, `ExportTomlRecovers`).
* **Streams, buffers and small protocols** (`Capture.dfy`, `LogBuffer.dfy`, `Gateway.dfy`, `GatewayClient.dfy`,
  `SelfUpdate.dfy`, `HelperArgs.dfy`, `RateLimit.dfy`, `Versions.dfy`).
* `Text.dfy`, `Sequences.dfy`, `Counting.dfy` and `Model.dfy` hold strings, sequences, sizes and the records shared by
  the rest.

Where the code does not always meet a property, one lemma gives the exact condition and another an input that fails it:

* Failures reported by `Apply` can be trusted exactly when no startable instance occurs twice in the list
  (`SupervisorReports.ReportsTrulyExactlyWhen`, `RepeatMisreports`); the list the panel passes is such a list
  (`StoredListReportsTruly`).
* Map order is hidden exactly on the dashboards of `MergeOrder.OrderIsHiddenExactlyWhen`; see also
  `MergeStats.SharedMetadataShowsTheOrder`.
* The comment above `UpdateInstance` (`internal/app/instances.go:391-394`) says that no edit makes a conflict. One does
  exactly when the skipped checks would have objected (`Panel.UpdateKeepsConflictsOut`), and the settings page can get
  there (`Settings.SettingsShareAPort`). Over a run this is the only way in (`PanelRuns.ConflictsStayOut`).
* An import into an instance nobody looked up can lose ownership (`ImportRules.ImportKeepsOwners`,
  `ImportLosesAnOwner`); an import that "overwrites" doubles a name in use (`ImportRules.ImportKeepsNames`), and so can
  the adoption of orphans (`Startup.AdoptionKeepsNames`, `AdoptionDoublesAName`). `PanelRuns.OwnersStay`,
  `OwnersStayClients` and `NamesStayDistinct` name the requests that break these rules, and no other does.
* `Versions.TransitiveExactlyWhen`: versions are ordered transitively exactly on the sets without a torn triple;
  `MixedOrderHasACycle` is one.
* `ExportJsonRecovers.CarriageReturnBreaksTheExport`, `Gateway.ConfigureUndoesStop`.

The comment above `Query` in `internal/logx/logx.go:335` promises the newest entry last; the code puts it first, and
the model follows the code.

## Model

| member | source | states |
|---|---|---|
| SupervisorSafety.RunIsSafe | internal/frp/engine.go:135-475 | after any sequence of Configure, Apply, ApplyTunnels, Stop and Start, with any starts refused, the invariant `Safe` holds: units and library agree, at most one unit per id, no id blank |
| SupervisorSafety.CallKeepsSafe | internal/frp/engine.go:148-475 | each single call keeps `Safe`, from any safe state |
| SupervisorSafety.NoKernelLeakedOrLost | internal/frp/engine.go:148-242 | over every run the kernels opened and not closed are exactly those held by units, likewise for contexts; the units are exactly those in `order`; a unit is up exactly when it holds the kernel of its own kind and not the other |
| SupervisorSafety.NothingRunsAfterStop | internal/frp/engine.go:435-464 | after any run that ends in Stop every kernel ever opened is closed and every context cancelled |
| SupervisorSafety.StopLeavesNothing | internal/frp/engine.go:435-445 | Stop empties any safe engine and leaves it safe |
| SupervisorConvergence.ApplyConverges | internal/frp/engine.go:148-242 | the result is safe and has a unit for each desired id and no other, carrying the desired instance; a disabled one is down; an enabled one whose last own request was accepted, or which needed none, is up with no error and a kernel launched from an equal configuration; one whose last own request was refused is down with that reason; a running one with unchanged configuration is untouched; the failures and the number of requests are exactly those of these attempts |
| SupervisorConvergence.ApplyDisturbsLeast | internal/frp/engine.go:171-203 | any kernel Apply closes belonged to a unit that is no longer wanted, or is switched off, or whose configuration changed |
| SupervisorConvergence.ApplyReloadsNothing | internal/frp/engine.go:200-203 | Apply only adds kernels: it never changes what an already running kernel was loaded with |
| SupervisorConvergence.ApplyIsIdempotent | internal/frp/engine.go:148-242 | a second Apply changes nothing at all exactly when the first one got every enabled instance up |
| SupervisorReports.ReportsTrulyExactlyWhen | internal/frp/engine.go:156-242 | on every safe engine, "no failure" means "all enabled instances are up" and the other way round, exactly for the lists in which no startable instance occurs twice |
| SupervisorReports.SilenceMeansAllUp | internal/frp/engine.go:220-242 | no failure reported means every enabled instance is up, whatever the list |
| SupervisorReports.FailureMeansNotAllUp | internal/frp/engine.go:220-242 | when no startable instance is repeated, a failure reported means that some enabled instance is down |
| SupervisorReports.RepeatMisreports | internal/frp/engine.go:156-242 | any list that repeats a startable instance: after a run that reaches it, Apply reports a failure although everything is up |
| SupervisorReports.StoredListReportsTruly | internal/app/app.go:180-180 | the list the panel passes, the listing of its collection, can be trusted |
| SupervisorTunnels.ApplyTunnelsRoutes | internal/frp/engine.go:394-432 | every unit ends as its own requests decide: a live client holds its own part of the list if its request was accepted, and keeps its old one if it was refused; no other unit changes; the failures are the refusals one for one; no kernel or context is opened or closed |
| SupervisorTunnels.OwnRequestDecides | internal/frp/engine.go:394-418 | with distinct ids, whether a client's list is replaced depends on the one request that is its own, numbered by the live clients before it |
| SupervisorTunnels.EveryClientHoldsItsOwn | internal/frp/engine.go:394-432 | without refusals each live client's kernel runs exactly the sublist naming it, in order |
| SupervisorTunnels.RoutedByOwner | internal/frp/engine.go:627-640 | a tunnel reaches the client it names and no other, and none when it names none |
| SupervisorTunnels.TunnelsAreConserved | internal/frp/engine.go:394-432 | without refusals the tunnels loaded into kernels add up to those owned by live clients |
| SupervisorDelivers.UpRunsWhatIsWanted | internal/frp/engine.go:148-255 | after Apply from any safe state each instance that counts, the last of its id, has a unit with its name and note; if that is up, the instance is switched on and the live kernel was launched from the same kind, server settings and client settings; if it is down it holds nothing |
| SupervisorDelivers.SurvivesExactlyWhen | internal/frp/engine.go:171-255 | a running kernel is still open after Apply exactly when the instance that counts under its id has the same kind, server settings and client settings; a new name, note or time restarts nothing |
| SupervisorDelivers.SameKernelIsKept | internal/frp/engine.go:200-203 | the unit of such an instance keeps handle, kernel, error, tunnels and dashboard: only its description is replaced |
| SupervisorDelivers.SwitchedOffIsRemembered | internal/frp/engine.go:186-197 | an instance switched off is down; its unit keeps the error, tunnels and dashboard it had, and a new unit has none but its dashboard |
| SupervisorDelivers.ClientRunsItsShare | internal/frp/engine.go:394-432 | after ApplyTunnels, whatever was refused, a live client's kernel runs the tunnels at strictly increasing positions of the list, all of those that name it and no other, if its own request was accepted; else what it ran before |
| SupervisorDelivers.EveryClientRunsItsShare | internal/frp/engine.go:394-432 | without refusals every live client's kernel runs the tunnels that name it, all of them, in the order of the list |
| SupervisorDelivers.NewClientRunsItsShare | internal/frp/engine.go:315-390 | a client kernel launched by Apply runs the tunnels that name it, all of them, in the order of the list, and all of them have names |
| SupervisorDelivers.NamelessTunnelKeepsDown | internal/frp/engine.go:347-390 | a client that was not up and has a tunnel without a name is down afterwards, with that as the reason |
| SupervisorDelivers.OrderIsThatOfTheList | internal/frp/engine.go:156-242 | the engine's order is that of the list's non-blank ids |
| SupervisorDelivers.FailuresNameTheWanted | internal/frp/engine.go:220-242 | each failure names an instance that counts and is switched on, by its name and kind |
| Supervisor.Engine.Apply | internal/frp/engine.go:148-242 | the imperative reconciliation computes the specified state and failures |
| Supervisor.Engine.ApplyTunnels | internal/frp/engine.go:394-418 | the loop over the ordered runtimes computes the specified push and returns the first refusal |
| Supervisor.Engine.Stop | internal/frp/engine.go:435-445 | closing in order leaves the specified empty engine |
| Supervisor.Engine.Start | internal/frp/engine.go:297-300 | stops, then applies, and returns the failures of that Apply |
| Supervisor.Engine.Configure | internal/frp/engine.go:135-140 | replaces the desired state and nothing else |
| Supervisor.Runtime.Close | internal/frp/engine.go:449-464 | closes both services, cancels the context and forgets all three |
| Supervisor.Runtime.Start | internal/frp/engine.go:315-390 | one launch: up with its handle, or down, cancelled and with the reason |
| Supervisor.Drive | internal/frp/engine.go:135-475 | the engine driven by any sequence of calls is in the specified state and leaks nothing |
| MergeStats.Merge | internal/frp/engine.go:661-759 | for every map order the result is a merge: claims by metadata id first, then by exact name, then by suffix |
| MergeStats.NothingIsLost | internal/frp/engine.go:661-727 | every dashboard proxy is claimed by a panel row or is exactly one external row, never both, and there are no other rows |
| MergeStats.MergeIgnoresMapOrder | internal/frp/engine.go:661-768 | with clean metadata two merges of the same input are equal, whatever the orders |
| MergeRows.ClaimedRowShows | internal/frp/engine.go:683-700 | a row that claimed a proxy shows its status, connections and traffic, each its own way round; address, ports, domains and subdomain are the tunnel's own where set and the kernel's otherwise; the address to dial by type; everything else is the tunnel's |
| MergeRows.ExternalRowShows | internal/frp/engine.go:705-726 | the row of an unclaimed proxy is read-only and enabled, shows that proxy's figures, definition and note, its id by metadata or name, and its name without the user's prefix |
| MergeOrder.OrderIsHiddenExactlyWhen | internal/frp/engine.go:661-768 | whatever the panel lists, all map orders lead to the same rows, for exactly the dashboards where no metadata id is shared and proxies shown under one id have equal rows |
| MergeOrder.OrderFreeIsEnough | internal/frp/engine.go:661-768 | on such dashboards two merges are equal row by row, ties of the unstable sort included |
| MergeOrder.SharedIdShows | internal/frp/engine.go:672-679 | a shared metadata id always has a panel for which two orders give different rows |
| MergeOrder.MergeExists | internal/frp/engine.go:661-727 | any choice the index can make leads to a merge |
| MergeStats.SharedMetadataShowsTheOrder | internal/frp/engine.go:672-679 | two proxies with one metadata id: the panel shows online or offline depending on the map order |
| MergeStats.ResultIdsAreDistinct | internal/frp/engine.go:705-768 | distinct panel ids and clean metadata give distinct result ids |
| Snapshot.FoldDashboards | internal/frp/engine.go:558-586 | the fold holds, per name, the first record of greatest rank |
| MergeRows.FoldBelieves | internal/frp/engine.go:642-659 | of the records of one name an online one is kept before others, then one with the panel's metadata, then the first |
| Snapshot.RankIgnoresServerOrder | internal/frp/engine.go:558-586 | reordering the servers changes no name and no rank |
| Snapshot.FillClientStatus | internal/frp/engine.go:792-822 | the loop changes each row of the array in place as specified |
| Snapshot.FillingIsSound | internal/frp/engine.go:792-822 | no pass touches identity, and none turns an online row into anything else |
| Snapshot.SnapshotTunnels | internal/frp/engine.go:538-614 | fold, merge, client passes and final defaults, row by row |
| Snapshot.OnlineReachesThePanel | internal/frp/engine.go:538-614 | a tunnel any server reports online under its id is shown online |
| MergeRows.ReportedRowShows | internal/frp/engine.go:792-839 | the report of the one client that carries a row: its error shows, as a start error unless the row is online; a blank status becomes the panel's word for the phase, a blank address the reported one; nothing else changes |
| MergeRows.UnreportedRowShows | internal/frp/engine.go:593-613 | a row nobody reports on keeps its status; a blank one becomes offline, or not running for a disabled tunnel of the panel |
| Snapshot.MergeStored | internal/app/app.go:310-330 | stored tunnels first, in order, each shown as the last live row of its id; then the last live row of every other id, once each |
| Snapshot.StoredRowShows | internal/app/app.go:310-330 | a stored tunnel shows the last live row of its id; it shows itself when there is none, or when an earlier stored tunnel has the id |
| Store.LoadingTheListing | internal/store/store.go:43-77 | loading a written list gives the map back |
| Store.ListingIsUnique | internal/store/store.go:66-77 | a map has one listing, so the order of the walk does not show |
| Store.Sorted | internal/store/store.go:66-77 | each record once, strictly increasing by id |
| Store.Collection.Open | internal/store/store.go:43-63 | the map holds the last record of each id in the file; a file that is not there is written at once, which may fail |
| Store.LastRecordStays | internal/store/store.go:43-63 | of the records of one id in the file the last is the one in memory |
| Store.Collection.Put | internal/store/store.go:93-114 | one record stamped and stored under its id; blank ids refused; a failed write leaves the file and keeps memory |
| Store.Collection.Delete | internal/store/store.go:117-126 | removes exactly one record, or reports that there is none |
| Store.Collection.Replace | internal/store/store.go:129-138 | the map becomes the loaded list |
| Store.Collection.Flush | internal/store/store.go:140-165 | the file holds the listing of the map, or what it held before |
| Store.Collection.ReloadIsIdentity | internal/store/store.go:43-165 | after a successful write, reading the file gives the map in memory |
| Store.Collection.PutAll | internal/store/store.go:93-114 | any number of Puts, whichever writes fail, leave the map the Puts describe |
| Store.CreationTimeSurvives | internal/store/store.go:93-114 | a non-zero creation time survives any sequence of Puts |
| Store.PutsStayKeyed | internal/store/store.go:93-114 | every record stays under its own id |
| Panel.FirstPortConflict | internal/app/instances.go:316-327 | finds the first port of the second list that the first one has, exactly when there is one |
| Panel.App.CheckInstanceConflicts | internal/app/instances.go:294-313 | objects exactly when another instance has the name, or is an enabled server on a shared port |
| InstanceConflicts.NoPortIsBoundTwice | internal/frp/instance.go:201-211 | in a collection without conflicts no positive number is among the bind, dashboard, HTTP, HTTPS, KCP and QUIC ports of two different enabled servers |
| InstanceConflicts.NoConflictsExactlyWhen | internal/app/instances.go:294-313 | conflicts are names shared within a kind, and such ports, and nothing else |
| Panel.App.SaveInstance | internal/app/instances.go:268-288 | refused and unchanged, or exactly one prepared instance stored; when it reports success, and what file and memory hold when the write fails; conflicts, owners and names stay in order |
| InstanceConflicts.SaveIsAdmittedExactlyWhen | internal/app/instances.go:268-313 | a save is admitted exactly when there is a name, the settings of its kind are fit, and no other instance of the kind has the name or, both being enabled servers, one of the six ports |
| InstanceConflicts.FitExactlyWhen | internal/frp/instance.go:107-139 | which ports and addresses a server or a client must have, and that there is no third kind |
| InstanceConflicts.SavedRecord | internal/app/instances.go:268-288 | the stored record field by field: name, note and kind cleaned up, a server's blank bind address opened to all, times stamped, the rest as given |
| Panel.App.ToggleInstance | internal/app/instances.go:355-379 | switching on is checked, switching off is not; both keep conflicts out; when it succeeds and what a failed write leaves |
| InstanceConflicts.ToggleIsAdmittedExactlyWhen | internal/app/instances.go:355-379 | switching on is refused exactly for a blank name, unfit settings, a name in use or one of the six ports in use; switching off never |
| InstanceConflicts.ToggledRecord | internal/app/instances.go:355-379 | the one flag of the instance's kind is turned and the time noted |
| Panel.App.UpdateInstance | internal/app/instances.go:395-410 | the edited, normalized and validated instance replaces the stored one, and only it; fails exactly for an unknown id, an invalid result, a blank id or a failed write |
| InstanceConflicts.EditGoesThroughExactlyWhen | internal/app/instances.go:395-410 | an edit passes exactly for a known id, a name and edited settings that are fit; conflicts are not looked at |
| InstanceConflicts.EditedRecord | internal/app/instances.go:395-410 | one of the two configurations is the edited one, the other as before, name, note and kind cleaned up, the creation time kept |
| Panel.UpdateKeepsConflictsOut | internal/app/instances.go:391-410 | an edit leaves the collection without conflicts exactly when the checks it skips would not have objected |
| Panel.App.DeleteInstance | internal/app/instances.go:333-352 | the instance leaves memory exactly when all removals of its tunnels were written, and exactly those are gone; success exactly when its own write goes too; on an earlier failure the instance stays and some of its tunnels are gone one by one |
| Panel.RemoveTunnelsOf | internal/app/instances.go:338-346 | the collection passes through maps each of which lacks one owned tunnel more; it ends at the first failed write, or with all of them gone |
| Panel.OwnersInBetween | internal/app/instances.go:338-346 | between two removals every tunnel still has its owner |
| Settings.SyncDefaultInstances | internal/api/server.go:829-848 | edits the first server and then the first client; a failed first edit leaves the client untouched |
| Settings.EditedServer | internal/api/server.go:829-848 | the first server has the patched settings, unless they would not be fit; nothing else changes |
| Settings.EditedClient | internal/api/server.go:829-848 | the same for the first client |
| Settings.EditingTheServer | internal/api/server.go:829-838 | an edit of the first server makes a conflict exactly when it takes a name or an enabled port that another has |
| Settings.EditingTheClient | internal/api/server.go:839-847 | an edit of the first client changes nothing about conflicts |
| Settings.SettingsShareAPort | internal/api/server.go:829-838 | moving the first of two servers to the second one's port: a save would be refused, the settings page lets it through |
| TunnelRequests.Server.DefaultClientInstanceID | internal/api/server.go:1143-1154 | the first enabled client, else the first client, else nothing |
| TunnelRequests.Server.ResolveTunnelInstance | internal/api/server.go:1157-1174 | the one client that can carry the tunnel, or an error when there is none |
| TunnelRequests.Server.ValidateTunnel | internal/api/server.go:1091-1137 | accepts exactly when the cleaned tunnel is well formed, has a client to carry it and a free name there |
| TunnelRecords.AcceptedExactlyWhen | internal/api/server.go:1091-1137 | the tunnel accepted is the one requested with name, type, id and owner settled; it has a name, what its type needs (a remote port, a domain or subdomain, a secret; a local port without a secret), a client that carries it and a name not in use there |
| TunnelRecords.RejectedExactlyWhen | internal/api/server.go:1091-1137 | turned down exactly for its name, for what its type needs, or because every client that could carry it has the name already or there is none |
| TunnelRequests.Server.AddTunnel | internal/api/server.go:980-1000 | rejected and unchanged, or stored; owners and names stay in order |
| TunnelRecords.StoredTunnel | internal/store/store.go:93-114 | the stored record is the accepted tunnel with its times, and no other record changes |
| TunnelRequests.Server.UpdateTunnel | internal/api/server.go:1006-1045 | the same for a replacement under a known id |
| TunnelRequests.Server.ToggleTunnel | internal/api/server.go:1063-1088 | flips one switch and keeps owners and names |
| TunnelRequests.Server.DeleteTunnel | internal/api/server.go:1046-1057 | removes one tunnel and keeps owners and names |
| ImportRules.KeepFirst | internal/frp/parse.go:78-101 | of the proxies with one name the first, sorted by name; the rest are warnings |
| TunnelRequests.ImportInto | internal/api/server.go:1229-1252 | memory gains one row per accepted tunnel; "added" counts exactly those whose write went through, "skipped" the rest |
| ImportRules.ImportsAddRows | internal/api/server.go:1243-1251 | with fresh identifiers exactly those rows are added, under the target, and nothing else changes |
| TunnelRecords.ImportedRow | internal/api/server.go:1243-1251 | an imported row is the parsed tunnel under a new id and the target, with its times |
| ImportRules.ImportKeepsNames | internal/api/server.go:1229-1252 | names stay distinct exactly when no accepted name was in use |
| ImportRules.PlainImportKeepsNames | internal/api/server.go:1237-1242 | an import that overwrites nothing keeps names distinct, whatever identifiers it gets |
| ImportRules.ImportKeepsOwners | internal/api/server.go:1243-1251 | ownership survives exactly when the target exists or nothing was accepted |
| ImportRules.ImportLosesAnOwner | internal/api/server.go:1202-1251 | one tunnel imported into an instance that is not there has no owner |
| TunnelRequests.Server.ImportTarget | internal/api/server.go:1200-1227 | the instance asked for, whose connection settings may be adopted into it, or a new client, or the default client; refused exactly when adopting or creating fails or there is no client |
| TunnelRecords.AdoptedRecord | internal/api/server.go:1328-1348 | adopting replaces address, port, token, user, protocol and log level where the pasted configuration has them, and TLS always; every other field stays |
| TunnelRequests.Server.ImportTunnels | internal/api/server.go:1176-1274 | a refused import leaves the tunnels alone; otherwise the parsed tunnels go to that target, with exact counts of added and skipped |
| ImportRules.CandidatesDiffer | internal/api/server.go:1285-1291 | the candidate names are pairwise different under case folding |
| ImportRules.FreeNameSoon | internal/api/server.go:1285-1291 | with n clients at most n candidates in a row are taken |
| TunnelRequests.Server.FreeName | internal/api/server.go:1285-1291 | the unbounded loop ends within one more candidate than there are clients, at the first free one |
| TunnelRequests.Server.CreateImportedClientInstance | internal/api/server.go:1277-1315 | succeeds exactly when address and port are usable and the write goes: its name is never objected to |
| TunnelRequests.ImportCreates | internal/api/server.go:1277-1315 | the new client has exactly the pasted settings, tcp and port 7000 where there are none, and the first name free for its address |
| Startup.MigrateInstances | internal/app/instances.go:67-121 | creates exactly the instances the old configuration shows signs of, without conflicts; succeeds exactly when their writes go |
| Startup.MigratedFields | internal/app/instances.go:67-121 | each side that is on becomes an instance with its name, kind and old settings, the client only if the server was written; a side without a token takes the other's, trimmed |
| Startup.NothingToMigrate | internal/app/instances.go:67-85 | nothing becomes of a configuration with both sides off and no tunnel, or with neither token nor tunnel |
| Startup.FixTokenConsistency | internal/app/instances.go:130-158 | when exactly one of the first server and the first client has a token, the other one gets it, and nothing else changes; afterwards the two agree on having one, and conflicts and kinds are as before |
| Startup.AdoptOrphanTunnels | internal/app/instances.go:164-192 | the orphans go to the first client in the order of their ids, all of them exactly when their writes go and none lacks an id, else those up to the first failed write; no other tunnel changes and owners are kept |
| Startup.AdoptionKeepsNames | internal/app/instances.go:164-192 | names stay distinct exactly when the tunnels that end up with the client have different names |
| Startup.AdoptionDoublesAName | internal/app/instances.go:164-192 | an orphan and a tunnel of the client with one name |
| PanelRuns.Handle | internal/api/server.go:826-1274 | one request of any kind, with any writes failing: kinds stay known, conflicts stay out, owners exist and are clients, names stay distinct, each unless the request is exactly of the sort that breaks that rule |
| PanelRuns.Serve | internal/api/server.go:826-1274 | any sequence of saves, toggles, deletions, tunnel requests, imports (adopting and overwriting ones too) and changes of settings, with any writes failing, is a history of such steps |
| PanelRuns.ConflictsStayOut | internal/app/instances.go:268-410 | over any history no conflict gets in, exactly when the settings page is never used to make one |
| PanelRuns.OwnersStay | internal/api/server.go:1176-1274 | over any history every owner exists, exactly when no import puts tunnels into an instance that is named and not there |
| PanelRuns.OwnersStayClients | internal/api/server.go:1157-1274 | over any history every owner is a client, exactly when no import goes to something else and no owner is saved as a server |
| PanelRuns.NamesStayDistinct | internal/api/server.go:1123-1252 | with fresh identifiers names stay distinct, exactly when no overwriting import brings a name in use |
| PanelRuns.PlainNamesStayDistinct | internal/api/server.go:1123-1252 | without overwriting imports names stay distinct, whatever the identifiers |
| PanelRuns.Open | internal/app/app.go:98-152 | succeeds exactly when missing files could be written, the migration of an empty collection went through and, if there is a client, all orphans could be adopted; then the tokens are repaired or the old configuration migrated, the orphans adopted, conflicts kept out, kinds known and owners existing |
| PanelRuns.Run | internal/app/app.go:98-152 | with both files missing: succeeds exactly when the first writes and the migration go; then any requests are a history that begins with the migrated instances, without conflicts and without tunnels |
| ExportJson.ExportJSON | internal/frp/parse.go:300-344 | the text printed is the text of the layout |
| ExportJson.JsonStringList | internal/frp/parse.go:376-385 | the printed list is the trimmed non-empty items |
| ExportFields.CleanedAt | internal/frp/parse.go:360-385 | both lists hold the trimmed items at strictly increasing positions, all of those that are not blank |
| ExportJson.LiteralKey | internal/frp/parse.go:302-336 | the keys, written out in the source, are what the escaping printer would print |
| ExportJsonReads.ScansBack | internal/frp/parse.go:371-374 | an RFC 8259 scanner gives the string back and stops at its closing quote, exactly when it holds no control character but newline and tab |
| ExportJsonReads.UnescapeUndoes | internal/frp/parse.go:371-374 | dropping the escapes undoes them, for every string |
| ExportJsonReads.LexReadsPieces | internal/frp/parse.go:300-344 | a layout reads as exactly its tokens |
| Json.ParsesBack | internal/frp/parse.go:300-344 | the parser inverts the token printer |
| ExportJsonRoundTrip.LayoutIsFaithful | internal/frp/parse.go:300-344 | the layout stands for the tokens of the document |
| ExportJsonRoundTrip.ExportParsesBack | internal/frp/parse.go:300-344 | the exported text parses to the document, or not at all when a string is not printable |
| ExportJsonRecovers.ExportReadsBack | internal/frp/parse.go:300-385 | a reader by key recovers the settings and one proxy per tunnel, in order: name, lower-case type, local address or 127.0.0.1, both ports, trimmed domains, subdomain and secret by type, server, user, token and its method, TLS, log level and target; exactly when every printed string is printable |
| ExportJsonRecovers.CarriageReturnBreaksTheExport | internal/frp/parse.go:371-374 | one carriage return in a name makes the whole export unreadable |
| ExportToml.BasicScansBack | internal/frp/parse.go:355-358 | a TOML scanner gives the string back exactly when it holds no control character but newline and tab |
| ExportToml.TomlUnescapeUndoes | internal/frp/parse.go:355-358 | dropping the escapes undoes them, for every string |
| ExportToml.TomlStringList | internal/frp/parse.go:360-369 | the printed list is the trimmed non-empty items |
| ExportToml.ListReadsBack | internal/frp/parse.go:360-369 | a reader recovers the items in order, whatever quotes, commas or brackets they hold, exactly when all are printable |
| ExportTomlDocument.ExportTOML | internal/frp/parse.go:223-298 | the text printed is the text of the document's lines: the comments, the settings, and a header and a table for each tunnel |
| ExportTomlDocument.LineReadsBack | internal/frp/parse.go:223-298 | a comment, a blank line, a header or a pair reads back and leaves what follows, or does not read at all when its string is not printable |
| ExportTomlDocument.TomlReadsBack | internal/frp/parse.go:223-298 | a reader finds the table of settings and one table per tunnel, in order and pair by pair, exactly when every printed string is printable |
| ExportTomlRecovers.TomlExportReadsBack | internal/frp/parse.go:223-369 | a reader by key recovers the settings and one proxy per tunnel, in order: name, lower-case type, local address or 127.0.0.1, both ports, trimmed domains, subdomain, secret, allowed users, transport and health settings, server, user, token, protocol, TLS and log level, each from the field it was written from; or nothing, exactly when a string to be recovered holds a control character other than newline and tab |
| ExportTomlRecovers.FieldsAreRuns | internal/frp/config.go:258-270 | the allowed users stand between commas, blanks and semicolons: all longest stretches without separators, in order |
| LogBuffer.Logger.Append | internal/logx/logx.go:275-285 | an entry the level lets through is appended; the invariant keeps a suffix of the history, its bounds and the copying budget |
| LogBuffer.Logger.Compact | internal/logx/logx.go:282-285 | moving in place keeps exactly the last entries |
| LogBuffer.Logger.constructor | internal/logx/logx.go:155-166 | a capacity that is not positive becomes 2000 |
| LogBuffer.Logger.Query | internal/logx/logx.go:336-360 | the newest matching entries up to the limit, as the whole history would answer, sorted stably with the newest first |
| LogBuffer.NewestIsRight | internal/logx/logx.go:336-360 | nothing that matches is missed, nothing else gets in, and entries logged in order of time come out newest first |
| LogBuffer.ViewerFindsExactly | internal/logx/logx.go:336-355 | found are exactly the entries at least as severe, from trace to fatal with unknown levels as information, whose lower-cased message, raw line and source mention the word |
| LogBuffer.LevelHasPlace | internal/logx/logx.go:47-64 | the order of the six levels, and where an unknown one stands |
| LogBuffer.MostAreRetained | internal/logx/logx.go:275-285 | the buffer is all that was accepted, or its last entries and no less than seven eighths of the capacity |
| LogBuffer.StableSortIsUnique | internal/logx/logx.go:357-358 | a list has one stable sort by time, so the answer is determined |
| LogBuffer.SortingMovesNothing | internal/logx/logx.go:336-360 | entries logged in order of time are shown as they were picked |
| Capture.Capture | internal/logx/logx.go:489-513 | for every cutting of the stream into reads the lines logged are those of the whole stream |
| Capture.Drain | internal/logx/logx.go:497-505 | the inner loop takes out exactly the finished lines |
| Capture.IndexByte | internal/logx/logx.go:524-531 | the first occurrence, or none |
| Capture.LinesSplit | internal/logx/logx.go:489-513 | lines and rest make up the stream, and none holds a newline |
| Capture.SplittingIsUnique | internal/logx/logx.go:489-513 | there is no other way to split it |
| Capture.LinesOfTwo | internal/logx/logx.go:489-505 | reading on continues where the rest left off |
| Gateway.EveryLoopIsAccountedFor | internal/qqbot/gateway.go:97-155 | in every interleaving each loop context is cancelled, or current, or held by a Stop in flight |
| Gateway.NeverTwoLoops | internal/qqbot/gateway.go:97-155 | at most one loop more than Stops in flight; with none in flight at most the running one |
| Gateway.StopLastsExactlyWhen | internal/qqbot/gateway.go:97-155 | a stopped client stays stopped under every schedule without Start exactly when no Configure is under way |
| Gateway.StopLasts | internal/qqbot/gateway.go:144-155 | with no Configure under way, no such schedule leaves more loops than there were |
| Gateway.ConfigureUndoesStop | internal/qqbot/gateway.go:97-113 | a Configure under way restarts a client that was stopped after it |
| GatewayClient.Client.Start | internal/qqbot/gateway.go:123-141 | the method is one atomic step of the protocol |
| GatewayClient.Client.Stop | internal/qqbot/gateway.go:144-155 | undisturbed, it leaves no loop |
| GatewayClient.Client.Configure | internal/qqbot/gateway.go:97-113 | a changed running client runs again exactly when the new configuration is usable |
| GatewayClient.Client.Interleave | internal/qqbot/gateway.go:97-155 | the client under any schedule follows the protocol and never has two loops |
| GatewayClient.Backoffs | internal/qqbot/gateway.go:158-195 | three seconds, doubled per failure in a row, at most two minutes |
| GatewayClient.WaitsAre | internal/qqbot/gateway.go:158-195 | the waits are 3, 6, 12, 24, 48 and 96 seconds and then always 120 |
| GatewayClient.StreakIs | internal/qqbot/gateway.go:183-195 | failures are counted back to the last session without one |
| SelfUpdate.RunApply | internal/updater/helper.go:118-173 | cut at any point the panel can be started; only the last step gives the old binary up; exit code 0 exactly when the parent was seen dead, the staged file verifies, it and the target are there and not the same, and both renames and the restart work; the target is missing only after a rollback that was tried and failed; nothing moves before the look that saw the parent dead |
| SelfUpdate.Swap | internal/updater/helper.go:146-162 | the two renames keep the old binary recoverable in every state; succeeds exactly when both work; a failed rollback is the third rename, attempted and failed |
| SelfUpdate.WaitForParent | internal/updater/helper.go:123-136 | gives way exactly when one of the looks it took saw the parent dead, and that look is the last |
| SelfUpdate.LastLookIs | internal/updater/helper.go:123-136 | the look that decides follows the first that finds the parent gone, or the last there is time for |
| HelperArgs.HelperIsToldWhatWasMeant | internal/updater/helper.go:53-114 | the helper reads the request the panel wrote for exactly the requests whose paths are not mistaken for flags |
| HelperArgs.ParseApplyRequest | internal/updater/helper.go:91-114 | the first value behind each flag, or an error without both paths |
| RateLimit.Notifier.AllowRate | internal/notify/notify.go:151-164 | refused exactly within the quiet period of the last grant for the key |
| RateLimit.Notifier.Run | internal/notify/notify.go:151-164 | under a clock that does not run backwards a call is granted exactly when it is clear of all earlier grants for its key |
| RateLimit.WindowBound | internal/notify/notify.go:151-164 | no window of length L holds more than L / q + 1 grants for a key |
| Versions.ParseVersion | internal/updater/updater.go:95-122 | parses exactly two dotted runs of digits, with 64-bit wrap-around |
| Versions.SpelledIsRelease | internal/updater/updater.go:95-122 | two runs of digits around a dot, behind an s or not, parse to the number of month and revision |
| Versions.ReleaseIsSpelled | internal/updater/updater.go:95-122 | nothing else parses |
| Versions.CompareFlips | internal/updater/updater.go:77-91 | swapping the arguments flips the sign, for all strings |
| Versions.CompareIsLexicographic | internal/updater/updater.go:77-122 | by month, then by revision, while revisions stay below 10000 |
| Versions.LaterMonthWins | internal/updater/updater.go:121-121 | a later month wins exactly when the revisions differ by less than 10000 per month |
| Versions.TransitiveExactlyWhen | internal/updater/updater.go:77-91 | on any set of strings the order is transitive exactly when no string that is no release stands, as text, between two releases that are the other way round |
| Versions.ReleasesAreTransitive | internal/updater/updater.go:77-91 | releases alone are ordered transitively |
| Versions.MixedOrderHasACycle | internal/updater/updater.go:77-91 | three strings that come before one another in a circle |

## Left out

- MergeStats.MergeIgnoresMapOrder: also fixes which proxy each row claims, and so asks for clean metadata; for the rows alone MergeOrder.OrderIsHiddenExactlyWhen has the exact condition.
- ExportTomlDocument.TomlReadsBack: the reader takes what this printer writes (one-line arrays of strings, bare dotted keys, one kind of array of tables) and does not look for repeated keys.
- Capture.Capture: describes the lines handed to LogRaw; LogRaw's trimming of carriage returns, its dropping of blank lines and its level detection are not modelled.
- SelfUpdate.RunApply: time limits and sleeps are replaced by a bounded number of looks at the parent; permissions and the contents of files are opaque.
- Apply releases its lock between snapshot and publish: statements about the engine are about calls that follow one another.
- The frp library, its validators and its configuration loader are an oracle; the wording of start errors comes from it.
- Waiting for ports to be released, polling the dashboards over HTTP and decoding their answers: timing and network.
- Upper and lower case is that of ASCII letters only; strings are sequences of characters rather than of UTF-8 bytes.
- Error messages are short English constants; what the log says is not modelled.
- The configuration fields a settings request patches: the patch is any function of the server's or the client's settings.
- The JSON text of the store's own files: encoding and decoding are those of Go's standard library.
- Integer overflow outside version numbers; Atoi's clamping of numbers beyond 64 bits.
- SeriesStore, log analysis, kernel log translation, host monitoring, notification channels and the websocket session: foreign interfaces or one-step functions.
