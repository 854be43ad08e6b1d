# OwnBase: a verified model of its core

OwnBase runs a small server (a "Base") from one configuration file, `ownbase.yaml`. This project
models the parts of its daemon and its command line that have the most state and the most branches,
and proves what they promise. Run `dafny verify dfyconfig.toml` to check it.

| part | modules | what is modelled |
|---|---|---|
| configuration to units and back | `Schema`, `Containers`, `Routes`, `Compiler`, `Compiled`, `CompiledNames`, `CompiledRoutes`, `Environment`, `Render`, `UnitText`, `UnitSettings`, `UnitSections`, `Units`, `Tunnel`, `TunnelAgreement`, `Fingerprints`, `SnapshotPaths`, `PGBackRestLookup` | the compiler from configuration to runtime model, the renderer of unit files, readers of what the units say, and the four pieces of code that read the result or recompute its names independently |
| password rotation | `RekeyProtocol`, `RekeyDaemon` | the rotation of the restic password over the keyring, the Base's secret and the vault, as a protocol with failures and crashes, and the code that walks it |
| configuration edit | `YamlEdit`, `YamlReader` | the line-based edit of the `core.backup:` block, and a reader that nests lines by their indentation |
| restore | `Restore` | point-in-time recovery over the live database, its deferred cleanup and the wait for the replay |
| agent and status | `Agent`, `BackupStatus` | the credential agent and the persisted backup status, as state machines over whole runs |
| printers and a channel | `Diff`, `Shell`, `ScanChannel` | the diff and the shell line, with their readers, and the hand-over of scan results |
| library | `Text`, `Order` | the pieces of Go's `strings`, `strconv`, `path/filepath` and `sort` that the code is written with |

Code that changes state step by step is a method or a class, proved against a function or a machine;
the properties are lemmas about that function or machine. Maps are iterated in an arbitrary order, so
a method that equals a function of its input is deterministic whatever order Go picks. What the code
calls and the model cannot see (restic, podman, systemd, SSH, file writes, clocks) is a parameter or
an arbitrary answer that may be a failure.

## What turned out not to hold

The code is modelled as it is. Where a statement one would expect fails, there is a concrete case,
and a lemma that says exactly when the statement holds.

- Validation accepts a replicated service called `job` beside a job called by a replica's index
  ("0"). Both become the container `ownbase-job-0`, and the job's unit replaces the replica's
  (`CompiledNames.AcceptedClash`, `Units.EarlierContainerIsLost`). `CompiledNames.NamesAreDistinct`
  shows that there is no other way for two containers to share a name.
- The pgBackRest repository volume is looked up under a name that leaves the replica out, so it is
  the mounted one if and only if the volume is not per replica
  (`PGBackRestLookup.RepoVolumeIsMounted`; internal/backup/pgbackrest.go:195-200).
  `PGBackRestLookup.AcceptedRepository` is a configuration where the name found is that of no volume.
- A production restore stops every replica of every service that requires the database, but no
  scheduled job that runs in such a service (`PGBackRestLookup.JobsAreNotStopped`).
- A rotation request runs on the daemon's own context and outlives the client that posted it
  (cmd/ownbased/main.go:659-661). Beginning a rotation is safe for everything that can follow if and
  only if no finalize of another password is queued, or the Base's secret is unreadable anyway
  (`RekeyProtocol.BeginIsSafeWhen`, for every state of every run begun like that). Otherwise the new
  password can be added and escrowed and then be removed by the old finalize, without any failure
  (`RekeyProtocol.DisorderLosesTheVault`). A client that stops right after its escrow leaves such a
  state (`RekeyProtocol.AbandonedRekey`); resuming with the escrowed password is safe from every state
  (`RekeyProtocol.ResumeIsSafe`).
- The backup secret is rewritten with a plain file write (cmd/ownbased/backup_scheduler.go:275-303),
  so a write that is cut short can leave it unreadable. Safety of the Base's own password therefore
  holds exactly while no such write was cut short; the vault's password is safe regardless.
- The edit of the `core.backup:` block takes entries to start at two blanks and fields at four
  (internal/backup/configure.go:33-44). Every value that is set can be read back if and only if what is
  there is laid out like that (`YamlReader.PutGet`). The commands that add, update and remove services
  write ownbase.yaml through the serializer, which indents by four (internal/schema/parse.go:41-44,
  cmd/ownbasectl/service.go:146); `backup setup` on such a file (cmd/ownbasectl/base_backup.go:213) adds
  a second `backup:` header that is no entry of the core: mapping any more
  (`YamlReader.IndentedByFour`).
- The comment on FirstBackup says that it is never cleared (internal/backup/backup.go:203-206). A
  failed snapshot clears it, with everything else (internal/backup/backup.go:226-229): it is the
  first success since the last failed snapshot (`BackupStatus.FirstBackupMeans`), and no recorded time
  ever moves back if and only if every snapshot that fails does so while there is nothing on record
  (`BackupStatus.TimesAdvance`).
- A replica and a job find their secrets files through a comment line, which loses blanks at the end
  of a service's name. A unit is restarted for exactly the files it should be if and only if the name
  on its line, if it has one, ends in no blank (`Fingerprints.RotationRestarts`);
  `Fingerprints.AcceptedBlank` is a configuration in which it does.
- The upstreams of a host are all the replicas of the one service that claims it if and only if that
  service has a name or runs once (`CompiledRoutes.AcceptedRoute`); validation does not refuse the
  empty name. `CompiledRoutes.AcceptedUnnamed` is a configuration with a replica that is never
  reached, and `CompiledRoutes.RouteUpstreams` has the condition for configurations of any kind.
- An environment entry is written into its unit as it stands, in double quotes if there is a space in its
  value (internal/compiler/render.go:99-109). Systemd's reader gives it back if and only if it has no
  quote, backslash or stray blank, or, when it is put in quotes, no double quote or backslash
  (`Environment.EnvLineReadsBack`); `Environment.QuotesAreLost` is an entry that arrives changed.
- Two scans that finish close together can lose the newer result for good
  (`ScanChannel.OverlapLosesTheNewest`): that is what a put-back that finds the buffer filled does
  while nothing else is as new, and nothing else does it (`ScanChannel.CoveredStep`).
- A save of the vault that fails leaves the agent's keyring behind its in-memory copy
  (`Agent.FailedSaveLeavesAKey`; internal/agentd/server.go:237-241). They still match if and only if
  the request leaves the Base its key, or other Bases hold the keys it drops and brings
  (`Agent.FailedSave`), and the next unlock, put or delete that succeeds puts them in step again
  (`Agent.KeyringSinceReload`).

## Model

| member | source | states |
|---|---|---|
| Schema.EffectiveDomains | internal/schema/config.go:717-733 | one pass with a set of those seen yields the cleaned hostnames, each where it first occurs |
| Schema.EffectiveDomainsMeans | internal/schema/config.go:711-733 | the result is exactly the non-blank entries of domain: and domains:, without surrounding blanks, each once |
| Schema.EffectiveDomainsInOrder | internal/schema/config.go:711-733 | they come in the order in which they first come up, that of domain: before those of domains: |
| Schema.ContainerNamesDistinct | internal/schema/config.go:860-865 | the name of a replica determines its index |
| Schema.ComputeTunnelPorts | internal/schema/config.go:802-821 | the port map is a function of the services, whatever order the map is iterated in |
| Schema.PortsInjective | internal/schema/config.go:783-820 | no two containers get the same loopback port, in any configuration at all |
| Schema.PortsDomain | internal/schema/config.go:768-779 | exactly the containers of services with a port get one, and it is at least the base port |
| Schema.PortOf | internal/schema/config.go:784-787 | when no names collide, instance j of the i-th of n services with a port is published on base + i + j*n |
| Schema.PortsStable | internal/schema/config.go:781-791 | changing the replicas of one service renumbers no container of any service that exists before and after |
| Schema.ValidateReplicaNameCollisions | internal/schema/config.go:1072-1098 | accepts a configuration if and only if no container name and no volume name is claimed twice, within or across services |
| Schema.ClaimedOnce | internal/schema/config.go:1066-1071 | in an accepted configuration a container or volume name determines its service and its position |
| Containers.BuildContainer | internal/compiler/build.go:180-308 | the statement-by-statement build gives the container of one instance |
| Containers.BuildJobContainer | internal/compiler/build.go:314-345 | a job's container is its service's, without routing, probe, volumes, build provenance or replica identity |
| Containers.BuildVolumes | internal/compiler/build.go:145-176 | the compiler creates exactly the volumes that validation checks for collisions |
| Containers.ContainerNetworks | internal/compiler/build.go:268-290 | a container joins its own network, those of the services it requires, and the internal one, sorted and each once |
| Containers.OwnNetworks | internal/compiler/build.go:347-349 | two services have the same network if and only if their names differ in nothing but case, and none has the internal one |
| Containers.MountsAreCreated | internal/compiler/build.go:220-234 | every named volume an instance mounts is one its service creates |
| Containers.CreatedAreMounted | internal/compiler/build.go:145-176 | every volume a service creates is mounted by one of its instances |
| Routes.BuildRoutes | internal/compiler/build.go:95-141 | the loops over the map of pointers give one route per claimed host, sorted, to the sorted containers of the first owner that claims it |
| Routes.WinnerMeans | internal/compiler/build.go:116-125 | a host is claimed if and only if it has a winner, which is the owner of the first claiming container |
| Compiler.Build | internal/compiler/build.go:14-88 | for every iteration order of services, jobs and upstream sets the model equals one function of the configuration |
| Compiler.SortedAlready | internal/compiler/build.go:77-79 | sorting the routes by host again changes nothing |
| Compiled.ContainersAre | internal/compiler/build.go:19-61 | the containers are exactly one per service instance and one per job whose service exists |
| Compiled.EveryInstance | internal/compiler/build.go:19-27 | an instance is compiled if and only if its index is below the declared number of replicas, or 0 when none is declared |
| Compiled.EveryJob | internal/compiler/build.go:45-61 | a job is compiled if and only if its service is declared |
| Compiled.MeetingPoints | internal/compiler/build.go:268-290 | apart from the internal network, two service containers share a network if and only if both are of, or require, one and the same service |
| Compiled.TimersAre | internal/compiler/build.go:56-75 | the timers are exactly one per compiled job, with its schedule, persistent unless the job says otherwise; the ACME address is the configured one |
| Compiled.NetworksAreClosed | internal/compiler/build.go:29-67 | a network is declared if and only if some container joins it, each once and in order |
| Compiled.VolumesAreClosed | internal/compiler/build.go:37-37 | a volume is declared if and only if some container mounts it |
| CompiledNames.NamesAreDistinct | internal/schema/config.go:926-945 | under validation's rules container names are distinct if and only if no job is called by the index of a replica of a service "job" |
| CompiledNames.AcceptedClash | internal/compiler/build.go:321-321 | a configuration that validation accepts and that compiles to two containers of one name |
| CompiledRoutes.RouteHosts | internal/compiler/build.go:105-118 | a host has a route if and only if a public service with a port and an instance claims it; hosts are strictly increasing |
| CompiledRoutes.RouteUpstreams | internal/compiler/build.go:90-139 | behind a host are exactly the replicas of the least-named service that claims it, strictly sorted, if and only if that service has a name, or runs once while no other claimant is called as its container is |
| CompiledRoutes.UnnamedRoute | internal/compiler/build.go:109-114 | behind the host of a service with an empty name are its first replica and the replicas of a claimant called as that container is |
| CompiledRoutes.AcceptedRoute | internal/compiler/build.go:90-139 | in an accepted configuration the upstreams are exactly the replicas of the claiming service if and only if it has a name or runs once |
| CompiledRoutes.AcceptedUnnamed | internal/compiler/build.go:109-114 | a configuration that validation accepts and in which the second replica is never reached |
| Environment.ReplicaEnvironment | internal/compiler/build.go:247-254 | a process in replica i finds its index i and the declared number of replicas, and every other variable as its service declares it last |
| Environment.ReplicaAddress | docs/ownbase-yaml.md:181-181 | a replica's container is called "ownbase-", its service and the value of that index, which is how a companion of the same index is addressed |
| Environment.JobEnvironment | internal/compiler/build.go:339-343 | a job finds its own variables first and its service's otherwise, and no replica's |
| Render.RenderContainer | internal/compiler/render.go:49-212 | the builder's text is the unit's lines, each a key and a value from the model, in this order |
| Render.UnitValues | internal/compiler/render.go:95-140 | a unit has a publish line or a provenance comment only from the part of the renderer meant to write it |
| Environment.EnvLineReadsBack | internal/compiler/render.go:99-109 | by systemd's quoting rules the line of an environment entry reads back as that entry alone if and only if the entry has no character that does not stand for itself there |
| Environment.QuotesAreLost | internal/compiler/render.go:103-109 | an entry that reads back as another one |
| UnitSettings.UnitDirectives | internal/compiler/render.go:49-212 | reading any directive off the lines of a rendered unit gives the values of the container's field for it, all of them in order and nothing else |
| UnitSettings.ServiceUnit | internal/compiler/build.go:180-308 | from declaration to text: the unit of an instance says the declared user, capabilities, security options, memory and cpus, its image and name, and that it is hardened, started at boot and restarted |
| UnitSettings.ServiceProvenance | internal/compiler/render.go:111-157 | its comments say the declared ref, dockerfile, context, probe and sorted requirements |
| UnitSettings.ServiceMounts | internal/compiler/build.go:220-245 | it mounts each declared volume at its path, a replica its own unless the declaration says otherwise, or the data volume, and the socket directory of a service with access to the API |
| UnitSettings.ServiceNetworks | internal/compiler/render.go:66-68 | it joins the network of its service, those of the services required and the internal one, and no other |
| UnitSettings.ServiceVariables | internal/compiler/render.go:99-109 | read off the unit's lines: every replica's own index and the number of replicas, every other variable as declared last |
| UnitSettings.JobUnit | internal/compiler/build.go:314-345 | from declaration to text: the unit of a job runs its command once, with its service's image, rights, limits and requirements, mounts and publishes nothing, and is not started at boot |
| UnitSettings.JobNetworks | internal/compiler/build.go:314-320 | a job joins the networks of its service |
| UnitSettings.JobVariables | internal/compiler/build.go:339-343 | read off the unit's lines: the job's own variables first and the service's otherwise |
| UnitSections.DirectivesInPlace | internal/compiler/render.go:53-209 | every directive of a unit stands below the header of the section systemd reads it in, and below no other |
| UnitText.ParseQuadletCommentLine | cmd/ownbased/main.go:1681-1689 | the loop returns what follows the prefix on the first line that has it, or nothing |
| UnitText.CommentsReadBack | internal/compiler/render.go:126-140 | reading a unit's comments gives the service of a replica and of a job, without blanks at the end, and nothing on other units |
| UnitText.PublishLineFound | internal/bridge/quadlet.go:33-38 | grep finds exactly the publish line of a unit that publishes, and nothing in any other unit |
| Units.RenderUnits | internal/compiler/render.go:18-41 | the four loops fill the map in order, a later file replacing an earlier one of its name |
| Units.UnitsHoldTheirOwn | internal/compiler/render.go:23-41 | with distinct container names every container's file holds its own text |
| Units.EarlierContainerIsLost | internal/compiler/render.go:23-26 | of two containers of one name only the later one's text is kept |
| Tunnel.ParseActualHostPorts | internal/bridge/quadlet.go:48-77 | the parsing loop, line by line, with every way a line is skipped |
| Tunnel.EntryOnLabelled | internal/bridge/quadlet.go:55-75 | a line that grep prints parses to the stem of its file and the port on it |
| Tunnel.PortsReadBack | internal/bridge/quadlet.go:40-47 | for unit files of any content in any order, parsing grep's output gives exactly the last valid port of each file, by stem |
| Tunnel.ContainerFilePort | internal/compiler/render.go:95-97 | the unit of a container publishes its tunnel port, and none if it has none |
| Tunnel.Discover | internal/bridge/discover.go:82-115 | the targets are the services with a port and a domain, in name order |
| Tunnel.TargetsAre | internal/bridge/discover.go:82-116 | the targets are exactly one per service with a port and a hostname, with that port, all its hostnames, the name of its primary container's file and the port assigned to that container |
| TunnelAgreement.TunnelAgrees | internal/bridge/discover.go:103-113 | compiling, rendering, reading the units and looking up a discovered target gives the port assigned to that service's primary container |
| TunnelAgreement.FilesAreInstalled | internal/compiler/render.go:23-26 | the units of distinctly named containers, one file each, are an installation |
| TunnelAgreement.RoundTrip | internal/bridge/discover.go:82-116 | the same from validation's rules alone, over the map of rendered files, listed in any order: a discovered target is found, and then with its assigned port, if and only if it is not the replicated service "job" beside a job "0" |
| TunnelAgreement.ListingExists | internal/bridge/quadlet.go:24-38 | every map of rendered files has such a listing |
| TunnelAgreement.OlderConfigurationApplies | internal/bridge/quadlet.go:3-18 | while an older configuration is applied, the port found is the one published by the applied container of the same name |
| TunnelAgreement.UnknownIsSkipped | cmd/ownbasectl/tunnel.go:173-191 | a target that no applied unit is named after is not found |
| TunnelAgreement.AllLocalHostnames | internal/bridge/discover.go:118-133 | the sorted union of all hostnames |
| TunnelAgreement.PlanBridge | cmd/ownbasectl/tunnel.go:168-216 | up to the first tunnel that does not open: a conflict is reported if and only if two published services claim one hostname, the failure if and only if none do; when all open, exactly the published targets are bridged and every hostname leads to the port published for its service |
| Fingerprints.AnnotateSecretsFingerprints | cmd/ownbased/main.go:1633-1666 | every file is annotated as if it were the only one, whatever the order |
| Fingerprints.AnnotatedSays | cmd/ownbased/main.go:1654-1664 | an annotated unit says all that the plain one says, and on one line more the fingerprints of its files in order |
| Fingerprints.RotationReaches | cmd/ownbased/main.go:1616-1632 | changing one secrets file changes the text of a unit if and only if the unit has it among its sources |
| Fingerprints.RotationRestarts | cmd/ownbased/main.go:1616-1632 | whatever file is rotated, a compiled unit changes just if it is a replica of that service, or a job that runs in it or is called so: if and only if the name on its comment line, where it has one, ends in no blank |
| Fingerprints.ReplicaReadsItsService | cmd/ownbased/main.go:1638-1643 | a replica reads its service's file if and only if the name ends in no blank |
| Fingerprints.AcceptedBlank | cmd/ownbased/main.go:1638-1643 | an accepted configuration with a replica that does not read its service's file |
| SnapshotPaths.BuildPaths | internal/backup/volume.go:72-119 | the loops give the default paths, the entries of every wanted volume in order and the core volume, or the first volume without a mountpoint |
| SnapshotPaths.DedupPaths | internal/backup/volume.go:164-174 | repetitions are dropped and the order of first occurrences is kept |
| SnapshotPaths.EntryMeans | internal/backup/volume.go:148-161 | an entry names the mountpoint itself or a path below it, with or without a leading "./" |
| SnapshotPaths.SnapshotCovers | internal/backup/volume.go:55-119 | a path is covered if and only if it is a default, the core volume or an entry of a wanted volume; it fails if and only if a wanted volume has no mountpoint, and names the first such volume and its service |
| SnapshotPaths.WantedIsAskedFor | internal/backup/volume.go:80-106 | a snapshot resolves exactly the volumes of declarations that ask for a backup, and of the data_path shorthand |
| SnapshotPaths.WantedIsCompiled | internal/backup/volume.go:121-146 | every volume a snapshot resolves is one the compiler declares |
| SnapshotPaths.MountIsBackedUp | internal/backup/volume.go:123-133 | the volume an instance mounts for a declaration is in the snapshot if and only if the declaration asks for it, replica by replica |
| SnapshotPaths.DataIsBackedUp | internal/backup/volume.go:95-105 | the data volume of every replica is in the snapshot |
| PGBackRestLookup.ServiceVolumeMounts | internal/backup/pgbackrest.go:117-144 | the mounts searched are the named mounts the compiler gives the primary container |
| PGBackRestLookup.FindPGBackRest | internal/backup/pgbackrest.go:163-239 | the least-named service that archives decides; without one there is an error |
| PGBackRestLookup.ArchivesMeans | internal/backup/pgbackrest.go:168-173 | a service archives if and only if the first variable that names a repository host is not blank |
| PGBackRestLookup.EnvValueMeans | internal/backup/postgres_recovery.go:92-99 | a variable is read from the first entry of its name, without surrounding blanks, and is empty without one |
| PGBackRestLookup.FoundFields | internal/backup/pgbackrest.go:146-187 | stanza, superuser, database and data directory come each from their own variable, or the default |
| PGBackRestLookup.FoundVolumes | internal/backup/pgbackrest.go:195-216 | the volumes are those of the first declaration at the repository's path and of the first mount at the data directory, if there is one |
| PGBackRestLookup.FoundFails | internal/backup/pgbackrest.go:189-204 | the lookup fails if and only if the repository service is not declared or has no volume at the repository's path, and says which |
| PGBackRestLookup.FoundDependants | internal/backup/pgbackrest.go:218-234 | the dependants are exactly the other services that require the database |
| PGBackRestLookup.ReplicasAreStopped | internal/backup/pgbackrest.go:218-234 | a service container is among the units to stop if and only if its service requires the database: every replica, and no other |
| PGBackRestLookup.JobsAreNotStopped | internal/backup/pgbackrest.go:218-234 | no job's unit is among them |
| PGBackRestLookup.RestoreDatabase | cmd/ownbased/db.go:40-44 | from the configuration to the restore: what the lookup finds is restored, event by event as RestoreIntoProduction says; before the data directory is replaced, the unit of every instance of every service that requires the database, and the database's own, has been stopped and not started again |
| PGBackRestLookup.RestoreStopsThem | internal/backup/pgbackrest_restore.go:498-510 | the restore's list is exactly that list; its fallback adds nothing |
| PGBackRestLookup.DatabaseIsNoDependant | internal/backup/pgbackrest.go:218-221 | the database's own unit is not in the list, which RestoreIntoProduction requires |
| PGBackRestLookup.DataVolumeIsMounted | internal/backup/pgbackrest.go:206-216 | a data volume that is found is mounted at the data directory by the primary container and declared by the compiler |
| PGBackRestLookup.RepoVolumeIsMounted | internal/backup/pgbackrest.go:195-200 | the repository volume found is the one that is mounted if and only if it is not per replica |
| PGBackRestLookup.AcceptedRepository | internal/backup/pgbackrest.go:195-200 | an accepted configuration for which the repository volume reported is none that the compiler declares |
| RekeyProtocol.InvStep | internal/backup/rekey.go:79-161 | every step, failure, crash, backup and drill keeps the agreement of the three stores |
| RekeyProtocol.RekeySafety | cmd/ownbased/backup_scheduler.go:50-68 | in every state of every run whose rotations are begun in order the vault's password opens the repository, the Base's does unless a write of it was cut short, and a backup in flight holds one that does |
| RekeyProtocol.BeginIsSafeWhen | cmd/ownbased/main.go:659-662 | in every state of every such run, beginning a rotation is safe for all that can follow if and only if it is in order: no finalize of another password is queued, or the secret is torn |
| RekeyProtocol.ResumeIsSafe | cmd/ownbased/main.go:659-662 | in every state of every such run a rotation to the escrowed password is in order, so it is always safe to resume with it |
| RekeyProtocol.SecretHeld | cmd/ownbased/backup_scheduler.go:275-303 | on any path from a readable secret it stays readable if and only if no write of it was cut short, and its other entries never change |
| RekeyProtocol.DisorderLosesTheVault | cmd/ownbased/backup_scheduler.go:237-270 | from any sound state, whatever holds the slot, a rotation begun while a finalize of another password is queued can end with a vault that opens nothing, without another rotation being begun |
| RekeyProtocol.AbandonedRekey | cmd/ownbased/main.go:659-662 | a run without a failure or a torn write that reaches a state in which another rotation can be begun but is not in order |
| RekeyDaemon.Base.RekeyAdd | internal/backup/rekey.go:79-95 | the add phase takes only protocol steps; success means the new password opens the repository, and without failures it succeeds if the old one did |
| RekeyDaemon.Base.RekeyFinalize | internal/backup/rekey.go:99-161 | the finalize phase takes only protocol steps; success means one key is left, it opens with the new password, and the count of removed keys is right |
| RekeyDaemon.Base.RekeyBackupNow | cmd/ownbased/backup_scheduler.go:237-270 | one request under the slot, the secret swapped before the finalize check |
| RekeyDaemon.Base.WriteSecret | cmd/ownbased/backup_scheduler.go:275-303 | only the restic password changes, and only in a secret that could be read |
| RekeyDaemon.Base.KeyAdd | internal/backup/restic.go:263-281 | adds a key only with a password that opens, and none when it opens already |
| RekeyDaemon.Base.RunBackupRekey | cmd/ownbasectl/base_backup.go:705-738 | add, escrow, finalize, from any state in which it may be begun, with backups, drills and abandoned requests served in between; success leaves the three stores with the new password alone, and without failures it succeeds if the secret was readable |
| RekeyDaemon.Base.FinishSlot | cmd/ownbased/backup_scheduler.go:50-68 | a backup, a drill or a predecessor's phase that holds the slot runs to its end and frees it, by steps of an orderly path |
| RekeyDaemon.Base.ServeOthers | cmd/ownbased/backup_scheduler.go:237-270 | requests left in the queue are served in any order, with backups and drills between them, by steps of an orderly path |
| RekeyDaemon.RekeyAgain | internal/backup/rekey.go:118-160 | convergence: from every state of every orderly run in which it may be begun, a busy slot, queued requests and a half-removed keyring included, one rotation without failures succeeds if and only if the secret is readable |
| YamlEdit.SetCoreBackupConfig | internal/backup/configure.go:18-57 | the procedure computes the edit below, with the tracked block ends |
| YamlEdit.FreshBlock | internal/backup/configure.go:40-54 | a new block holds exactly the requested fields, one a line, in this order |
| YamlEdit.SetOrInsertField | internal/backup/configure.go:104-114 | the field is written into the block and the returned end is the one a fresh scan finds |
| YamlEdit.BlockRange | internal/backup/configure.go:87-100 | the block ends at the first line that is no deeper than its header and neither blank nor a comment |
| YamlReader.PutGet | internal/backup/configure.go:10-57 | for every document: every request without newlines is read back by the nesting reader if and only if the document is laid out by two and four blanks, without values on the two headers or below a field; a newline is never read back |
| YamlReader.PutGetFields | internal/backup/configure.go:10-57 | field by field: repo reads as requested, interval and verify_interval as requested if given, append_only as true or false as requested, and every field the request leaves out as before |
| YamlReader.NestsKept | internal/backup/configure.go:18-57 | an edit neither gives a document that layout nor takes it away |
| YamlReader.IndentedByFour | internal/schema/parse.go:41-44 | a file indented by four, as the serializer writes it: the value set is not read back, and the one that was there no longer is |
| YamlEdit.PutPut | internal/backup/configure.go:18-57 | a second edit of the same fields erases every trace of the first |
| YamlEdit.EditIdempotent | internal/backup/configure.go:18-57 | editing twice is editing once |
| YamlEdit.GetPut | internal/backup/configure.go:104-114 | writing what the block already says changes nothing |
| YamlEdit.EditFrame | internal/backup/configure.go:30-57 | outside the block nothing changes but missing headers; inside it only the first line of each requested field, and the missing fields follow |
| YamlEdit.PreparedShape | internal/backup/configure.go:20-42 | what is added around the block is nothing, a backup: header at the end of the core: block, or both headers at the end of the document, after a blank line if the last line is not one |
| Restore.Host.WaitForRecovery | internal/backup/pgbackrest_restore.go:350-390 | on the answers alone: it goes on while the database says it is in recovery, runs, has moved within the timeout and is not cancelled; it ends as recovered if and only if the answer is "f", as exited, stalled or cancelled in that order of precedence; what it was told is on the log turn by turn; it terminates by the position changes left and the stall budget left |
| Restore.VerdictMeans | internal/backup/pgbackrest_restore.go:350-390 | the verdict of a turn in terms of the answers of this turn and the ones before: the position last told, when it last changed, and the clock |
| Restore.StallMeans | internal/backup/pgbackrest_restore.go:376-381 | a stall is reported only after a full timeout without a change of position |
| Restore.BringBack.Dependants | internal/backup/pgbackrest_restore.go:439-452 | starts every dependant in order and does nothing else, and nothing the second time |
| Restore.BringBack.All | internal/backup/pgbackrest_restore.go:456-480 | the deferred cleanup: nothing after a restore that went through; otherwise a start of a database that is down, a look at it, and a start of every dependant if and only if it serves |
| Restore.RestoreIntoProduction | internal/backup/pgbackrest_restore.go:216-329 | the whole log of any run: the steps in order up to the first that fails, the answers of the wait, then the dependants and the backup, and after a failure the cleanup; it succeeds if and only if all steps went through, the wait ended as recovered and the database said what it is, and reports the backup as it went |
| Restore.RestoreSteps | internal/backup/pgbackrest_restore.go:238-329 | the steps alone, and in which of them the database is left down for the cleanup |
| Restore.RestoreCleanup | internal/backup/pgbackrest_restore.go:238-329 | what that means on the log of any run: all dependants down before the data directory is touched, none started unless the database was seen out of recovery since its last stop, each at most once, and a later start of a stopped database |
| Restore.StopOrder | internal/backup/pgbackrest_restore.go:238-262 | the database is asked to stop only after every dependant has stopped |
| Agent.LockedHasNoKeys | internal/agentd/server.go:321-327 | over every run, failures included, a locked agent has an empty keyring |
| Agent.KeyringInStep | internal/agentd/server.go:372-388 | while saves succeed, an unlocked agent's keyring is exactly the parseable keys of the stored profiles |
| Agent.FailedSave | internal/agentd/server.go:237-241 | after a put or delete that fails to save, a keyring that matched the vault still does if and only if the request leaves the Base its key, or other Bases hold the key it drops and the key it brings |
| Agent.KeyringSinceReload | internal/agentd/server.go:234-243 | over every run, failures included, the keyring is that of the vault when it was last reloaded, where it was in step with vault and store; so it is in step from each unlock, put or delete that succeeds up to the next write |
| Agent.FailedSaveLeavesAKey | internal/agentd/server.go:257-265 | a run in which a deleted Base's key can still sign |
| Agent.SecretsSurvive | internal/agentd/server.go:224-243 | over every run of reads, edits, puts and deletes with successful saves, a secret or a backup field is the last non-empty value written since the Base was deleted |
| Agent.PlainFieldsFollow | internal/agentd/server.go:224-243 | and each of the other fields is that of the last put since then; the public key follows the private key |
| Agent.AnswersAfter | internal/agentd/server.go:205-256 | what a get and a get of the backup credentials answer after any such run, field by field |
| Agent.RedactedRoundTrip | internal/vault/vault.go:230-318 | a redacted profile shows no secret and everything else; written back with any other field edited it changes no secret and keeps every edit, except that an emptied backup field or public key comes back |
| Agent.Server.Dispatch | internal/agentd/server.go:195-292 | every request moves the machine by one step and is answered from the unlocked copy; a malformed one or one to a locked agent is refused and does not count as use |
| Agent.Server.Unlock | internal/agentd/server.go:294-317 | unlocking moves the machine by one step and sets the idle timeout only to a non-negative value |
| Agent.Server.LockVault | internal/agentd/server.go:321-327 | locking drops the vault and every key |
| Agent.Server.ReloadKeyring | internal/agentd/server.go:374-388 | the loop rebuilds exactly the parseable keys, in any order |
| BackupStatus.RestorableIsEarned | internal/backup/verify.go:92-119 | Restorable if and only if some drill passed every check and since then no drill finished and no snapshot failed |
| BackupStatus.RunIntegrityChecks | internal/backup/verify.go:144-179 | the checks are the repository's, one per path and the database's, in this order; all pass if and only if repository, paths and database are proved |
| BackupStatus.LatestSnapshotID | internal/backup/restic.go:137-171 | the drill restores the first of the newest snapshots of the whole list, and there is one if and only if the list is not empty |
| BackupStatus.StatusFile.RunBackup | internal/backup/backup.go:212-275 | which fields a snapshot writes, carries over or forgets |
| BackupStatus.StatusFile.PruneNow | internal/backup/backup.go:285-316 | which fields a prune writes |
| BackupStatus.StatusFile.VerifyRestore | internal/backup/verify.go:60-119 | which fields a drill writes, and that one that could not run writes none |
| BackupStatus.FirstBackupMeans | internal/backup/backup.go:203-275 | FirstBackup is the first success since the last failed snapshot |
| BackupStatus.RecordMeans | internal/backup/backup.go:212-316 | since the last failed snapshot: the last backup and its id are those of the last snapshot, the last drill and the last prune those of the last that went through, and the error is that of the last call that wrote the file |
| BackupStatus.TimesAdvance | internal/backup/backup.go:226-275 | over a whole run no recorded time moves back and FirstBackup stays if and only if every snapshot that fails does so before anything else has gone through since the last one that failed; FirstBackup is at most LastBackup whatever fails |
| BackupStatus.FailedSnapshotForgets | internal/backup/backup.go:226-229 | over any run, nothing that came before a failed snapshot has an effect on any later record |
| Diff.UnifiedDiff | cmd/ownbasectl/configrepo.go:258-294 | the printed lines are the marked lines of both documents; both can be read back off them |
| Diff.DiffReplays | cmd/ownbasectl/configrepo.go:258-294 | keeping the common and the removed lines gives the old document, keeping the common and the added ones the new, for any lengths |
| Diff.AgreesOnce | cmd/ownbasectl/configrepo.go:258-294 | a line is never shown as removed and, right after, as added: where the documents agree it is shown once |
| Shell.QuoteRoundTrip | cmd/ownbasectl/create.go:692-694 | by the shell's quoting rules a quoted value reads back as the one word it was |
| Shell.EnvPrefixedCommand | cmd/ownbasectl/create.go:681-690 | for any map order, reading the line gives the environment and then the command, if and only if the command begins with neither a blank nor an assignment |
| Shell.StartsPlainlyMeans | cmd/ownbasectl/create.go:681-690 | those are exactly the commands that are read as their own text |
| ScanChannel.AppliedNeverOlder | cmd/ownbased/main.go:1022-1030 | under any number of senders the time of the applied result never goes back |
| ScanChannel.CoveredStep | cmd/ownbased/main.go:1734-1759 | after a step something as new is there if and only if a new scan brought it, or it was there and the step is not a put-back that finds the buffer filled while nothing else is as new |
| ScanChannel.LosesNothing | cmd/ownbased/main.go:1747-1754 | a step keeps everything that was covered if and only if it is not such a put-back |
| ScanChannel.CoveredAfter | cmd/ownbased/main.go:1729-1733 | at any point of any run something as new is there if and only if it was brought at some point and no step since then has lost it |
| ScanChannel.NothingNewerLost | cmd/ownbased/main.go:1729-1733 | whatever a run has once covered stays covered if and only if none of its steps is such a put-back |
| ScanChannel.NewestIsApplied | cmd/ownbased/main.go:1022-1065 | when all is quiet the applied result is as new as one that was sent if and only if one as new was sent and never lost since; with one scan at a time it is so for every result |
| ScanChannel.OverlapLosesTheNewest | cmd/ownbased/main.go:1747-1754 | a run of two overlapping senders that loses it |
| ScanChannel.SenderReturns | cmd/ownbased/main.go:1735-1759 | every own step of a lone sender brings it closer to returning |
| ScanChannel.Handover.SendVulnResult | cmd/ownbased/main.go:1734-1759 | the retry loop, with the main loop coming round between any two selects, is a run of that protocol and ends |
| Order.SortForgetsOrder | internal/compiler/build.go:369-376 | sorting gives the same slice for any order of the same strings |
| Order.SortedKeys | internal/compiler/build.go:369-376 | the keys of a map, collected in any order, come out strictly increasing |

## Left out

- Running anything: podman, systemctl, git, restic, ssh, HTTP handlers and streaming trailers are answers that may be failures.
- Formats and cryptography: YAML and JSON parsing, age, KDBX and SHA-256.
- renderCaddyfile, renderCompose and the text inside network, volume and timer units beyond their being written.
- Render.RenderContainer: the `%q` verb is a parameter, so how systemd splits the arguments of an Exec= line again is not covered.
- Environment.EnvLineReadsBack: of systemd's escapes the reader knows that a backslash makes the next character stand for itself; specifiers are not covered.
- UnitSettings.UnitDirectives: a value is taken to hold no line break, and the reader knows directives by how their lines begin.
- Containers.ContainerNetworks: strings.ToLower is modelled on ASCII letters.
- Schema.ValidateReplicaNameCollisions: the rest of Validate is modelled only as far as the properties need it, as predicates.
- Tunnel.ContainerFilePort: a port is taken to fit 64 bits, and no value in a unit to contain a line break; stems contain no slash, colon or line break.
- TunnelAgreement.PlanBridge: the local address of a tunnel is represented by the host port it leads to.
- Fingerprints.RotationRestarts: the path of a secrets file is represented by the name it is made from.
- SnapshotPaths.BuildPaths: filepath.Join is a parameter; a negative replica count, which validation refuses and the code would fail on, gives no volumes.
- YamlReader.PutGet: the reader nests block mappings by indentation; quoting and comments in values, anchors, flow and multi-line values, tabs and carriage returns are not covered, and of two equal keys it takes the first.
- PGBackRestLookup.RestoreDatabase: checking the requested target against the repository, and the scratch restore.
- RekeyProtocol.RekeySafety: nothing else writes RESTIC_PASSWORD; a restic process that outlives a stopped daemon is not modelled; the compare-and-swap on the backup slot is one step; one client is at work at a time, though requests of those before it may still be queued or running; the client begins only rotations that are in order, which BeginIsSafeWhen shows to be exactly what is needed.
- RekeyDaemon.Base.RekeyFinalize: the listing always marks the session's own key; the protocol also covers the case of an unmarked single key.
- Restore.RestoreIntoProduction: the messages, the target time and the scratch restore; resolving the two volumes is one yes or no each, and so is what describeRecovered asks.
- Restore.Host.WaitForRecovery: the replay position changes finitely often and the clock does not run backwards.
- Agent.Server.Dispatch: unlock is atomic; saving a vault that another program changed in the meantime, idle locking, the socket and its lock file are not modelled.
- BackupStatus.RunIntegrityChecks: the details of a check are left out.
- BackupStatus.RestorableIsEarned: loads and saves of the status file succeed.
- ScanChannel.Handover.SendVulnResult: the loop is run with one sender; overlapping senders are covered by the protocol.
- Checkup findings, status printing, the desktop application, prompts, dry runs, authorization tables, flag merging and version comparison: single-branch facts.
