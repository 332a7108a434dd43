# Mergen: a verified model of the VM control plane and its runtime loops

Mergen runs Firecracker microVMs: a daemon keeps a record, a lock file and a systemd unit per VM, hands
out guest addresses and host ports, a TLS forwarder routes server names to VMs, and a small init runs
inside each guest. This project models the decisions of those programs in Dafny and proves what they
keep over every input and every run. `dafny verify dfyconfig.toml` checks all of it.

## How it is laid out

- `Text`, `Sorting`, `Maps`, `Ipv4`, `Model`: strings, sorting by a comparison, counting keys, addresses,
  the stored record.
- `Allocator`: first-fit guest addresses and host ports. The loops are methods proved against functions.
- `Store`: paths, and a disk whose every intermediate state is kept, so that a statement about all states
  of the history is a statement about a crash at any point.
- `ControlPlane`: the API calls as a step machine. A run is any sequence of actions: begin a call, let a
  call take its next step (with whatever error, random id or listing order the world picks), let a unit
  exit, crash the daemon. Acquiring a lock is two steps, opening the file and `flock` on what was opened,
  and removing a directory takes the lock files and records inside it along, whichever VM they belong
  to, so mutual exclusion and the safety of records rest on where the roots lie.
- `LockSafety`, `Effects`, `ResourceSafety`, `StaleStart`, `Layouts`, `DoubleDelete`: what holds in every
  run, and what does not. `Lifecycles`, `Outcomes`, `Creates`: what each call does in the end, alone and
  without faults, from every reachable state. `Scenarios` holds the pieces of the runs that show what does not.
- `Shell`, `EnvFile`, `InitCommand`: a reader for the part of the POSIX shell language (sections 2.2 and
  2.3 of the Shell Command Language, POSIX.1-2017) that the program writes, and round trips through it.
- `FirstWins`, `Resolver`, `ResolverCache`: the server-name index, and its cache under concurrent lookups.
- `Forwarder`: connection tracking and shutdown as a step machine; the server's methods are runs of it.
  `Shutdown`: that every shutdown can still return, and that both ways of returning exist.
- `Supervisor`: PID 1 reaping, against a kernel that follows an arbitrary schedule.
- `BootArgs`, `HostNetwork`: boot arguments and gateways, and what the host scripts make of a VM's
  variables. `HttpPort`: the inferred HTTP port.

## What came out as false, and when it is true

- Stored VMs need not have different guest addresses: nothing holds creates apart between listing the
  records and writing a new one. `OverlappingCreatesCollide` gives such a run for every address block.
  `SerialCreatesDisjoint` proves the promise when creates do not overlap in that window (everything else
  may interleave), and `WriteClashesOnlyWithUnlisted` says exactly which records a write can clash with.
- A start or stop can act on a VM that has been deleted, because existence is checked before the lock is
  taken: `StartAfterDelete`. `ActsOnStoredExactly` says when it does not: exactly when the VM is still
  stored at the moment the lock is taken, so checking again under the lock would repair the code. For a
  caller, `StoredWithoutDeletes`: no delete of the VM in flight from the existence check on.
- Nothing keeps the run root or the config root out of the directories a delete removes. `LockingExact`,
  `DeletesExact` and `RecordsExact` show that each guarantee holds for exactly the layouts where they
  are kept out.
- Allocated host ports need not be ports, because the configured range is not checked: `HostPortsExact`.
- The out-of-ports answer is wrong when the configured range contains port 0: `ExhaustionExact`.
- The derived gateway can be another guest's address in blocks shorter than /24: `GatewaysClearExactly`.
- The address `mergen-net-setup` puts on the tap need not be the gateway the VM boots with. A request can
  set `MGN_HOST_IP`, which moves the tap and never the boot argument (`HostIpMovesOnlyTap`), or replace
  `MGN_GUEST_IP`; and with neither, they differ for a guest ending in 1. `TapIsGatewayExactly` gives the
  exact condition over all variables, `TapOfVmExactly` over all requests.
- The environment file sources back only when keys are shell names: `EnvTextSourcesBack`.
- The README of the repository promises a "Per-VM lock file to prevent lifecycle race conditions"; the
  code holds it within one start, stop or delete, after the existence check, and not in a create.

## Model

| member | source | states |
|---|---|---|
| Allocator.AllocateGuestIp | internal/network/allocator.go:124-159 | The loop over 32-bit counters returns what first fit over the candidates gives, with the same errors; the branch that skips addresses outside the block is dead. |
| Allocator.Scan | internal/network/allocator.go:146-158 | The search loop finds the first candidate nobody holds, or reports none. |
| Allocator.AddressAtHost | internal/network/allocator.go:140-151 | Network plus host number never wraps around 32 bits, so the candidates are the addresses of the block, down to /0. |
| Ipv4.HostInBlock | internal/network/allocator.go:140-151 | The sum stays below 2^32 and inside the block for every host number of every block. |
| Ipv4.ContainsExactly | internal/network/allocator.go:140-151 | The block contains exactly the numbers from its network address up to its size. |
| Allocator.GuestAddressIsLowestFree | internal/network/allocator.go:124-159 | The result is the lowest address from offset 2 to the last but one that no listed VM holds, found within as many steps as there are held addresses, plus one; failure means all are held. |
| Ipv4.AddressOfNumber | internal/network/allocator.go:188-200 | Splitting a 32-bit number into bytes and joining them gives it back. |
| Ipv4.ParseRender | internal/firecracker/config.go:84-96 | Reading dotted decimal gives back the address printed, so rendering is injective and used addresses can be compared as text. |
| Ipv4.RenderParse | internal/firecracker/config.go:84-96 | Text that parses is the canonical text of its address. |
| Allocator.NextFreePort | internal/network/allocator.go:111-122 | The loop returns the first port of the range outside both sets, 0 for none. |
| Allocator.AllocatePorts | internal/network/allocator.go:53-109 | The loop returns the bindings, or the first error in request order, that the turn-by-turn function gives. |
| Allocator.PortsExact | internal/network/allocator.go:53-109 | Success: a permutation of answers to all requests (fixed ports honoured, automatic ones lowest free at their turn, protocol normalised), strictly increasing by host port and clear of existing ports. Failure: no such answers exist. |
| Allocator.AssignExact | internal/network/allocator.go:64-102 | Turn-by-turn assignment yields a list exactly when that list answers every request in turn. |
| Allocator.ProtocolExact | internal/network/allocator.go:72-78 | A request with ports in range is refused for its protocol exactly when that is neither blank nor tcp or udp in some mixture of cases with blanks around; the answer is in lower case, tcp for a blank one. |
| Allocator.ExhaustionExact | internal/network/allocator.go:80-86 | The out-of-ports answer is right for all taken sets exactly when port 0 is outside the configured range. |
| Allocator.HostPortsExact | internal/network/allocator.go:80-86 | While the listed VMs hold valid ports, every port handed out lies in 1 to 65535, for all requests, exactly when the configured range is empty, starts at 0 or consists of ports. |
| Allocator.Allocate | internal/network/allocator.go:37-51 | Address first, then ports, first error wins. |
| Allocator.AllocationClear | internal/network/allocator.go:37-51 | A successful allocation has an address of the block and shares neither address nor port with any listed VM. |
| Store.LockFileSurvives | internal/store/fs_store.go:275-292 | For UUID ids, deleting a VM removes another VM's (or its own) lock file exactly when the run root itself lies inside a removed directory. |
| Store.RecordSurvives | internal/store/fs_store.go:260-270 | Deleting a VM removes another VM's record exactly when the config root itself lies inside a removed directory. |
| Store.Disk.WriteAtomic | internal/store/fs_store.go:322-351 | At every crash or failure point the target holds its old content or all of the new, and no other file that is not temporary changes. |
| Store.Disk.SaveVm | internal/store/fs_store.go:54-96 | Every state passed through is the old one with the first few writes done, in order; success means all of them and no temporary file left, and a disk without faults gives success for every valid id. |
| Store.SavedFiles | internal/store/fs_store.go:75-92 | A finished save leaves each part in the file of its name (vm.json, meta.json, hooks.json, env), those not given as they were, and no other file changed, temporary ones included. |
| Store.SaveIsCrashSafe | internal/store/fs_store.go:75-92 | In each such state every target is old or complete, nothing else changed, and a new metadata file stands beside the new vm.json. |
| Store.FreshSaveExistsComplete | internal/store/fs_store.go:98-111 | For a fresh id, a VM that exists has complete vm.json and metadata. |
| Store.Disk.RemoveAll | internal/store/fs_store.go:260-270 | Removal of a tree in any order keeps everything outside it at every point. |
| Store.Disk.DeleteVm | internal/store/fs_store.go:245-273 | Success removes exactly the VM's directories (data kept on request) and the VM no longer exists; for a missing VM or a malformed id nothing is touched; a disk without faults gives success or not-found; other files survive at every crash point. |
| LockSafety.OneCallPerVm | internal/manager/service.go:443-462 | In every run, at most one call is in a VM's critical section. |
| LockSafety.MutualExclusion | internal/lock/lock.go:16-47 | Two calls in the critical section of one VM are the same call, by the lock file they both opened. |
| Layouts.LockingExact | internal/store/fs_store.go:260-286 | At most one call is in a VM's critical section in every run, exactly when no VM directory contains the run root. |
| Layouts.RecordsExact | internal/store/fs_store.go:260-270 | In every run only a delete of a VM, in its critical section, removes its record, exactly when no VM directory contains the config root. |
| Effects.EffectsUnderLock | internal/manager/service.go:145-261 | In every run, a step that removes a record, or changes a unit that does not exit or restart by itself, belongs to the one call inside that VM's critical section. |
| Effects.EffectsFit | internal/manager/service.go:58-261 | In every run only a delete of a VM removes its record and only its create writes it, a stored record never changes, only a start of a VM starts its unit, and only a stop or delete of it stops it. |
| Outcomes.StartStopOutcome | internal/manager/service.go:145-211 | From every reachable state in which the VM is stored and unlocked, a start or stop alone and without faults ends with the unit active or inactive, the lock free, and nothing else changed but that the VM has a lock file. |
| Outcomes.DeleteOutcome | internal/manager/service.go:213-261 | Likewise a delete, with or without data retained, ends with the record and directory gone, the unit inactive, one success reported, the lock free, and every other VM as before. |
| Outcomes.BusyOutcome | internal/manager/service.go:443-462 | An operation on a VM whose critical section is occupied changes nothing. |
| Outcomes.MissingOutcome | internal/manager/service.go:150-156 | An operation on a VM that is not stored changes nothing. |
| Outcomes.FaultEnds | internal/manager/service.go:164-256 | A fault inside the critical section, other than in the stop a delete makes, leads to the release with no success reported and no record removed. |
| Outcomes.FaultBeforeLock | internal/manager/service.go:150-162 | A fault before the lock ends the call and changes nothing else. |
| Outcomes.FaultInCreate | internal/manager/service.go:88-139 | A fault in a create ends it; that step writes no record and takes none back, so a create that fails later leaves its VM stored. |
| Outcomes.LateDeleteEnds | internal/manager/service.go:232-251 | In every run a delete that finds the record gone under the lock stops nothing, removes nothing and reports no success. |
| Creates.RecordAsRequested | internal/manager/service.go:93-130 | In every run the record a create is about to save, and has saved, carries the request's tags and metadata, ports that answer the request's in turn, and the lowest address free of the VMs listed. |
| Creates.CreateOutcome | internal/manager/service.go:58-143 | From every reachable state a create alone and without faults, reading the directories in any order, ends with its VM stored as requested and its unit active exactly when auto-start was asked for, everything else as before; or, when the allocator refuses, with nothing changed. |
| Effects.LocksHeldExactly | internal/lock/lock.go:16-47 | In every run, crashes included, a call holds a lock exactly while it is inside the critical section under that lock: none is left behind. |
| Effects.ConflictExact | internal/manager/service.go:443-462 | In every run, an attempt to lock a VM that meets no error is refused exactly when some call is inside the critical section of the same VM, and otherwise enters it. |
| LockSafety.AtMostOneDelete | internal/manager/service.go:213-261 | In every run, no VM's delete succeeds (and fires its event) twice; it was saved before, and is never stored again. |
| DoubleDelete.DeletesExact | internal/manager/service.go:213-261 | In every run no VM's delete succeeds (and fires its event) twice, exactly when no VM directory contains the run root. |
| LockSafety.RunKeeps | internal/manager/service.go:58-261 | The invariant behind these holds over any run, crashes included. |
| ResourceSafety.SerialCreatesDisjoint | internal/manager/service.go:88-130 | When creates do not overlap between listing and writing, stored VMs always have different guest addresses and disjoint host ports. |
| ResourceSafety.SerialCreatesFit | internal/network/allocator.go:140-158 | In such runs at most block size minus three VMs are ever stored. |
| ResourceSafety.ListingsComplete | internal/store/fs_store.go:225-243 | In every such run, a create about to write has in its listing every record stored at that moment. |
| ResourceSafety.WriteClashesOnlyWithUnlisted | internal/manager/service.go:88-130 | In any run, a write keeps stored VMs disjoint exactly when no record missing from its listing clashes with the new one. |
| ResourceSafety.OverlappingCreatesCollide | internal/manager/service.go:88-130 | For every block, two overlapping creates end with the same guest address. |
| StaleStart.StartAfterDelete | internal/manager/service.go:145-176 | For every configuration some run starts the unit of a VM whose delete has succeeded. |
| StaleStart.ActsOnStoredExactly | internal/manager/service.go:145-211 | In every run, whatever happens between taking the lock and changing the unit, a start or stop finds its VM stored at the change exactly when it was stored as the lock was taken. |
| StaleStart.StoredUntilDeleted | internal/manager/service.go:150-158 | In every run, a VM found stored is stored later exactly when no delete of it has got to its record in between. |
| StaleStart.StoredWithoutDeletes | internal/manager/service.go:184-196 | In every run, a VM found stored stays so as long as no delete of it is in flight. |
| Shell.EscapersRead | internal/store/fs_store.go:374-377 | In any context both escapers' output reads as exactly the characters escaped, as part of the current word. |
| Shell.EscapersAgree | cmd/mergen-init-snapshot/main.go:706-711 | For every string without NUL the two escapers' outputs lex to the same single word, standing for the string. |
| InitCommand.ShellCommandLine | cmd/mergen-init-snapshot/main.go:695-704 | The loop renders the quoted arguments joined by blanks. |
| InitCommand.CommandLineReadsBack | cmd/mergen-init-snapshot/main.go:695-711 | The shell reads the command line back as exactly the arguments, if and only if none holds NUL. |
| InitCommand.EqualStringSlices | cmd/mergen-init-snapshot/main.go:713-723 | True exactly for equal lists. |
| InitCommand.CommandCandidates | cmd/mergen-init-snapshot/main.go:675-693 | Always exactly two candidates: the command and its shell rendering; the guards against the second never hold. |
| InitCommand.CommandLineLonger | cmd/mergen-init-snapshot/main.go:684-691 | The rendered line is strictly longer than every argument in it. |
| InitCommand.ParseEnvList | cmd/mergen-init-snapshot/main.go:255-272 | The loop builds the map the item-by-item function gives. |
| InitCommand.ItemReads | cmd/mergen-init-snapshot/main.go:258-269 | An item is split at its first equals sign, the key trimmed and the value not; without an equals sign or a key it is dropped. |
| InitCommand.LastItemWins | cmd/mergen-init-snapshot/main.go:255-272 | The last well-formed item for a key decides its value. |
| InitCommand.UnsetIsAbsent | cmd/mergen-init-snapshot/main.go:257-268 | A key no well-formed item sets is absent. |
| InitCommand.EnvMapToList | cmd/mergen-init-snapshot/main.go:816-830 | For every map iteration order the list is the same: one item per key, in byte order of the keys. |
| InitCommand.PrintedParsesBack | cmd/mergen-init-snapshot/main.go:255-272 | Parsing the printed list gives the map back exactly when every key is non-empty, trimmed and without an equals sign. |
| InitCommand.ParsedSurvives | cmd/mergen-init-snapshot/main.go:816-830 | Every map that came from parsing survives printing and parsing. |
| Sorting.SortedKeysOf | internal/store/fs_store.go:308-312 | Sorting the keys collected in any order gives the same strictly increasing list of all keys. |
| EnvFile.RenderEnv | internal/store/fs_store.go:307-320 | The written content does not depend on map iteration order. |
| EnvFile.EnvTextSourcesBack | internal/store/fs_store.go:307-320 | Sourcing the file gives back exactly the map if and only if every key is a shell name and no value holds NUL. |
| Resolver.AliasesForMeta | internal/forwarder/resolver.go:193-229 | The result lists each alias of the VM exactly once. |
| Resolver.BuildIndex | internal/forwarder/resolver.go:149-158 | The loop builds the first-wins index of the ordered list. |
| Resolver.IndexFindsEarliest | internal/forwarder/resolver.go:131-158 | Looking a label up finds the VM that answers to it and that no other answering VM precedes in (creation time, missing last; id) order; not found means no VM answers. |
| Resolver.LookupGivesOldest | internal/forwarder/resolver.go:131-147 | The VM found has a creation time if any other that answers has, and not a later one; on equal times its id is not after the other's, by the first character that differs. |
| Resolver.AliasesExactly | internal/forwarder/resolver.go:193-229 | A VM answers to exactly its id, the first eight characters of it, and its tags and string metadata under host, hostname, app and name, trimmed and in lower case, blank ones excluded. |
| Resolver.IndexScans | internal/forwarder/resolver.go:149-158 | Index lookup equals a linear scan of the ordered list, for every label. |
| Resolver.ListingOrderIrrelevant | internal/forwarder/resolver.go:131-147 | The order of the directory listing never matters exactly when no two different records share creation time and id. |
| Sorting.SortStable | internal/forwarder/resolver.go:131-147 | Tied elements keep their order. |
| Resolver.NamesParseBack | internal/forwarder/resolver.go:96-110 | A label with the domain tail, in either case, with blanks around it or a final dot, parses back to the label. |
| Resolver.AliasesReachable | internal/forwarder/resolver.go:96-110 | Every dot-free alias of a VM can be asked for by its name under the domain. |
| ResolverCache.Cell.RefreshIfNeeded | internal/forwarder/resolver.go:112-165 | A fresh cache or a failed reading leaves all three fields as they were; otherwise all three come from the one reading. |
| ResolverCache.AnswersAreRecent | internal/forwarder/resolver.go:64-81 | In every interleaving, each answer is the linear scan of a list installed later than the lookup's check less the lifetime, and an answer from an empty index is from a listing read after the check, by the order of steps and not only by the clock. |
| ResolverCache.RefreshesWhole | internal/forwarder/resolver.go:112-165 | In every interleaving, the cache changes only by installing a reading whole, and a non-empty one not before its lifetime is over. |
| ResolverCache.OneRefreshAtATime | internal/forwarder/resolver.go:120-124 | At most one lookup is refreshing. |
| ResolverCache.LookupOutcome | internal/forwarder/resolver.go:64-81 | From every state in which nobody refreshes, a lookup alone is answered from a fresh cache, or else from a new reading, which it installs; a failed reading gives no answer and leaves the cache. |
| Forwarder.ReturnedClean | internal/forwarder/server.go:60-66 | In every run, when Run returns nil on either path the context was cancelled, no handler runs, nothing is tracked, and every accepted connection is closed. |
| Forwarder.AlwaysAccounted | internal/forwarder/server.go:88-111 | Throughout every run the wait group equals the handlers not yet done plus the one about to start and never goes negative, and an untracked accepted connection is closed or has just been accepted. |
| Shutdown.AcceptErrorExactly | internal/forwarder/server.go:88-100 | In every run an accept error leads to the shutdown exactly when the context was cancelled, to failure exactly when it was not and the error is not temporary, and otherwise back to accepting. |
| Shutdown.FailedUncancelled | internal/forwarder/server.go:88-100 | Every failed run failed at such an error, before any cancellation. |
| Shutdown.EveryShutdownCanReturn | internal/forwarder/server.go:185-210 | From every state of every run in which the shutdown has begun, some continuation returns nil. |
| Shutdown.BothWaysReturn | internal/forwarder/server.go:60-66 | For every set of connections some run returns nil without a timeout and some run by the forced close. |
| Forwarder.Server.HandOver | internal/forwarder/server.go:102-104 | Tracking, counting and starting the handler are three steps of the machine, and leave the connection tracked and counted. |
| Forwarder.Server.FinishHandler | internal/forwarder/server.go:108-111 | The deferred calls are three steps of the machine: the connection ends closed, untracked and no longer counted. |
| Forwarder.Server.CloseAllConnections | internal/forwarder/server.go:230-241 | The forced close is a run of the machine that closes exactly the connections tracked, on top of those closed before, and keeps table and handlers. |
| Supervisor.ExitCodes | cmd/mergen-init-snapshot/main.go:874-883 | Exit codes lie in 0 to 255; exiting with a code gives that code, dying by a signal gives 128 plus its number, and anything else gives 1. |
| Supervisor.ReapChildren | cmd/mergen-init-snapshot/main.go:849-872 | Returns the main process's code if it has died, otherwise leaves it alive; the no-children branch is dead; pending zombies, events and interrupts bound the loop. |
| Supervisor.Kernel.Wait4 | cmd/mergen-init-snapshot/main.go:850-871 | Any zombie may be reported, with its own status, once; births equal living plus waiting plus reaped children. |
| Supervisor.RunAndSupervise | cmd/mergen-init-snapshot/main.go:612-636 | For every schedule the result is the code of the status the main process dies with, and there is none exactly when it never dies. |
| BootArgs.ResolveBootArgs | internal/firecracker/config.go:60-73 | The steps compute the resolved arguments. |
| BootArgs.HasIpArg | internal/firecracker/config.go:75-82 | True exactly when some token starts with ip=. |
| BootArgs.ResolvedTokens | internal/firecracker/config.go:60-73 | The requested (or default) tokens in order, then one ip= token exactly when none was requested and the guest address is valid IPv4, single blanks between. |
| HostNetwork.LastTokenFields | internal/firecracker/config.go:84-97 | When the request brings no ip= token, the last token reads back field by field as the guest's own address, nothing, its gateway, 255.255.255.0, nothing, eth0, off. |
| HostNetwork.DefaultTokens | internal/firecracker/config.go:60-73 | With nothing requested and no guest address the arguments are the four default tokens, written out. |
| HostNetwork.StoredGuestBootsAsItself | internal/firecracker/config.go:84-97 | In every run a stored VM boots, unless asked otherwise, with its own guest address in the first field of its ip= token. |
| BootArgs.ResolvedIdempotent | internal/firecracker/config.go:60-73 | Resolving twice is resolving once. |
| BootArgs.AugmentIsNoop | scripts/mergen-configure-start:72-108 | Whatever the script's variables, it leaves the boot arguments of a VM with a usable guest address as they are. |
| BootArgs.AllocatedIsUsable | internal/firecracker/config.go:84-88 | Every address the allocator hands out is usable in that sense. |
| BootArgs.GatewayIsNeighbour | internal/firecracker/config.go:90-95 | The gateway differs from the guest and shares its /24. |
| BootArgs.GatewaysClearExactly | internal/firecracker/config.go:84-97 | No allocatable guest is the gateway of an allocatable guest exactly when the block is a /24 or longer. |
| BootArgs.ScriptDerivesGateway | scripts/mergen-configure-start:58-70 | From the text of a guest address the script derives the text of its gateway. |
| HostNetwork.AddExtra | internal/manager/service.go:361-366 | The loop overlays the request's variables on the daemon's, blank names skipped, whatever the iteration order. |
| HostNetwork.BootGatewayIs | scripts/mergen-configure-start:72-108 | Whatever the scripts' variables, the VM boots with the gateway of the request's own ip= token, if any, and with the derived gateway otherwise. |
| HostNetwork.TapIsGatewayExactly | scripts/mergen-net-setup:28-46 | For all variables and every request without an ip= token: the tap address is the gateway in the boot arguments exactly when MGN_HOST_IP, if set, is that gateway, and otherwise MGN_GUEST_IP has the guest's first three fields and the guest does not end in 1. |
| HostNetwork.HostIpMovesOnlyTap | scripts/mergen-net-setup:30-46 | Setting MGN_HOST_IP puts that address on the tap and leaves the boot arguments as they are. |
| HostNetwork.TapOfVmExactly | internal/manager/service.go:339-368 | Through the written and sourced environment file: the tap gets the gateway the VM boots with exactly when the request sets MGN_HOST_IP to it, or leaves it unset, keeps the guest's network if it sets MGN_GUEST_IP, and the guest does not end in 1. |
| HostNetwork.GatewaysAgree | scripts/mergen-net-setup:28-46 | For every address handed out from a /24 or longer and all variables: boot argument, tap and configure script agree on the gateway exactly when MGN_HOST_IP, if set, is it, and otherwise MGN_GUEST_IP has the guest's first three fields and does not end in 1. |
| HostNetwork.NoStoredGuestIsGateway | internal/firecracker/config.go:84-97 | In every run, with a block of /24 or longer, the gateway in the ip= argument of a stored VM is the guest address of no stored VM. |
| HttpPort.InferHttpPort | internal/converter/converter.go:888-932 | For every iteration order: the smallest common TCP port, else the smallest TCP port, else the smallest valid port, else 0. |
| HttpPort.SuggestedOnce | internal/converter/converter.go:888-932 | That description fixes one port. |
| HttpPort.CommonFour | internal/converter/converter.go:921-925 | If a TCP port among 80, 3000, 8000 and 8080 is exposed, the smallest of them is suggested. |
| HttpPort.KeyReads | internal/converter/converter.go:898-907 | A key of a port in plain decimal, a slash and a protocol reads as that port, TCP in any mixture of cases. |
| HttpPort.ReadInRange | internal/converter/converter.go:898-907 | A key that reads has exactly one slash and a port from 1 to 65535. |

## Left out

- HTTP handlers, request validation other than ports, the TLS handshake, proxying, dialling and network namespaces: input and output without state to keep.
- systemctl: a unit is an active flag whose changes may fail, fully or after taking effect; disabling a unit has no effect here. A systemctl that is killed at the command timeout leaves its job queued, so a real unit can also change after the call has released the lock or the daemon has crashed. A unit restarting by itself may do so whenever its VM was ever saved.
- JSON: records and configuration are values; the bytes of vm.json, meta.json and hooks.json are parameters of a save.
- Power loss: `writeAtomic` does not sync, so the crashes modelled are those of the process.
- The directory tree: MkdirAll may fail but directories hold no content; removal and modes of directories are not tracked.
- UUIDs: an id is any unused string of the right shape. Tap, namespace and MAC names use only its first digits and nothing is claimed about them.
- Hook execution, logging, configuration from the environment, users, groups and mounts.
- Liveness: that a forced shutdown ends, that a lookup gets the lock, that a signal is delivered.
- GetVM, ListVMs and ResolveFirst: they read what is modelled elsewhere. Of baseEnv, only the guest address and the request's variables have names; the scripts are taken to have no such variables but those of the file.
- Allocator.GuestAddress: parsing the configured block is library code, so its three outcomes are a parameter.
- Text.Lower: covers ASCII letters; other letters are left as they are, and the first eight characters of an id stand for its first eight bytes.
- BootArgs.AugmentIsNoop: the script's test for an ip= token is a pipeline under pipefail, which fails when the arguments are too long for the pipe, and the script then adds a second token; arguments of that length are not covered.
- BootArgs.Augmented: jq and awk take and give the arguments as they are.
- Layouts.LockingExact: roots are absolute cleaned paths compared component by component, so neither this nor Layouts.RecordsExact nor DoubleDelete.DeletesExact covers symbolic links or relative roots.
- Store.PathsFor: an id of a single dot, which path cleaning would drop, keeps its component here; created ids are UUIDs.
- Shell.Lex: operators, expansions and patterns outside quotes are not read (the result is none), and aliases and reserved words do not matter to quoted words. systemd also reads the environment file, by rules that are not part of this model, and bash refuses or overwrites assignments to names it keeps for itself, such as UID, EUID, PPID and _.
- ControlPlane.Apply: the control plane, the forwarder and the resolver's lookups are interleaved step machines on values, so the in-place update of their fields is modelled as a step and aliasing is not modelled. The methods of the forwarder's and the resolver's classes are single calls that nothing interrupts.
- ControlPlane.RemoveTree: what a removal takes besides records, VM directories and lock files is in Store.Disk only.
- ControlPlane.StepSaving: vm.json, written before the record, does not appear in the step machine; Store.Disk.SaveVm covers it.
- LockSafety.AtMostOneDelete: at most one success, not at least one; a delete that fails after removing the record leaves no event behind.
- Supervisor.Kernel.Wait4: errors other than EINTR and ECHILD, which these arguments do not cause, are not modelled, and neither is the overflow of the signal channel.
