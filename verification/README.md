# mini-hyperviseur, modelled in Dafny

mini-hyperviseur is a small virtual-machine manager built on libvirt. It has three parts that matter here:

- `libvirt_api.c` is a shared library. Its entry points (`list_snapshots`, `revert_snapshot`, `snapshot_vm`, `restart_vm`, `list_vms`, `create_vm`, the start/stop/pause/resume wrappers, `destroy_vm`, `console_vm`, `clone_vm`, `migrate_vm`) each open libvirt connections (`migrate_vm` opens two), act on one domain or, in `list_vms`, on all of them, and return a message or a JSON document. Which handles each exit path frees, and which it leaks, is stated per member in the table below.
- `orchestrator.py` has a `LibvirtPythonBackend`. It caches libvirt connections by URI and runs host and domain operations through that cache.
- `Exercices/ex7.c` is a stand-alone program that live-migrates one fixed domain to a second host in unsafe mode.

The model treats every libvirt call as an oracle. An operation is a function of the answers it gets: did the connection open, was the domain found, did the call succeed, what did it return. The result has three parts:

- the message the C function returns;
- the handles it acquired and released on that exit path;
- the calls it made that change something, with the arguments that matter.

The text work is modelled over `seq<char>`, with the departures listed under "## Left out":

- `strstr`;
- the `%511[^']` scan of the disk path;
- the `<name>` rewrite, the `<uuid>` removal and the disk-path substitution `clone_vm` performs;
- the JSON text the two listing functions assemble with `strcat`.

Files and modules:

| file | module | what it holds |
|---|---|---|
| `wrappers.dfy` | `Wrappers` | `Option` |
| `text.dfy` | `Text` | `strstr` as `Find`, and facts about matches in concatenations |
| `descriptor.dfy` | `Descriptor` | disk-path extraction, image path, name rewrite, UUID removal, substitution loop |
| `flags.dfy` | `MigrateFlags` | migration flag sets and their `virDomainMigrateFlags` bit values |
| `resources.dfy` | `Resources` | handles acquired and released per exit path, and the replay semantics they summarise |
| `libvirt_api.dfy` | `LibvirtApi` | the C entry points except the two listings |
| `json.dfy` | `Json` | quoted strings, comma-joined lists, and a reader that undoes them |
| `listing.dfy` | `Listing` | `list_snapshots` and `list_vms` as loops, proved equal to a direct definition |
| `ex7.dfy` | `Ex7` | the `main` of the migration exercise |
| `orchestrator.dfy` | `Orchestrator` | the Python backend: connection cache, host info, listing, domain operations, migration |

Handles are summarised per exit path as `Handles(acquired, released)`:

- `ReleasedInReverse` means the handles are freed newest first.
- `AllReleased` means each is freed exactly once.
- `Leaks` means a handle is taken and never given back.

These summaries are tied to a replay of the event trace. A stack replay (`Unwind`, `Lifo`) and a bag replay (`Held`, `NoLeak`) give the summaries their meaning, through the lemmas `FlattenLifo` and `FlattenNoLeak`.

The substitution loop of `clone_vm` restarts `strstr` from the start of the text after every replacement, so it need not terminate. It is modelled with a `fuel` bound. `None` (or `StillLooping` for the whole clone) means the loop has not exited after that many replacements. The model proves three things about it:

- the loop never exits when the clone's image path contains the old path;
- it never exits when the old path is empty (the model's stand-in for the uninitialised path `sscanf` leaves when the attribute is empty);
- it always exits when the new path is shorter.

With the intended replacement step, one pass replaces the leftmost occurrence and keeps the text on both sides of it. For a single-disk descriptor, the clone defines the source's descriptor renamed, without its UUID, and with the clone's image path in place of the disk path, everything else unchanged.

## Model

| member | source | states |
|---|---|---|
| Text.Find | mini-projet/libvirt_api.c:565 | `strstr`: the index found is an occurrence, no occurrence starts earlier, and nothing is found exactly when the pattern does not occur |
| Descriptor.QuoteFreeRun | mini-projet/libvirt_api.c:573 | the `%511[^']` scan stores the longest quote-free prefix of what follows, cut at 511 characters |
| Descriptor.MaximalRunUnique | mini-projet/libvirt_api.c:573 | that description of the scan's result admits exactly one string |
| Descriptor.ExtractDiskPath | mini-projet/libvirt_api.c:563-573 | there is no disk path exactly when `<source file='` does not occur; otherwise the path is the maximal quote-free run (at most 511 characters) after its first occurrence |
| Descriptor.NewDiskPath | mini-projet/libvirt_api.c:575-578 | the clone's image path starts with `/var/lib/libvirt/images/`, ends with `.qcow2`, and has exactly the clone's name in between |
| Descriptor.ImageBaseName | mini-projet/libvirt_api.c:575-578 | a name read back from an image path rebuilds that same path |
| Descriptor.ImageBaseNameOfNewDiskPath | mini-projet/libvirt_api.c:575-578 | reading the name back from the clone's image path gives the clone's name, so distinct clone names get distinct images |
| Descriptor.FindElement | mini-projet/libvirt_api.c:597-600 | the element starts at the first opening tag and ends at the first closing tag found from there; there is none when either search fails |
| Descriptor.ElementAt | mini-projet/libvirt_api.c:597-600 | in `a<tag>n</tag>b`, with no opening tag in `a` and no closing tag in `n`, the element found is exactly the written one |
| Descriptor.RewriteName | mini-projet/libvirt_api.c:596-604 | only the first `<name>…</name>` span changes, and it becomes exactly `<name>dst</name>`; the text before and after it is kept; without both tags the descriptor is unchanged |
| Descriptor.RewriteNameReadsBack | mini-projet/libvirt_api.c:596-604 | after the rewrite the descriptor's name reads back as the new name, and a second rewrite with the same name changes nothing |
| Descriptor.RewriteNameOfElement | mini-projet/libvirt_api.c:596-604 | in `a<name>n</name>b` the rewrite replaces exactly `n` |
| Descriptor.RemoveUuid | mini-projet/libvirt_api.c:606-613 | exactly the span from the first `<uuid>` through the next `</uuid>` disappears; without both tags nothing changes |
| Descriptor.RemoveUuidOfElement | mini-projet/libvirt_api.c:606-613 | removing the UUID element from `a<uuid>u</uuid>b` gives back `a + b`, undoing an insertion |
| Descriptor.ReplaceAt | mini-projet/libvirt_api.c:616-620 | one replacement as intended: the new path stands where the matched old path stood, and the text on both sides is unchanged |
| Descriptor.ReplaceAtUndo | mini-projet/libvirt_api.c:616-620 | putting the old path back where the new one went restores the text |
| Descriptor.ReplaceAtAsWritten | mini-projet/libvirt_api.c:617-620 | one replacement with the two `memmove`s in the written order: same as intended when the new path is not longer; otherwise the start of the tail is overwritten before it is moved, or the result is undefined when the tail is too short |
| Descriptor.AsWrittenAgreesOnlyByAccident | mini-projet/libvirt_api.c:617-620 | with a longer new path, the written order gives the intended text exactly when the overwritten start of the tail already equalled the end of the new path |
| Descriptor.AsWrittenCorruptsAttribute | mini-projet/libvirt_api.c:617-620 | a concrete descriptor where the written order overwrites the attribute's closing quote |
| Descriptor.ReplaceLoop | mini-projet/libvirt_api.c:615-621 | whenever the loop exits, the old path no longer occurs; a text without the old path is returned as it is |
| Descriptor.ReplaceLoopMoreFuel | mini-projet/libvirt_api.c:615-621 | an exit reached within some number of replacements is reached, with the same text, under any larger bound |
| Descriptor.ReplaceLoopDiverges | mini-projet/libvirt_api.c:615-621 | when the new path contains the old one and the old one occurs, the loop never exits |
| Descriptor.ReplaceLoopStep | mini-projet/libvirt_api.c:615-620 | with the intended replacement step, one pass puts the new path where the leftmost occurrence of the old one stood, keeps the text on both sides, and searches again from the start |
| Descriptor.ReplaceLoopOnce | mini-projet/libvirt_api.c:615-621 | with the intended replacement step, a text with one occurrence of the old path, whose replacement leaves none, comes out as that text with the new path in its place |
| Descriptor.ReplaceLoopExitsWhenShrinking | mini-projet/libvirt_api.c:615-621 | when the new path is shorter than the old one, the loop exits within as many replacements as the text has characters |
| Descriptor.CloneDescriptor | mini-projet/libvirt_api.c:593-621 | the descriptor handed to `virDomainDefineXML`, when the loop exits, holds no occurrence of the old disk path, and is the renamed UUID-less descriptor when the old path did not occur in it |
| Descriptor.CloneDescriptorOfLayout | mini-projet/libvirt_api.c:593-621 | with the intended replacement step, `p<name>n</name>q<uuid>u</uuid>r`, the disk path and `t` become `p<name>dst</name>qr`, the clone's image path and `t`: renamed, without the UUID, the path substituted in place, nothing else changed |
| Descriptor.CloneDescriptorDiverges | mini-projet/libvirt_api.c:615-621 | if the clone's image path contains the old path, and the old path survives the name and UUID steps, the rewrite never finishes |
| MigrateFlags.HasBitEncode | mini-projet/libvirt_api.c:683-686 | a flag's bit is set in the combined integer exactly when the flag was requested |
| MigrateFlags.DecodeEncode | mini-projet/orchestrator.py:131-139 | the combined integer determines the requested flag set |
| MigrateFlags.UnsafeLiveMoveValue | mini-projet/libvirt_api.c:683-686 | LIVE, UNSAFE, UNDEFINE_SOURCE and PERSIST_DEST combine to 537, with neither PEER2PEER nor TUNNELLED |
| Resources.UnwindHeld | mini-projet/libvirt_api.c:700-703 | whenever the stack replay of a trace succeeds, the bag replay holds the same handles |
| Resources.LifoNoLeak | mini-projet/libvirt_api.c:700-703 | a trace that frees newest first, ending empty, frees every handle exactly once |
| Resources.UnwindReleases | mini-projet/libvirt_api.c:700-703 | releases empty a stack of handles exactly when they read the stack from the top |
| Resources.HeldReleases | mini-projet/libvirt_api.c:700-703 | releases succeed on a bag exactly when they are covered by it, and they take themselves out of it |
| Resources.FlattenLifo | mini-projet/libvirt_api.c:700-703 | an exit path's summary is released newest first exactly when replaying its trace on a stack ends empty |
| Resources.FlattenNoLeak | mini-projet/libvirt_api.c:700-703 | an exit path's summary releases everything exactly once exactly when the bag replay of its trace ends empty |
| Resources.ReleasedInReverseAll | mini-projet/libvirt_api.c:700-703 | releasing newest first releases every handle exactly once |
| LibvirtApi.MigrateVm | mini-projet/libvirt_api.c:651-706 | every exit frees exactly what it took, newest first; the migrated domain's handle exists exactly on success; the migration is attempted only once both connections and the domain are there, with LIVE, UNSAFE, UNDEFINE_SOURCE and PERSIST_DEST; libvirt's last error is preferred to the code's own text; without one, the message is a failure exactly when the migration did not succeed |
| LibvirtApi.RevertSnapshot | mini-projet/libvirt_api.c:63-101 | connection, domain and snapshot handles are freed newest first on every path; the revert is attempted only on a snapshot that was found; the message is a failure exactly when the revert did not happen |
| LibvirtApi.SnapshotXmlNamesSnapshot | mini-projet/libvirt_api.c:119-125 | the snapshot descriptor's `<name>` element reads back as the requested snapshot name |
| LibvirtApi.SnapshotVm | mini-projet/libvirt_api.c:103-140 | as written: once the domain is found the message is the success message, whatever libvirt did; a created snapshot's handle is never freed; other exits free newest first |
| LibvirtApi.SnapshotVmChecked | mini-projet/libvirt_api.c:127-133 | with the evident NULL test: every exit frees newest first, and the message is a failure exactly when the snapshot was not created |
| LibvirtApi.SnapshotFailureUnreported | mini-projet/libvirt_api.c:127 | on a refused snapshot, the code as written reports success and the checked version reports the failure |
| LibvirtApi.LifecycleVm | mini-projet/libvirt_api.c:364-410 | start, stop, pause and resume check no result: the message is the same fixed success text whatever happens, the action is taken only with a domain, and what was taken is freed newest first |
| LibvirtApi.RestartVm | mini-projet/libvirt_api.c:142-171 | the reboot is attempted only on a found domain; the message is a failure exactly when the reboot is refused, and then carries libvirt's last error or "unknown"; handles are freed newest first |
| LibvirtApi.DecimalText | mini-projet/libvirt_api.c:350 | `%d` writes a minus sign exactly for a negative value, then decimal digits |
| LibvirtApi.DecimalTextReadsBack | mini-projet/libvirt_api.c:350 | the text `%d` writes reads back as the number printed |
| LibvirtApi.CreateVm | mini-projet/libvirt_api.c:244-360 | the volume is created `<name>.qcow2` once the pool is found; the domain is started only once defined; a start failure undefines it and deletes its volume but leaks the domain handle; the volume path string always leaks once the volume exists; everything else is freed |
| LibvirtApi.DestroyDiskPath | mini-projet/libvirt_api.c:440-446 | the disk path `destroy_vm` uses is the extracted one, or empty when the marker is absent |
| LibvirtApi.DestroyVm | mini-projet/libvirt_api.c:424-473 | once the domain is found the message is "VM … supprimée." whatever the destroy, undefine and volume deletion do; the volume is looked up only for a non-empty path with the pool present, and deleted only when found |
| LibvirtApi.DestroyFound | mini-projet/libvirt_api.c:440-472 | a found domain is destroyed then undefined; the volume deletion is best effort; handles are freed newest first |
| LibvirtApi.ConsoleVm | mini-projet/libvirt_api.c:483-535 | a domain not running is started first; the viewer is launched exactly for a running or successfully started domain, and the reply is a JSON error exactly when it is not launched |
| LibvirtApi.CloneVm | mini-projet/libvirt_api.c:538-646 | the clone is stuck in the substitution loop exactly when the rewrite does not finish; a missing disk marker fails after freeing the XML, the source domain and the connection; failures free newest first; success is exactly the exit that holds the new domain, and frees the XML, the new domain, the source domain, then the connection, so the new domain goes second rather than first |
| LibvirtApi.CloneWithDisk | mini-projet/libvirt_api.c:575-645 | after the disk path is found: stuck exactly when the rewrite does not finish; success exactly when the clone is defined, with the success message |
| LibvirtApi.CloneDefinesRewritten | mini-projet/libvirt_api.c:593-624 | a clone that defines a domain found a disk path, and defines the result of the whole rewrite, in which the source's disk path no longer occurs |
| LibvirtApi.CloneDefinesLayout | mini-projet/libvirt_api.c:575-624 | with the intended replacement step, for a single-disk source descriptor, the clone copies the disk image to the clone's image path first, then defines the source's descriptor renamed, without its UUID, with the clone's image path in place of the disk path and nothing else changed |
| LibvirtApi.CloneCopiesImage | mini-projet/libvirt_api.c:575-585 | the image copy goes from the source's disk path to `/var/lib/libvirt/images/<dst>.qcow2` |
| LibvirtApi.CloneReleasesAll | mini-projet/libvirt_api.c:640-643 | every exit of `clone_vm` frees each handle it took exactly once, though not always newest first |
| LibvirtApi.CloneLoopsOnContainedPath | mini-projet/libvirt_api.c:615-621 | cloning onto an image path that contains the source's disk path never returns, when that path survives the name and UUID steps |
| LibvirtApi.CloneLoopsOnEmptyPath | mini-projet/libvirt_api.c:573 | with the model's empty-path stand-in for `<source file=''`, the path occurs everywhere and the clone never returns |
| Json.ReadQuotedListOfJoin | mini-projet/libvirt_api.c:48-55 | quoting and comma-joining quote-free strings, then reading the list back, gives the strings in order |
| Listing.SnapshotsJsonRoundTrip | mini-projet/libvirt_api.c:48-55 | a snapshot document lists exactly the names it was built from, in order, when none holds a double quote |
| Listing.SnapshotsJsonIsNoError | mini-projet/libvirt_api.c:48-55 | a snapshot document is not an error object |
| Listing.UnsignedCount | mini-projet/libvirt_api.c:31 | the snapshot count is stored as an unsigned 32-bit integer: the count modulo 2^32 |
| Listing.FailedCountIsNotEmpty | mini-projet/libvirt_api.c:31-32 | a failed count (-1) wraps to 4294967295, so it is not read as "no snapshots" |
| Listing.BuildSnapshotsText | mini-projet/libvirt_api.c:48-55 | the loop writes `{"snapshots":[`, then the quoted names in order with commas between them, then `]}` |
| Listing.ListSnapshots | mini-projet/libvirt_api.c:14-61 | the zero-count branch gives exactly the empty instance of the snapshot document; a listing gives the document of the listed names; the reply is a JSON error exactly when the listing fails; the name strings leak exactly when a non-zero count of names was listed; every other exit frees newest first |
| Listing.StateLabel | mini-projet/libvirt_api.c:199-204 | state 1 is reported as running, 3 as paused, 5 as shutoff, and every other state, and only those, as unknown |
| Listing.StateLabelInverse | mini-projet/libvirt_api.c:199-204 | the label gives the state back exactly for the three states the switch names; every other state is "unknown" |
| Listing.ActiveEntriesMembers | mini-projet/libvirt_api.c:192-216 | a running domain's entry is listed exactly when its lookup by id succeeded |
| Listing.AppendEntry | mini-projet/libvirt_api.c:206-214 | one loop step: a comma unless nothing was written yet, then the entry's object |
| Listing.AppendActive | mini-projet/libvirt_api.c:192-216 | the first loop appends the running domains in id order, skipping failed lookups |
| Listing.AppendDefined | mini-projet/libvirt_api.c:225-235 | the second loop appends every defined domain as shut off |
| Listing.ListVms | mini-projet/libvirt_api.c:173-242 | the document lists the running domains, then the defined ones, with commas only between entries |
| Listing.DefinedListedAsShutoff | mini-projet/libvirt_api.c:220-237 | each defined domain appears after all the running ones, with state "shutoff" |
| Ex7.Ex7Main | Exercices/ex7.c:8-62 | exit status 1 exactly on an early failure, with what was opened closed newest first; otherwise the migration is attempted with LIVE, UNSAFE, UNDEFINE_SOURCE and PERSIST_DEST and the status is 0 whether or not it succeeds; the new domain's handle exists, and is freed, exactly on success |
| Ex7.Ex7AgreesWithMigrateVm | Exercices/ex7.c:8-62 | the program and `migrate_vm` take and free the same handles in the same order and make the same migration call |
| Orchestrator.Connect | mini-projet/orchestrator.py:41-49 | a cached URI opens nothing and changes nothing; a missing module, an open that returns None, or an open that raises leave the cache unchanged and raise; a successful open adds exactly that URI |
| Orchestrator.ConnectIdempotent | mini-projet/orchestrator.py:41-43 | a second connect after a successful one opens nothing and changes nothing |
| Orchestrator.NoModuleNoConnections | mini-projet/orchestrator.py:44-45 | without the libvirt module the cache never gains an entry and nothing is opened |
| Orchestrator.Close | mini-projet/orchestrator.py:51-55 | a cached URI's connection is closed; the URI is removed unless `close()` raised, in which case its libvirt error propagates and the URI stays cached; an uncached URI changes nothing; every other entry is kept |
| Orchestrator.CloseUndoesConnect | mini-projet/orchestrator.py:51-55 | closing a URI just connected restores the previous cache and closes that connection |
| Orchestrator.ConnOf | mini-projet/orchestrator.py:57-61 | the cached connection, or a RuntimeError "Non connecté à …" exactly for an uncached URI |
| Orchestrator.FloorDiv1024 | mini-projet/orchestrator.py:73 | Python's floor division by 1024, negative values included |
| Orchestrator.GetHostInfo | mini-projet/orchestrator.py:63-74 | the info is returned exactly when connected and none of `getHostname`, `getMaxVcpus`, `getFreeMemory`, `isEncrypted` raised; otherwise the first of them to raise decides the exception; the answers are passed through, and the free memory is reported in whole KiB, rounded down |
| Orchestrator.FirstFailure | mini-projet/orchestrator.py:80-82 | the first lookup that raises, with all before it succeeding |
| Orchestrator.ListDomains | mini-projet/orchestrator.py:76-94 | one record per active id, in order, with that id's name, state, `maxMem`, `memory`, `nrVirtCpu` and `cpuTime` taken from `info()` in that order, and the defined names unchanged, exactly when connected and nothing raised; otherwise the exception of `listDomainsID`, of the first lookup that raised, or of `listDefinedDomains`, in that order |
| Orchestrator.DomainCall | mini-projet/orchestrator.py:96-126 | each operation succeeds exactly when connected, the lookup succeeds and the call returns 0; a non-zero return raises that operation's RuntimeError |
| Orchestrator.RequestedFlags | mini-projet/orchestrator.py:131-139 | each of LIVE, TUNNELLED, PERSIST_DEST and UNDEFINE_SOURCE is requested exactly when its argument is true, and nothing else is |
| Orchestrator.DefaultFlags | mini-projet/orchestrator.py:128-139 | the default arguments ask for a live, tunnelled, persistent migration, the integer 13 |
| Orchestrator.RequestedFlagsDecode | mini-projet/orchestrator.py:131-139 | the integer the booleans produce carries exactly the requested flags, and never UNSAFE or PEER2PEER |
| Orchestrator.MigrateDomain | mini-projet/orchestrator.py:128-147 | `migrateToURI3` is tried first; `migrateToURI` is called, with the same destination and flags, exactly when it raised; the call then succeeds exactly when the fallback returns 0, a non-zero return raises the migration RuntimeError, and a fallback that raises propagates its libvirt error |
| Orchestrator.NotConnectedFails | mini-projet/orchestrator.py:57-61 | host info, listing, every domain operation and a migration with the default flags raise "Non connecté" for a URI the cache does not hold |

## Left out

- The libvirt calls are not modelled. Each is an oracle: a field of the C operation's replies record says whether it succeeded and, where the code reads it, what it returned. In the Python backend each call the code makes is an `Outcome` that either returns a value or raises.
- `system("qemu-img …")` in `clone_vm` is not modelled: its exit status is ignored. The model records only the copy's source and destination (`ImageCopy`).
- `fork`/`execlp` of virt-viewer in `console_vm` is not modelled. The model records only that the viewer is launched (`ViewerLaunch`).
- C buffer mechanics are not modelled: `snprintf` truncation and every fixed-size buffer (the static 65536-byte result buffers, the 256-byte `tmp` buffers, the 512-, 1024-, 4096- and 8192-byte buffers). The one limit kept is the 511 field width of the disk-path scan.
- Descriptor.QuoteFreeRun: the 511 limit counts characters, whereas `%511[^']` counts bytes of the UTF-8 descriptor. The two agree for ASCII paths; a longer path with non-ASCII characters is cut at a different point, and C may split a multi-byte character.
- Descriptor.ExtractDiskPath: inherits the character count of `QuoteFreeRun`, so it agrees with the C scan for ASCII paths only.
- Descriptor.RewriteName: the overlapping `sprintf` at libvirt_api.c:601 is modelled as if source and destination did not overlap, as intended.
- Descriptor.RemoveUuid: the overlapping `sprintf` at libvirt_api.c:611 is modelled as if source and destination did not overlap, as intended.
- LibvirtApi.CloneVm: the substitution loop is bounded by `fuel`. A run still looping when the fuel runs out is `StillLooping`, so a loop that would exit after more replacements than the fuel is not told apart from one that never exits.
- LibvirtApi.CloneVm: when the character after `<source file='` is a quote, `sscanf` stores nothing and `oldDisk` stays uninitialised. The model takes the empty path there.
- LibvirtApi.CloneLoopsOnEmptyPath: holds for the model's empty-path stand-in only. In C, `strstr` then searches for whatever the uninitialised `oldDisk` holds, and no claim is made about that run.
- LibvirtApi.CloneVm: the rewrite uses the intended replacement step (`ReplaceAt`), not the step as written (see Findings).
- Descriptor.ReplaceLoopStep: holds for the intended step `ReplaceAt`; the written `memmove` order corrupts the tail when the new path is longer than the old one.
- Descriptor.ReplaceLoopOnce: holds for the intended step `ReplaceAt`; the written `memmove` order corrupts the tail when the new path is longer than the old one.
- Descriptor.CloneDescriptorOfLayout: holds for the intended step `ReplaceAt`; the written `memmove` order corrupts the tail when the clone's image path is longer than the old disk path, so "nothing else changed" is not a claim about the code as written.
- LibvirtApi.CloneDefinesLayout: holds for the intended step `ReplaceAt`; the written `memmove` order corrupts the tail when the clone's image path is longer than the old disk path.
- LibvirtApi.CreateVm: the domain descriptor `create_vm` formats is not modelled. `CreateDescriptorText` stands for it.
- LibvirtApi.CreateVm: the numbers come from `atoi`, and that parsing is not modelled.
- LibvirtApi.DestroyVm: a NULL descriptor from `virDomainGetXMLDesc` (which `strstr` would dereference) is not modelled. The descriptor is always a string.
- LibvirtApi.MigrateVm: the string is returned with `strdup`, and who frees it is the caller's business. It is not tracked as a handle.
- Listing.ListSnapshots: the document is built from the names libvirt listed. The C loop runs `num` times whatever `virDomainSnapshotListNames` returned, so when fewer names were listed it reads uninitialised entries. The model does not relate the number of listed names to the count.
- Listing.ListVms: the model covers the document only. The id array, the per-domain handles and the name strings the loops free are not tracked.
- Listing.ListVms: a failed `virDomainGetInfo` leaves the state uninitialised. The model takes whatever state it is given.
- Json: names are not escaped, as in the C code, so no claim is made that a document is well-formed JSON. The round trip holds for names without double quotes.
- Orchestrator.ListDomains: an exception from `dom.info()` or `dom.name()` is folded into the outcome of that id's lookup.
- Orchestrator.Close: `conn.close()` is recorded as the closed connection, together with whether it raised. What closing does inside libvirt is not modelled.
- The tkinter GUI of orchestrator.py, mini-projet/app.py, mini-projet/static/js/main.js and Exercices/main.c are not part of this model.

## Findings

| source | as written | input that shows it | evidently intended | confidence | as-written member | corrected member |
|---|---|---|---|---|---|---|
| mini-projet/libvirt_api.c:617-620 | the new path is copied over the match first, and the tail is moved afterwards, so a longer new path overwrites the start of the tail before it moves | a descriptor `<source file='/var/lib/libvirt/images/a.qcow2'/>` cloned as `bb` becomes `…/bb.qcow22/>`: the attribute's closing quote is lost (`AsWrittenCorruptsAttribute`) | move the tail first, then copy the new path in, giving `…/bb.qcow2'/>` | not executed | Descriptor.ReplaceAtAsWritten | Descriptor.ReplaceAt |
| mini-projet/libvirt_api.c:127 | the snapshot pointer from `virDomainSnapshotCreateXML` is compared with `< 0`, which no pointer satisfies | libvirt refuses the snapshot and returns NULL: the reply is still "Snapshot … créé pour la VM …" (`SnapshotFailureUnreported`), and a created snapshot's handle is never freed | test for NULL, report the last error, and free the snapshot handle | not executed | LibvirtApi.SnapshotVm | LibvirtApi.SnapshotVmChecked |
