# Verified models of the vault manager's sync, file and safety machinery

A Dafny 4.11 project that models the parts of the password manager where an argument over whole
runs is needed, and proves what they promise. `dafny verify dfyconfig.toml` checks all of it.

## What is modelled

**Synchronisation.** `SyncProtocol` is a machine of any number of devices that share one versioned
object. Every network call, local save and pointer write is one step of one device, and a device
may fail or crash between any two. A vault's content is a set of edits; of the merge only that its
result contains both inputs is assumed; a save gives fresh bytes, a hash determines its bytes, and a
version identifies bytes. `SyncRun` is the four-way state machine as it runs, with classes for the
vault on disk and the transport, other devices taking steps of the protocol between any two calls and any
call failing; what it does is itself a run of that machine.
`SyncNow` is its caller, which records the pair in the registry.

**Files.** `AtomicWrite` is a directory shared by any number of writers and cleaners, with volatile
and durable names, fsync, locks, kills and power failures; `AtomicWriter` is the writer as a sequence
of system calls inside that directory. `Locking` and `LockedFile` are the advisory lock and the
reload-under-lock pattern, on which `Registry` (`vaults.toml`), `SyncTargets` (the duplicate check)
and `UserConfig` (`config.toml`) are built. `RegistryProtocol` is the machine of all the processes
that load, change and save `vaults.toml`, each from its own memory.

**Password generation.** `Sampling`, `Shuffle`, `Charset` and `Password` follow the bytes from the
system's entropy to the finished password.

**Safety machines.** `AutoLock`, `Clipboard` (the timers and the capped list of guards) and
`SyncRuntime` (the hand-over of the vault to the background worker and back).

**Bounded structures.** `Recents`, `JumpHistory`, `Tabs` and `TabLayout`, over `Lists`.

**Interoperability.** `XmlNormalizer` is the comparison of exported vaults as a function on trees,
and `XmlTree` its three passes as they work, on elements whose texts are overwritten and whose child
lists are reassigned in place.

Machines are written as a function `Next` from a state and a label to the next state; theorems about
runs quantify over all sequences of moves. Code that changes things in place is a class or a method
with a loop, tied by its contract to the machine or to a specification function, and other actors
run inside it at every point where the original can be interleaved.

## Where the code and its documentation part

- The module documentation of the sync says that no backup is written when the key derivation
  settings differ. That holds on the fast-replace path; the merge path takes its backup first
  (`crates/falach-sync/src/sync.rs:533` before `:553`). `SyncRun.RunStateMachine` says which happens when,
  and `SyncProtocol.MismatchAfterBackup` is a run in which the backup has been written.
- `sync_now` is documented to leave the registry untouched on error. The error path rewrites the
  vault's sync block and saves (`crates/falach-sync/src/sync.rs:383-394`); what stays is the pair.
  `SyncNow.RewrittenStaysExactly` says when the list of vaults stays too, and
  `SyncNow.FailedSyncReorders` is a case in which it does not.
- `Merged` reports the delta of its last attempt alone, because each turn of the loop assigns it
  (`crates/falach-sync/src/sync.rs:577`). `SyncRun.DeltaIsWholeExactly` says when that is all the run
  gained, and `SyncRun.DeltaFallsShort` is a case in which it is not.
- A first seed is sent without a precondition. Two first syncs can race and lose an edit
  (`SyncProtocol.FirstSeedRaceLosesAnEdit`); `SyncProtocol.LosesExactlyWhenSeedingOver` says when.
- The joined target form is not injective once a part holds a bar. Equal targets always collide, so
  this can only refuse a target that is free.
- The duplicate check needs no baseline comparison to keep the file free of duplicates, since a save
  replaces the whole file; the comparison is what keeps another process's change from being lost.
- The idle timeout is documented to be at least one second; only zero is refused
  (`crates/falach-security/src/auto_lock.rs:150-157`). The countdown is documented as nothing once
  the deadline has passed; at the deadline it is zero.
- The clipboard timer reads and clears in two calls, so text copied in between can be cleared. A
  copy whose timer thread fails to start reports an error and leaves its text on the clipboard
  (`Clipboard.FailedSpawnRun`), `Clipboard.FailedSpawnLeavesText` says for how long, and
  `Clipboard.ClearedAfterFailedSpawn` which timers can still clear it; no other error writes the text.
- Ordinals are the tab bar's last resort, and nothing checks that they fit. `TabLayout.OrdinalsWidth`
  gives their width and so exactly when they do; `TabLayout.OrdinalsCanOverflow` is a case that does not.
- The rejection threshold is computed from 2^32 - 1, so a range that divides 2^32 rejects one block
  more than it needs to.
- Stepping forward from a selection that was moved by hand can repeat a node in the jump history,
  and unpinning a tab to the left of the active one activates its neighbour.

## Hypotheses

- The backend enforces `If-Match`, and nothing deletes the remote object.
- When a run begins the open database equals the file, as the sync hashes the file, and the seeds and
  initial vectors of later saves are fresh. `SyncNow.SyncNowWithTransport` gives both back for the next run.
- The suffix of a temp file is never drawn again, as inode numbers are not; a power failure loses
  only names and data that were not fsynced, and a rename is atomic.
- Processes change `vaults.toml` and `config.toml` only through these calls, and the first `vaults.toml` has no duplicates; an update of one vault's extra table leaves its sync block alone, as the only such update does.
- The width of a string is the sum of the widths of its characters, and the ellipsis is one column.

## Model

| member | source | states |
|---|---|---|
| SyncProtocol.InitOk | crates/falach-sync/src/sync.rs:415-457 | Devices that have never synced and an absent object satisfy the protocol invariant. |
| SyncProtocol.StepKeeps | crates/falach-sync/src/sync.rs:427-614 | Any one step of any device (edit, HEAD, compare, GET, backup, swap, save, PUT, pointer write, error, crash) keeps the invariant over all devices, and neither the remote nor any local file loses an edit, unless the step is a first seed over an existing object. |
| SyncProtocol.MatchedPutCovers | crates/falach-sync/src/sync.rs:465-469 | A PUT accepted under `If-Match` (section 13.1.1 of RFC 9110) replaces only an object whose edits the local file already holds, on the push path and on the merge path. |
| SyncProtocol.NoEditLost | crates/falach-sync/src/sync.rs:427-614 | Over any interleaving of any number of devices, with crashes between any two steps, the edits of the remote and of every local file only grow, given no first seed onto an existing object. |
| SyncProtocol.PublishedForGood | crates/falach-sync/src/sync.rs:475-481 | Once a run has come to an outcome with a pair, everything its file held is on the remote from then on, whatever the other devices do. |
| SyncProtocol.SyncDelivers | crates/falach-sync/src/sync.rs:432-614 | A run that asked for the remote version at one moment and ends in an outcome has in its file all that the remote held at that moment, whatever happened in between. |
| SyncProtocol.ReplayIsRun | crates/falach-sync/src/sync.rs:427-614 | Whatever a run and the other devices have done is a run of the protocol, so the theorems about all interleavings apply to it. |
| SyncProtocol.UpToDateDevicesAgree | crates/falach-sync/src/sync.rs:445-457 | All devices whose pair names the current object and the current file hold the same database as the remote. |
| SyncProtocol.PutLeavesUpToDate | crates/falach-sync/src/sync.rs:571-583 | After Pushed or Merged, and the recording of the pair, the device is up to date and its file is byte for byte the remote object. |
| SyncProtocol.FastReplaceUpToDateExactly | crates/falach-sync/src/sync.rs:505-523 | After FastReplaced and the recording of the pair, the device is up to date if and only if the object is still the one it fetched; its file holds that object's database in any case. |
| SyncProtocol.RecordedUpToDateExactly | crates/falach-sync/src/sync.rs:375-381 | Whatever the outcome and whatever others did since: recording the pair leaves the device up to date if and only if the object is still the one the pair names. |
| SyncProtocol.QuietSyncChangesNothing | crates/falach-sync/src/sync.rs:445-462 | A sync with no change by anyone compares as AlreadyInSync and leaves the whole system, the pair included, as it was. |
| SyncProtocol.PointersMoveOnlyOnOk | crates/falach-sync/src/sync.rs:375-395 | The pair changes only by the recording step of an Ok outcome (or a reconfiguration); an error leaves it, and a crash falls back to the saved pair. |
| SyncProtocol.LosesExactlyWhenSeedingOver | crates/falach-sync/src/sync.rs:464-481 | A step takes an edit off the remote if and only if it is a first seed, sent without a precondition, landing on an object that holds an edit the seeding file lacks. |
| SyncProtocol.FirstSeedRaceLosesAnEdit | crates/falach-sync/src/sync.rs:464-481 | A concrete run of two first syncs in which an edit that had reached the remote ends up nowhere but in a backup. |
| SyncProtocol.MismatchAfterBackup | crates/falach-sync/src/sync.rs:533-560 | A seven-step run on the merge path that writes its backup and then meets another key derivation, which ends it. |
| SyncRun.RunStateMachine | crates/falach-sync/src/sync.rs:415-615 | One run, interleaved with any steps of the other devices, is a run of the protocol and ends with the device at its outcome or idle again with its pair untouched. It takes the branch the truth table gives for the version the HEAD saw, the hash of the file and the pair; at most max(1, max_retries) PUTs; attempts and refusals counted exactly; exhaustion only after exactly that many refusals and the next run merges again; which outcome each branch gives; what the pair names; AlreadyInSync writes neither file nor backup; the backup holds the starting bytes whenever the file was saved over; a key-derivation mismatch has written a backup if and only if the branch was to merge; the file keeps all it had and all it fetched; after Merged the file is the fold of the merge over the databases handed out in this run, and the delta is what the last turn added. |
| SyncRun.MergeRun | crates/falach-sync/src/sync.rs:529-613 | The merge loop: the final file is the fold of the merge over exactly the databases the transport handed out, turn by turn; the backup is taken once and not rewritten; the delta reported is exactly what the last turn added. |
| SyncRun.DeltaIsWholeExactly | crates/falach-sync/src/sync.rs:538-579 | For every merge and every run of turns: the reported delta is part of what the run gained, and all of it if and only if the turns before the last gained nothing. |
| SyncRun.DeltaFallsShort | crates/falach-sync/src/sync.rs:538-579 | Two turns, with one new edit in each fetch, after which only the second edit is reported. |
| SyncRun.FastReplaceRun | crates/falach-sync/src/sync.rs:486-524 | Fast replacement: the pair names the fetched version and the newly saved file, whose database is the remote one; a key-derivation mismatch is refused before any backup; AlreadyInSync touches neither file nor backup. |
| SyncRun.FetchMergeSave | crates/falach-sync/src/sync.rs:538-581 | One turn of the loop: the saved file is the merge of the database handed out into what was there, or the file is untouched. |
| SyncRun.PairTellsInProtocol | crates/falach-sync/src/sync.rs:427-457 | What a run can rely on in its pair (a matching hash means the remote contains the local edits) is kept by every interleaving of the protocol. |
| SyncRun.Vault.Save | crates/falach-core/src/vault.rs:178-182 | A save writes the open database under fresh bytes that no earlier save had. |
| SyncRun.Vault.ReplaceDatabase | crates/falach-core/src/vault.rs:255-263 | The open database is swapped only for one of the same identity; otherwise nothing changes. |
| SyncRun.Vault.SnapshotPreMerge | crates/falach-sync/src/backup.rs:36-47 | The backup becomes the bytes on disk, or on an error stays what it was; the vault file is not touched. |
| SyncRun.Transport.PutConditional | crates/falach-sync/src/sync.rs:571-595 | The object is replaced only if the precondition matches at that moment, and otherwise left alone; with a precondition no edit leaves the remote. |
| SyncRun.Transport.Others | crates/falach-sync/src/sync.rs:427-614 | Other devices take any steps of the protocol; that these never take an edit off the remote, nor touch this device, is derived from the invariant and not assumed. |
| SyncNow.SyncNowWithTransport | crates/falach-sync/src/sync.rs:350-397 | After Ok the saved registry holds the pair the run came to: it names the current file and a version the object has or had, with the same database, and the device is up to date if and only if the object is still that one, others having been free to write before the pair was recorded; and the next sync can start from it. After an error of the run the pair is what it was, in memory and in anything this process saved, and the vault's block has been rewritten with what the probe found; the list is unchanged if and only if the vault stood last and the probe found what was known. The registry stays free of duplicate targets. |
| SyncNow.RewrittenStaysExactly | crates/falach-sync/src/sync.rs:383-394 | For every registry and block, blocks being compared as parsed: rewriting leaves the list of vaults as it was if and only if the vault stood last and had that very block. (A key that spells out a default parses like an absent one and is dropped on rewriting.) |
| SyncNow.FailedSyncReorders | crates/falach-sync/src/sync.rs:383-394 | Two vaults of which the first fails to sync: nothing about it has changed, and they come out in the other order. |
| AtomicWrite.StepKeeps | crates/falach-core/src/atomic.rs:44-95 | Every step of any writer, cleaner, the file system or a power failure keeps the invariant, and the durable file of a target never goes back to an earlier rename. |
| AtomicWrite.CrashLeavesWholeValues | crates/falach-core/src/atomic.rs:44-95 | Wherever the power fails, with any number of writers and cleaners, each target comes back as one complete value written for it, never torn. |
| AtomicWrite.OkIsDurable | crates/falach-core/src/atomic.rs:82-95 | Once a writer has returned Ok, in every later state of every run its target durably holds its value or that of a later rename. |
| AtomicWrite.TargetMovesOnlyByRename | crates/falach-core/src/atomic.rs:70-88 | What a target shows changes only by a successful rename of a writer for that target, or a power failure. |
| AtomicWrite.ErrBeforeRenameKeepsTargets | crates/falach-core/src/atomic.rs:44-88 | A writer that ends in an error before its rename has moved no target at any of its steps. |
| AtomicWrite.LockedTempStays | crates/falach-core/src/atomic.rs:178-224 | No other process removes a temp file that its writer has locked and not yet renamed. |
| AtomicWrite.LostTempNeverRenamed | crates/falach-core/src/atomic.rs:178-208 | A writer whose temp was cleaned away before it was locked never renames and never reports Ok. |
| AtomicWriter.WriteAtomic | crates/falach-core/src/atomic.rs:44-95 | The sequence of system calls, with other processes acting between any two: Ok exactly when this rename is done and durable, with exactly these bytes under the temp that became the target. |
| AtomicWriter.ReplayIsRun | crates/falach-core/src/atomic.rs:44-95 | What the call does, interleaved with the others, is a run of the directory machine, so the theorems about all runs apply to it. |
| AtomicWriter.OkMeansDurable | crates/falach-core/src/atomic.rs:82-95 | Whenever a replay reaches the end of a writer with Ok, the target durably holds the value of that or a later rename. |
| AtomicWriter.CleanupStaleTempFiles | crates/falach-core/src/atomic.rs:178-208 | The scan unlinks a temp only while it holds that temp locked and nobody else does, takes no other step on the directory, and ends with the caller where it started or failed, its own job untouched. |
| Locking.ExclusiveIsAlone | crates/falach-core/src/locking.rs:71-117 | After any run of acquisitions and drops, a handle that holds the lock exclusively is the only holder of either kind. |
| Locking.LockFile.TryAcquireWithEintrRetry | crates/falach-core/src/locking.rs:230-243 | A refusal means a conflicting holder, success means the lock is held, and interruptions change nothing. |
| LockedFile.NoLostUpdate | crates/falach-core/src/registry.rs:208-265 | Over any interleaving of processes that may crash anywhere, the file is at every moment the fold of all edits written, each applied to exactly what the one before it left. |
| LockedFile.RunStaysGood | crates/falach-core/src/registry.rs:208-265 | A property that every edit keeps holds of the file at every moment of every run. |
| Registry.VaultRegistry.Save | crates/falach-core/src/registry.rs:208-224 | Ok means the contents replaced were exactly the baseline this registry was loaded from, and that this process wrote last; a changed file is refused and left as it is, and so is the baseline; on any error this process wrote nothing, or wrote exactly this registry and only the last fsync failed. |
| Registry.VaultRegistry.UpdateRegisteredExtra | crates/falach-core/src/registry.rs:245-265 | Ok means the file is the latest contents with that one change, and memory equals the file; on any error memory is untouched, and the file was not written or has exactly that change. |
| Registry.VaultRegistry.Load | crates/falach-core/src/registry.rs:145-180 | Memory becomes what the file holds, and the baseline its contents; an error changes nothing. |
| Registry.VaultRegistry.Register | crates/falach-core/src/registry.rs:273-286 | Succeeds exactly when the name is free, and appends; otherwise nothing changes. |
| Registry.VaultRegistry.Deregister | crates/falach-core/src/registry.rs:288-312 | Removes exactly the first vault of that name and keeps the order of the others; with delete_file the vault's file goes too, a missing one counting as deleted, and a file that cannot be deleted leaves everything as it was. |
| Registry.ExtraEditIsLocal | crates/falach-core/src/registry.rs:245-265 | A field-level update changes the extra table of the named vault and nothing else: other vaults, their order and unknown keys stay. |
| Registry.ExtraEditsOfDifferentVaultsCommute | crates/falach-core/src/registry.rs:245-265 | Updates of two different vaults by two processes both survive and give the same file in either order. |
| SyncTargets.EndpointSpellingsAgree | crates/falach-sync/src/s3/endpoint.rs:195-203 | Scheme, letter case and a trailing slash do not tell two endpoints apart. |
| SyncTargets.JoinInjective | crates/falach-sync/src/config.rs:438-448 | The joined form is injective as long as endpoint and bucket hold no bar, whatever the key holds. |
| SyncTargets.JoinUniqueExactly | crates/falach-sync/src/config.rs:438-448 | A joined form stands for a single triple if and only if none of its parts holds a bar. |
| SyncTargets.FindDuplicateTarget | crates/falach-sync/src/config.rs:391-417 | Finds a vault other than the excluded one on the same canonical target, exactly when there is one. |
| SyncTargets.ConfigureRemote | crates/falach-sync/src/sync.rs:233-281 | With other processes writing clean contents in between, as RegistryProtocol.RunIsSchedule shows they do, neither memory nor the file holds two vaults on one target; a duplicate is refused with nothing written; Ok gives a block without pointers at the end of the list, the other vaults as they were. |
| RegistryProtocol.NeverTwoOnOneTarget | crates/falach-sync/src/sync.rs:233-281 | Any number of processes load the registry, register, deregister, configure, record a sync, set a lock timeout, save, update a field and crash, each from its own memory and in any interleaving: neither the file nor any memory ever holds two vaults on one target or under one name, and the file is the fold of what was written. |
| RegistryProtocol.StepKeeps | crates/falach-core/src/registry.rs:208-265 | Every step of any process keeps the file, every memory and every write under way free of duplicates. |
| RegistryProtocol.EditedStaysClean | crates/falach-sync/src/config.rs:391-417 | No call that changes the registry in memory brings two vaults onto one target, as long as the configuring one asks the duplicate check first. |
| RegistryProtocol.RunIsSchedule | crates/falach-core/src/registry.rs:208-265 | What the processes of any run do to the file is a schedule of lock-file steps in which every edit keeps the file clean, and replaying it gives that run's file, lock and log: what the registry methods assume of other processes. |
| SyncTargets.UpdateRegistrySyncBlock | crates/falach-sync/src/sync.rs:667-705 | The vault is taken out and put back at the end with the new block; the others keep their order. |
| SyncTargets.ExtraEditKeepsClean | crates/falach-core/src/registry.rs:245-265 | A field-level update that leaves the sync block alone cannot create a duplicate target. |
| SyncTargets.VerdictIsAboutThisTarget | crates/falach-sync/src/config.rs:255-291 | After any run of setters, a known `If-Match` verdict was given for the endpoint, bucket and key now in force. |
| UserConfig.EverySettingSurvives | crates/falach-tui/src/user_config.rs:303-324 | At every moment of every run, each group of settings is what the changes to those settings alone would make it: sessions changing different settings never lose one. |
| UserConfig.RefusedFileStays | crates/falach-tui/src/user_config.rs:401-422 | A file that is malformed or out of range is never replaced by anyone in any run. |
| UserConfig.UpdateAt | crates/falach-tui/src/user_config.rs:303-324 | Ok means the file is the latest acceptable contents with the update applied; a refusal means it is malformed or out of range, and untouched. |
| UserConfig.LoadOrGenerate | crates/falach-tui/src/user_config.rs:348-392 | Never fails and always returns settings in range; an existing file is never written, and a missing one becomes the catalog unless a warning says otherwise. |
| UserConfig.Clamp | crates/falach-tui/src/user_config.rs:446-462 | The result is in range and the nearest in-range ratio; no warning exactly when nothing had to change. |
| UserConfig.SettersAreOneSided | crates/falach-tui/src/user_config.rs:247-254 | Each Settings change reads and writes one field only, so it falls on one side of any split of the fields. |
| Sampling.ExactlyUniform | crates/falach-genpw/src/sampling.rs:47-59 | For every range from 1 to 2^32 - 1, each index is the remainder of exactly threshold / range accepted words, and between 1 and `range` words are rejected. |
| Sampling.ThresholdIsLargest | crates/falach-genpw/src/sampling.rs:52-52 | The threshold is the largest usable one if and only if the range does not divide 2^32; when it does, exactly one block of good words is rejected too. |
| Sampling.StreamsAreUniform | crates/falach-genpw/src/sampling.rs:47-59 | Over word streams of any length, an involution turns the draws of one index into the draws of another: the whole loop, not only one word, is uniform. |
| Sampling.DrawsAreUniform | crates/falach-genpw/src/sampling.rs:47-59 | For any list of ranges, as many as a password takes: any two vectors of indices are given by as many byte strings of each length, shown by an involution that also keeps apart the strings that suffice and those that run out. |
| Sampling.DrawsSucceedExactly | crates/falach-genpw/src/sampling.rs:47-59 | Any list of draws succeeds if and only if there are four bytes for each draw and for each rejected word, and reads exactly that many. |
| Sampling.WordsAreBytes | crates/falach-genpw/src/sampling.rs:29-38 | Reading four bytes as a little-endian word is a bijection. |
| Sampling.ByteCursor.UniformIndex | crates/falach-genpw/src/sampling.rs:47-59 | Draws the first accepted word at or after the position, having read in all a word for each draw and each rejection; an error means that the words left are too few for that. |
| Shuffle.ShuffleInjective | crates/falach-genpw/src/password.rs:190-193 | Different choice vectors give different arrangements of distinct elements, for every length. |
| Shuffle.ShuffleSurjective | crates/falach-genpw/src/password.rs:190-193 | Every arrangement of the elements, repeated ones included, is reached by some choice vector. |
| Shuffle.ShuffleKeepsAll | crates/falach-genpw/src/password.rs:190-193 | The shuffle only rearranges. |
| Shuffle.ShuffleInPlace | crates/falach-genpw/src/password.rs:190-193 | The loop over the array carries out exactly the arrangement of its choices, one accepted draw for each position from the last down to 1. |
| Charset.ClassesSurviveFilter | crates/falach-genpw/src/charset.rs:88-112 | With or without the filter every enabled class keeps a character, so the alphabet is empty exactly when nothing is enabled. |
| Charset.AlphabetIsUnion | crates/falach-genpw/src/charset.rs:105-122 | The alphabet holds exactly the characters of the enabled classes that the filter does not exclude. |
| Charset.BuildAlphabet | crates/falach-genpw/src/charset.rs:105-111 | The loop builds the concatenation of the filtered classes. |
| Password.GeneratedIsAcceptable | crates/falach-genpw/src/password.rs:154-196 | Whatever is drawn, the password has the requested length, only characters of the filtered alphabet, and one of each enabled class. |
| Password.AcceptableIsGenerated | crates/falach-genpw/src/password.rs:154-196 | Conversely, every password with those three properties is one the generator can make. |
| Password.GenerateFromBytes | crates/falach-genpw/src/password.rs:154-196 | The password is a function of the bytes. After validation it fails exactly when the bytes are fewer than four for each of the 2 * length - 1 draws and for each word rejected among them, and running out is the only failure left; an empty alphabet cannot occur. |
| Password.Generate | crates/falach-genpw/src/password.rs:99-120 | Unless the buffer size saturates, the bytes of `generate` suffice if and only if at most 65 of their words are rejected. |
| Password.SufficesExactly | crates/falach-genpw/src/password.rs:154-196 | For every request and every byte string: there is a password if and only if the bytes hold a word for each of the 2 * length - 1 draws and for each word that is rejected. |
| Password.ArrangementsAreUniform | crates/falach-genpw/src/password.rs:190-193 | Whatever distinct characters were picked, all their arrangements are equally likely: an involution on the byte strings of each length turns those that pick them and arrange them one way into those that pick them and arrange them any other way. |
| Password.ValidIsPossible | crates/falach-genpw/src/password.rs:123-139 | Validation refuses exactly the requests that no password could meet, with the reason: no length, no class, or fewer positions than classes. |
| Password.ClassesDisjoint | crates/falach-genpw/src/charset.rs:13-28 | No character belongs to two classes. |
| AutoLock.LockedUntilUnlock | crates/falach-security/src/auto_lock.rs:209-258 | Locked persists through any run without an unlock. |
| AutoLock.LockRequestIsHonoured | crates/falach-security/src/auto_lock.rs:226-241 | A lock request that was sent is honoured by the next tick whatever was queued or called in between, an unlock included, and holds until an unlock. |
| AutoLock.StepLocksExactly | crates/falach-security/src/auto_lock.rs:334-350 | A step locks if and only if it was asked to or is the quiet tick after the warning; it warns if and only if it is a quiet tick past the deadline. Idleness alone never goes from Active to Locked in one tick. |
| AutoLock.LockHasCause | crates/falach-security/src/auto_lock.rs:209-258 | Every run that ends Locked was asked to lock, or ticked past the deadline and then ticked again with nothing but sends in between. |
| AutoLock.WarningIsDue | crates/falach-security/src/auto_lock.rs:334-350 | Expired is never early: the tick that warned came at or after last activity plus timeout. |
| AutoLock.TwoLateTicksLock | crates/falach-security/src/auto_lock.rs:226-241 | Without activity, two ticks at or after the deadline end Locked, and the first already leaves Active. |
| AutoLock.CountdownIsExact | crates/falach-security/src/auto_lock.rs:318-328 | `time_until_lock` predicts exactly the tick that warns; at the deadline itself it shows zero, not nothing. |
| AutoLock.CountdownBeforeActivity | crates/falach-security/src/auto_lock.rs:318-328 | Read at an instant before the last activity, the countdown is early by exactly that gap. |
| AutoLock.AutoLockController.Tick | crates/falach-security/src/auto_lock.rs:226-241 | Drains the whole queue and then applies idle accounting once, as the run-level specification does. |
| AutoLock.AutoLockController.New | crates/falach-security/src/auto_lock.rs:193-204 | Only a zero timeout is refused. |
| Clipboard.NewestCopiesAreCleared | crates/falach-tui/src/clipboard.rs:51-59 | Over any interleaving, while the sink lives the newest eight copies are never cancelled, so each still waits or has fired; and at most eight timers wait between copies. |
| Clipboard.EvictedIsNinth | crates/falach-tui/src/clipboard.rs:53-57 | The guard dropped for room is that of the copy which exactly eight newer ones have followed. |
| Clipboard.ClearsOnlyAfterOwnRead | crates/falach-security/src/clipboard.rs:179-210 | A timer clears only after it has itself read its own payload, and clears once. |
| Clipboard.ClearIsSafeExactly | crates/falach-security/src/clipboard.rs:194-197 | A clear takes away the timer's own payload if and only if no write came between its read and its clear, or the last such write put the same text there. |
| Clipboard.AnothersTextCanBeCleared | crates/falach-security/src/clipboard.rs:194-197 | A concrete run in which text copied by another program between the read and the clear is lost. |
| Clipboard.SystemClipboard.CopyWithAutoclear | crates/falach-security/src/clipboard.rs:128-165 | Ok means the newest timer is armed for this text; an error arms nothing. The text is written on Ok, and on an error if and only if it was the timer that failed to start; the content is what the last write left. |
| Clipboard.FailedSpawnLeavesText | crates/falach-security/src/clipboard.rs:148-158 | In every run, what is on the clipboard when a timer fails to start is there later if and only if nothing was written since, or the last thing written is the same text. |
| Clipboard.ClearedAfterFailedSpawn | crates/falach-security/src/clipboard.rs:179-210 | If nobody copies in between, the first timer to clear it had either found its own payload before, or was armed for the very same text. |
| Clipboard.FailedSpawnRun | crates/falach-security/src/clipboard.rs:148-158 | A two-step run after which the password is on the clipboard and no timer exists. |
| Clipboard.ReplayIsRun | crates/falach-security/src/clipboard.rs:128-210 | What the sink's calls do, interleaved with timers and other programs, is a run of the clipboard machine, so the theorems about runs apply to it. |
| Clipboard.SystemClipboard.Copy | crates/falach-tui/src/clipboard.rs:51-59 | Ok means the newest timer is this copy's and uncancelled, its guard the last of at most eight, and only the oldest was dropped; an error loses no guard. |
| SyncRuntime.OneHolder | crates/falach-tui/src/sync_runtime.rs:147-186 | At every moment of every run the open vault is held by exactly one of caller, worker and message, or by none after a panic until one is opened again; and it is that same vault. |
| SyncRuntime.OneTerminalForEachStart | crates/falach-tui/src/sync_runtime.rs:193-225 | Each start yields one terminal message, the last of its messages; a sync is in flight exactly until it is drained; WorkerLost comes once for each panic and never in place of a Done that was sent. |
| SyncRuntime.SyncRuntime.Drain | crates/falach-tui/src/sync_runtime.rs:193-225 | Hands over exactly what was added to the history, at most one terminal message and that one last; after Done the caller has its vault. |
| SyncRuntime.SyncRuntime.Start | crates/falach-tui/src/sync_runtime.rs:147-187 | The caller gives its vault up and a sync is in flight. |
| Recents.CappedIsFirst | crates/falach-tui/src/recents.rs:51-55 | After any run of bumps the list is the first 50 of the unbounded list, without duplicates. |
| Recents.ListIsHistory | crates/falach-tui/src/recents.rs:51-55 | The unbounded list is the history of bumps read backwards, first occurrences only. |
| Recents.SavedListIsReadBack | crates/falach-tui/src/recents.rs:35-46 | Reading a saved list back gives it again, and so would reading the whole history. |
| Recents.ForgetOfFirst | crates/falach-tui/src/recents.rs:58-60 | Forgetting keeps the list the first 50 of the unbounded one if and only if nothing had been cut or the entry was not among the 50. |
| Recents.Recents.Bump | crates/falach-tui/src/recents.rs:51-55 | The entry comes first, once, and the tail beyond 50 is dropped. |
| Recents.Recents.Rank | crates/falach-tui/src/recents.rs:64-66 | The inverse of indexing: a position exactly when the entry is there, and exactly its place. |
| Lists.FirstDistinct | crates/falach-tui/src/recents.rs:35-46 | Keeps the first occurrences in order, cut at the cap. |
| JumpHistory.BackThenForward | crates/falach-tui/src/jump_history.rs:45-70 | Forward after an anchored back restores both stacks. |
| JumpHistory.ForwardThenBack | crates/falach-tui/src/jump_history.rs:45-70 | Back after an anchored forward restores both stacks if and only if the trail was not full. |
| JumpHistory.TrailStaysGood | crates/falach-tui/src/jump_history.rs:34-83 | Over every run at most 100 nodes lie behind; when steps forward are anchored the whole trail has at most 100 nodes and no consecutive duplicates. |
| JumpHistory.VisitsAreLast | crates/falach-tui/src/jump_history.rs:34-41 | After any run of visits the trail is the last 100 nodes of the unbounded trail with consecutive duplicates collapsed, the latest on top. |
| JumpHistory.BackKeepsTrail | crates/falach-tui/src/jump_history.rs:45-58 | An anchored step back moves along the trail without changing it. |
| JumpHistory.ForwardKeepsTrail | crates/falach-tui/src/jump_history.rs:61-70 | So does an anchored step forward. |
| JumpHistory.ForwardRepeatsExactly | crates/falach-tui/src/jump_history.rs:61-70 | A step forward leaves no consecutive duplicates if and only if it is anchored or the selection is not already the node ahead. |
| JumpHistory.UnanchoredForwardRepeats | crates/falach-tui/src/jump_history.rs:61-70 | A concrete run in which an unanchored step forward repeats a node. |
| JumpHistory.JumpHistory.StepBack | crates/falach-tui/src/jump_history.rs:45-58 | The two stacks and the answer are those of the specified step back, realigned on the live selection first. |
| JumpHistory.JumpHistory.StepForward | crates/falach-tui/src/jump_history.rs:61-70 | The two stacks and the answer are those of the specified step forward. |
| Tabs.BarStaysOk | crates/falach-tui/src/tabs.rs:84-217 | Over every run from any saved list, the activation order is a permutation of the pins without duplicates, there are at most five, and the active index names a tab. |
| Tabs.OldestIsEvicted | crates/falach-tui/src/tabs.rs:181-192 | The pin evicted for a sixth is the one whose last pinning or activation in the whole history is the oldest; the others stay in place. |
| Tabs.NewPinIsSafe | crates/falach-tui/src/tabs.rs:168-202 | A pin just made is not the next to be evicted. |
| Tabs.UnpinShiftsExactly | crates/falach-tui/src/tabs.rs:173-179 | Unpinning leaves the same tab active if and only if the active tab is to the left of the pin or is Settings; otherwise the next tab becomes active. |
| Tabs.NextThenPrev | crates/falach-tui/src/tabs.rs:136-146 | Next and previous undo each other. |
| Tabs.TabBar.TogglePin | crates/falach-tui/src/tabs.rs:173-202 | The reported change says whether the entry was pinned before, whether the bar was full, and which pin went; the whole bar follows the specification. |
| Tabs.TabBar.Next | crates/falach-tui/src/tabs.rs:136-139 | The next tab round the bar becomes active, and its activation is recorded. |
| Tabs.TabBar.Prev | crates/falach-tui/src/tabs.rs:142-146 | The tab from which next leads back becomes active, and its activation is recorded. |
| Tabs.TabBar.JumpTo | crates/falach-tui/src/tabs.rs:150-155 | Reaches the tab of that ordinal exactly when there is one, and otherwise does nothing. |
| Tabs.TabBar.WithPins | crates/falach-tui/src/tabs.rs:84-102 | From any saved list, the first five distinct pins, the leftmost the oldest. |
| TabLayout.MiddleEllipsis | crates/falach-tui/src/tabs.rs:370-385 | The label fits if and only if there is a column for the ellipsis or nothing to show; its head and tail are the longest pieces their budgets allow, and do not overlap. |
| TabLayout.TakeWidthPrefix | crates/falach-tui/src/tabs.rs:388-400 | The longest prefix that fits: no longer one does. |
| TabLayout.TakeWidthSuffix | crates/falach-tui/src/tabs.rs:403-415 | The longest suffix that fits: no longer one does. |
| TabLayout.WidthOfIsLineWidth | crates/falach-tui/src/tabs.rs:361-365 | The width the layout decides by is the width of the joined line that is drawn. |
| TabLayout.LayoutParts | crates/falach-tui/src/tabs.rs:291-321 | Full titles if the line fits, else shrunk pins if that fits, else ordinals: a labelled line always fits, a line of ordinals fits if and only if twice the number of tabs and one more columns are available, and every tab keeps its place. |
| TabLayout.OrdinalsWidth | crates/falach-tui/src/tabs.rs:308-320 | The exact width of the ordinals of any number of tabs, which is 2n + 1 for n of at most nine. |
| TabLayout.OrdinalsCanOverflow | crates/falach-tui/src/tabs.rs:308-320 | The last resort is not guaranteed to fit: two tabs need five columns, and get ordinals in any fewer. |
| TabLayout.HitRegions | crates/falach-tui/src/tabs.rs:235-252 | A click hits tab k if and only if the drawn line, clipped to its area, shows label k in that column and the row is not the last that 16 bits can name: regions are disjoint, ordered and exact, and 16-bit saturation never wraps one. |
| XmlNormalizer.SortIsCanonical | tools/interop-tests/lib/kpxc-diff.py:15-29 | Two trees sort to the same tree if and only if, at every depth, they differ only in where entries stand among their siblings, the order of other children and of entries with equal UUID kept. |
| XmlNormalizer.SortIsIdempotent | tools/interop-tests/lib/kpxc-diff.py:15-29 | Sorting twice is sorting once, and each node keeps its multiset of children. |
| XmlNormalizer.ArrangedFacts | tools/interop-tests/lib/kpxc-diff.py:23-29 | Siblings come out in order, none lost and none added. |
| XmlNormalizer.ArrangedPicked | tools/interop-tests/lib/kpxc-diff.py:23-29 | The sort is stable. |
| XmlNormalizer.SortKeepsKind | tools/interop-tests/lib/kpxc-diff.py:16-26 | Sorting below a child moves nothing that decides where the child goes. |
| XmlNormalizer.SortedIsAlike | tools/interop-tests/lib/kpxc-diff.py:15-29 | A tree and its sorted form differ only in where entries stand. |
| XmlNormalizer.ComparesEqualExactly | tools/interop-tests/lib/kpxc-diff.py:32-49 | Two exports compare equal if and only if, time stamps and volatile items apart, they differ only in where entries stand. A node is a tag, a text and children, without attributes and tails; its text is the one `ET.indent` leaves, which rewrites white space in elements that have children. |
| XmlNormalizer.NormalizeIsIdempotent | tools/interop-tests/lib/kpxc-diff.py:32-46 | Normalising a normalised export changes nothing. |
| XmlTree.Element.SortEntryChildren | tools/interop-tests/lib/kpxc-diff.py:15-29 | Reassigning the child lists in place, from the leaves up, leaves the tree that the specification says, with no element lost or shared. |
| XmlTree.Element.FindText | tools/interop-tests/lib/kpxc-diff.py:26-26 | The text of the first child with the tag. |
| XmlTree.Element.BlankTimes | tools/interop-tests/lib/kpxc-diff.py:36-38 | Overwrites the texts of exactly the time elements, and nothing else in the tree. |
| XmlTree.Element.RemoveVolatile | tools/interop-tests/lib/kpxc-diff.py:40-44 | Removes exactly the volatile items of every custom-data element below the root, in place. |
| XmlTree.Element.Normalize | tools/interop-tests/lib/kpxc-diff.py:36-46 | The three passes in place leave exactly the normalised tree. |
| XmlTree.Sorted | tools/interop-tests/lib/kpxc-diff.py:23-29 | The same elements, in the stable order of their keys. |

## Left out

- Entry-level merge rules, the S3 client, request signing, credential lookup, the `If-Match` probe and backends without it: only their contracts are used, so SyncRun.MergeFunction is any function that keeps both inputs.
- Encryption, key derivation, the KDBX format and the hash function: saves give fresh bytes and hashes determine bytes.
- TOML syntax: parsing and serialising are an abstract pair, so only equality of contents matters.
- Vaults opened again after a failed sync: a failed run ends, and the next one starts from the file.
- `S3Config` setters and `PasswordBuilder` setters: modelled as functions on values, so their update in place is not captured.
- Attributes, tails, indentation and serialisation of exported XML: library code that acts on equal trees alike; `ET.indent` rewrites white space in elements that have children, so texts are taken as it leaves them.
- Signal handlers, terminal settings, memory locking, panic hooks, permissions and thread start-up: foreign calls.
- The command line, exit codes, themes, rendering, mouse handling and the event loop: single-branch mappings.
- Passphrases and the word list: they draw with the same uniform index.
- SyncRun.Transport.Others: other devices take any steps of the protocol but a first seed over an existing object, and every write gets a new version; what such a seed does is stated in SyncProtocol.
- TabLayout.HitRegions: the coordinates saturate at 16 bits as in the code; the conversion of a label wider than that is clipped, and such a label never fits its area.
- Sampling: the range is one that fits 32 bits, since the conversion panics otherwise.
- RegistryProtocol: a process reads its clock, prompts and endpoint validation as it likes, so what is configured or recorded is any value the calls admit.
- Clipboard timers: when a deadline falls is not modelled, so a waiting timer may fire at any moment.
