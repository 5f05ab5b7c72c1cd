# Verified models of the kernel build

The repository builds, tests and installs the Linux kernel for a small virtual machine. This project
models the parts of it that are hard to get right and proves what they promise, in Dafny 4.11.
`dafny verify dfyconfig.toml` checks everything.

- **The polling idle loop** (`IdleProtocol`, `IdleWindow`, `PollWindow`). One idle CPU, any number of wakers, device
  interrupts and event-stream kicks as a transition system, one step at a time. No interleaving loses a
  wakeup, every elided IPI is repaid, and a wakeup is served within a bounded number of the CPU's own
  steps; a CPU with nothing to do leaves its window when idle_poll_ns is up, and parks. The patch's design and the two it rejects are instances of one machine. `PollWindow` is the
  do/while loop itself over a 64-bit clock, with how long it lasts and what ends it.
- **The artifact store** (`Files`, `Download`, `Fetch`, `RootDisk`, `Archives`, `LlvmTree`,
  `SeedKernel`, `Scratch`). A tree of file contents, changed by one operation at a time by a process that can be
  killed between any two. What an operation of the program would do if nothing stopped it is a *plan*;
  the methods, which act on a `Disk` with so many operations left to live, are proved to perform exactly
  that plan or the part of it before the kill, and the lemmas say what every part of a plan leaves
  behind. Histories are sequences of runs with any pins, any network and any kills. A step that returns
  an error ends the run like a kill at that step. `Scratch` puts the steps together into whole runs on
  one directory and shows that the artifacts keep all their promises at once.
- **The build, boot and promote protocol** (`Status`, `Vm`, `Promotion`). The host, the virtual machine
  and PID 1 of the guest as one machine whose only channel is the status file. `cfg.Out` only ever holds
  bytes that were booted in the run that put them there, by a guest that ended with status 0
  and said so, unless that boot found a status that already read 0.
- **The kernel-config pipeline** (`ConfigLines`, `BuildDrift`, `TinyBase`, `MergeFragments`, `Ikconfig`,
  `GoldenFile`, `ConfigPipeline`, `Extract`, `ConfigCheck`). Five programs read the same line language in shell, awk,
  sed and Go; the theorems say where their readings agree and where they do not.
- **The lexical path functions** (`Paths`, `DiskPath`, `LlvmPaths`). Go's `path.Clean` as its buffer loop,
  proved equal to a walk over components, and on top of it exactly which tar names and links stay inside
  their destination.

`Text` and `Wrappers` hold the byte-string operations and the option type the others use. A `string`
stands for a sequence of bytes. Lemmas carry `{:induction false}`: an inductive argument is always
written out.

## Where a promise has an exception

Each of these is stated as a lemma with the inputs, next to the exact condition under which the promise
holds.

- A kill between renaming the root disk into place and writing its stamp makes a return to the old key
  reuse the newer disk (`RootDisk.RevertReusesNewerDisk`; exactly then, `RootDisk.ReuseIsRightIff`).
- A kill while the LLVM directory is being cleared can leave the old stamp over a part of the old tree,
  which is then reused (`LlvmTree.TornTreeReused`; exactly then, `LlvmTree.StampMeansComplete`).
- The stale status is removed with its error ignored. After a run that promoted, where the next one fails
  to remove the zero it left, a kernel whose guest never ended is promoted
  (`Promotion.StaleStatusPromotes`). Whatever passes the build or the smoke test is vouched for exactly if
  the status file of its share does not read 0 when the machine is booted (`Promotion.VouchedIff`); a
  removal that succeeds is enough (`Promotion.RemovalSuffices`).
- `ikconfig golden` of an empty set reads back as one empty line, so a later `verify` fails
  (`GoldenFile.SnapshotThenVerify`; exactly then, `GoldenFile.RoundTripIff`).
- build.sh:160 asks for a decision on every symbol of the tinyconfig base; its check asks, as
  kernel-fragment:56 puts it, for a mention. The two differ exactly for the symbols that a remark mentions
  and no line decides (`TinyBase.RemarkNames`, `TinyBase.GateIsExact`).
- A poll after the polling bit is cleared does worse than what patch 0002 rejects it for: besides sparing
  no IPI it can lose a wakeup (`IdleProtocol.LateWindowLoses`; every design that loses none,
  `IdleProtocol.RecheckIsExact`).

## Model

| member | source | states |
|---|---|---|
| IdleProtocol.InvStep | kernel/patches/0002-arm64-idle-poll-need_resched-and-elide-wakeup-IPI.patch:12-24 | every step of the CPU, a waker, a device, the event stream or time keeps the invariant behind the wakeup properties, in every design that tests the flags word after the clear with no window of any length between that test and the park |
| IdleProtocol.NoLostWakeup | kernel/patches/0002-arm64-idle-poll-need_resched-and-elide-wakeup-IPI.patch:21-24 | in no run is the CPU ever parked with a wakeup made or NEED_RESCHED set and neither an interrupt pending nor a waker about to send one |
| IdleProtocol.RecheckNeeded | kernel/patches/0002-arm64-idle-poll-need_resched-and-elide-wakeup-IPI.patch:23-24 | without the test after the clear there is a run that loses a wakeup, wherever the window is and for every length of it |
| IdleProtocol.LateWindowLoses | kernel/patches/0002-arm64-idle-poll-need_resched-and-elide-wakeup-IPI.patch:18-19 | with the test and a window of any length after it there is one too: an interrupt taken inside the window |
| IdleProtocol.RecheckIsExact | kernel/patches/0002-arm64-idle-poll-need_resched-and-elide-wakeup-IPI.patch:12-24 | for every design, no run loses a wakeup if and only if the flags word is tested after the clear and the window, unless idle_poll_ns is 0, is not between that test and the park |
| IdleProtocol.ElisionRepaid | kernel/patches/0002-arm64-idle-poll-need_resched-and-elide-wakeup-IPI.patch:148-152 | when a waker found the polling bit set, and so sent no IPI, then before the CPU next parks a loop test sees NEED_RESCHED and the scheduler acts on that very wakeup |
| IdleProtocol.WhereElisionHappens | kernel/patches/0002-arm64-idle-poll-need_resched-and-elide-wakeup-IPI.patch:12-24 | in every design a waker elides its IPI exactly while the CPU is at the loop test, in a window before the clear, or about to clear the bit: never from a poll after the clear or from the park onward |
| IdleProtocol.WindowMask | kernel/patches/0002-arm64-idle-poll-need_resched-and-elide-wakeup-IPI.patch:32-45 | interrupts are masked on entry to the window, open at each point inside it, and masked again when the bit is cleared and when parked |
| IdleProtocol.NeverStuck | kernel/patches/0002-arm64-idle-poll-need_resched-and-elide-wakeup-IPI.patch:106-114 | with a delivered wakeup outstanding the CPU always has a move of its own, asleep or not |
| IdleProtocol.OwnStepProgress | kernel/patches/0002-arm64-idle-poll-need_resched-and-elide-wakeup-IPI.patch:106-114 | each of its moves serves everything outstanding or strictly comes nearer to it, losing nothing |
| IdleProtocol.WakeupServed | kernel/patches/0002-arm64-idle-poll-need_resched-and-elide-wakeup-IPI.patch:106-114 | left to itself the CPU serves everything outstanding within a bounded number of its own steps |
| IdleWindow.WindowLeft | kernel/patches/0002-arm64-idle-poll-need_resched-and-elide-wakeup-IPI.patch:176-193 | the CPU leaves a window only by a look that saw a resched bit, or at a clock at least idle_poll_ns past the one at which it began to poll |
| IdleWindow.ClearsAfterWindow | kernel/patches/0002-arm64-idle-poll-need_resched-and-elide-wakeup-IPI.patch:106-114 | in the patch's design the polling bit is never cleared but straight after a window |
| IdleWindow.IdleParks | kernel/patches/0002-arm64-idle-poll-need_resched-and-elide-wakeup-IPI.patch:171-174 | with idle_poll_ns gone by, nothing stored and no interrupt, the CPU parks within nine steps of its own, whatever kicks and ticks come between |
| IdleWindow.KickFrees | kernel/patches/0002-arm64-idle-poll-need_resched-and-elide-wakeup-IPI.patch:47-51 | on that way it never waits for anything but the next kick of the event stream |
| IdleWindow.LeavesOnResched | kernel/patches/0002-arm64-idle-poll-need_resched-and-elide-wakeup-IPI.patch:103-116 | the idle loop is left only where NEED_RESCHED is seen, not for the lazy bit |
| PollWindow.IdleCpu.PollWindow | kernel/patches/0002-arm64-idle-poll-need_resched-and-elide-wakeup-IPI.patch:176-193 | the loop ends at the instant Exit names, leaves interrupts masked as it found them, and looked at no resched bit before its last look |
| PollWindow.ExitAtFirstBit | kernel/patches/0002-arm64-idle-poll-need_resched-and-elide-wakeup-IPI.patch:186-191 | no instant before the exit had a resched bit, and an exit before the deadline has one |
| PollWindow.ExitBounded | kernel/patches/0002-arm64-idle-poll-need_resched-and-elide-wakeup-IPI.patch:47-51 | with kicks at most `kick` apart the loop ends at most that long after the last instant inside the window |
| PollWindow.WindowBounded | kernel/patches/0002-arm64-idle-poll-need_resched-and-elide-wakeup-IPI.patch:171-193 | the window lasts idle_poll_ns and at most a kick more, no less unless a resched bit ended it, and a single wait when the sum wraps the 64-bit clock |
| PollWindow.InterruptSeen | kernel/patches/0002-arm64-idle-poll-need_resched-and-elide-wakeup-IPI.patch:160-169 | an interrupt in the open window makes the loop look at the word at that instant, unless it has left by then |
| PollWindow.MaskedWindowOversleeps | kernel/patches/0002-arm64-idle-poll-need_resched-and-elide-wakeup-IPI.patch:32-45 | a masked window can sleep through an interrupt an open one ends on, until a kick past the deadline |
| Files.RunIsPrefix | cmd/ossein-kernel/main.go:91-94 | a killed process leaves the effect of a prefix of its plan |
| Files.Disk.Do | cmd/ossein-kernel/main.go:91-94 | one operation takes effect whole, or the kill comes first and nothing changes |
| Download.Copy | cmd/ossein-kernel/main.go:1102-1137 | appends the body read by read until its end or a failed read or write, and returns the number of bytes received when it succeeds |
| Download.WithRetries | cmd/ossein-kernel/main.go:616-647 | performs the attempts up to the first that succeeds, is cancelled or is the third, and returns that attempt's outcome and byte count |
| Download.TryOnce | cmd/ossein-kernel/main.go:692-736 | one GET truncates the temporary file and copies into it, and succeeds only if the close does too |
| Download.AttemptOkIff | cmd/ossein-kernel/main.go:692-736 | a GET succeeds exactly if it was answered, its body was read to its end with every write done, and the file closed |
| Download.ReceivedIs | cmd/ossein-kernel/main.go:1102-1137 | what is received are the bytes of all reads up to the one that brought the end, that one's included |
| Download.DecidingIff | cmd/ossein-kernel/main.go:616-647 | the last attempt is the first that succeeds or sees a cancellation, or the third |
| Download.CopyConserves | cmd/ossein-kernel/main.go:1102-1137 | a body copied to its end is in the file byte for byte |
| Download.DownloadConserves | cmd/ossein-kernel/main.go:616-647 | after a download that succeeded the temporary file is exactly what the last attempt received, with nothing of an earlier one |
| Fetch.FetchFile | cmd/ossein-kernel/main.go:652-687 | performs fetchFile's plan up to the kill and returns nil, a download failure or a checksum mismatch as the cache, the network and the pin say |
| Fetch.FetchAtomic | cmd/ossein-kernel/main.go:652-687 | wherever the kill comes, the file at dest is the old one or the complete download of this run that passed its pin, and no third file changes |
| Fetch.FetchObtains | cmd/ossein-kernel/main.go:588-611 | a nil return leaves the cached or downloaded bytes at dest, and with a pin their digest equals it |
| Fetch.EqualFoldIff | cmd/ossein-kernel/main.go:1162-1180 | digest and pin match exactly if they have one length and at each place the same letter, in either case, or the same other character |
| Fetch.OnlyThePinnedBytes | cmd/ossein-kernel/main.go:652-687 | with a lower-case pin, the file a run puts at dest has that very digest wherever it is killed, and a nil return leaves such a file |
| Fetch.AnswerIs | cmd/ossein-kernel/main.go:588-687 | a cached file that is not empty and has the pin's digest is enough and nothing is done; otherwise the download decides, and any other digest is a mismatch |
| Fetch.NoPartialLeft | cmd/ossein-kernel/main.go:679-686 | a download that is installed leaves no partial file |
| Fetch.KeyedNameIs | cmd/ossein-kernel/main.go:574-586 | the first twelve characters of the pin go between the stem and all its extensions |
| Fetch.CachePathSpelled | cmd/ossein-kernel/main.go:574-586 | the keyed path is the base's directory and one more component that carries the key between stem and extensions |
| Fetch.CachePathsApart | cmd/ossein-kernel/main.go:574-586 | pins with different twelve-character keys never share a path, and no partial file is another pin's file |
| Fetch.HistoryVerified | cmd/ossein-kernel/main.go:574-611 | over every history of pins with distinct keys and every kill, each pinned file that is there has its pin's digest |
| Fetch.PinBumpIsAMiss | cmd/ossein-kernel/main.go:588-611 | such a history from an empty cache never reaches the failed-checksum branch |
| Fetch.SharedKeyFails | cmd/ossein-kernel/main.go:574-611 | two pins that share a key share a file, and the one's cached file is a failed checksum for the other |
| RootDisk.PrepareRootfs | cmd/ossein-kernel/main.go:486-530 | performs the plan build, rename, stamp up to the kill, and returns a disk exactly when it reuses one or the build succeeds |
| RootDisk.BuildImage | internal/rootfs/rootfs.go:50-110 | replaces the file at the output path, writes it, and removes it again on failure, one operation at a time |
| RootDisk.CacheKeyInjective | cmd/ossein-kernel/main.go:534-548 | equal keys mean the same image reference and the same init |
| RootDisk.AfterRun | cmd/ossein-kernel/main.go:509-526 | what each point of a kill leaves at the disk's and the stamp's path: never anything but the old disk or the complete new one |
| RootDisk.FailedBuildCleans | internal/rootfs/rootfs.go:105-110 | a build that fails removes what it wrote |
| RootDisk.NothingToReuse | cmd/ossein-kernel/main.go:495-501 | a missing or empty disk is never reused, whatever the stamp says |
| RootDisk.DiskAndStamp | cmd/ossein-kernel/main.go:486-530 | over every history of keys and kills the disk is the complete output of the last run that renamed one, and the stamp is the key of the last run that wrote one |
| RootDisk.ReuseIsRightIff | cmd/ossein-kernel/main.go:495-501 | a run for a key reuses the disk exactly when the last stamp is its key; the reused bytes are a build for the key if the last run to rename a disk wrote its stamp too or was for the key, and, where the bytes tell keys apart, only if |
| RootDisk.NoGapNoMixup | cmd/ossein-kernel/main.go:486-530 | where no run stopped between rename and stamp, a reused disk is a build for the key |
| RootDisk.RevertReusesNewerDisk | cmd/ossein-kernel/main.go:516-526 | the gap is real: after a run for another key stopped in it, a return to the first key is handed the other key's disk |
| LlvmTree.PrepareLlvm | cmd/ossein-kernel/main.go:767-805 | performs the plan fetch, clear, extract, stamp up to the kill and succeeds exactly when the stamp matches or both fetch and extraction do |
| LlvmTree.Extract | cmd/ossein-kernel/main.go:807-861 | extracts entry by entry, up to the first whose name or link escapes |
| LlvmTree.ExtractedIs | cmd/ossein-kernel/main.go:833-860 | after extraction every path holds what the last archive entry placed there says, and what no entry brings is as it was |
| LlvmTree.AfterRun | cmd/ossein-kernel/main.go:786-804 | what a run leaves below the directory by how far it got: the tree as it was, the tree less what was cleared with another sha's stamp still there, no stamp, or the complete tree |
| LlvmTree.StampMeansComplete | cmd/ossein-kernel/main.go:767-805 | over every history of shas, downloads, clearing orders and kills, a stamp equal to a sha stands over the complete extraction of a tarball with that digest that was read to its end and in which nothing escapes, exactly when no run since that stamp was killed while clearing, and such a run wanted another sha |
| LlvmTree.FreshlyReadyIff | cmd/ossein-kernel/main.go:780-804 | a run that reuses nothing and is not killed succeeds exactly if its download does, the tarball is read to its end, no entry to be placed escapes and every link placed is acceptable |
| LlvmTree.CompleteIs | cmd/ossein-kernel/main.go:833-860 | the complete tree holds the sha at the stamp and everywhere else what the last entry placed there brought |
| LlvmTree.FinalIff | cmd/ossein-kernel/main.go:833-860 | that entry is the last of those that bring anything to the path |
| LlvmTree.TornTreeReused | cmd/ossein-kernel/main.go:786-791 | a run for another sha killed after its first removal leaves a tree that lacks a file and is reused for the first sha |
| SeedKernel.ExtractSeed | cmd/ossein-kernel/main.go:1037-1100 | writes the first regular entry whose base name starts with vmlinux to a partial file and renames it only when it was read to its end |
| SeedKernel.SeedOfIff | cmd/ossein-kernel/main.go:1054-1067 | the seed is the data of the first regular entry whose last component begins with vmlinux, if reading did not fail in it |
| SeedKernel.BaseIs | cmd/ossein-kernel/main.go:1061 | the last component of a path is what stands behind its last slash, trailing slashes aside |
| SeedKernel.FetchSeed | cmd/ossein-kernel/main.go:1012-1032 | performs the plan fetch, extract, rename up to the kill, or nothing when a seed is cached |
| SeedKernel.ResolveBootstrap | cmd/ossein-kernel/main.go:989-1010 | boots from the last output if it has at least a mebibyte, from the seed otherwise, and from nothing if that cannot be had |
| SeedKernel.AfterRun | cmd/ossein-kernel/main.go:1012-1032 | wherever a run is killed the seed is the old one or the whole kernel of its own tarball, and a cached one is never replaced |
| SeedKernel.SeedIsWhole | cmd/ossein-kernel/main.go:1069-1100 | over every history of pins and kills what is at the seed's path is the whole kernel of a tarball that passed the pin of some run |
| SeedKernel.SeedIsFirst | cmd/ossein-kernel/main.go:1012-1032 | the cached seed is that of the one run before which none was cached, verified against that run's pin, whatever pins came after |
| SeedKernel.OtherPinsSeedIff | cmd/ossein-kernel/main.go:1012-1018 | for a digest without collisions it is a later pin's seed exactly when that pin's tarball carries the same kernel |
| SeedKernel.SeedIsSticky | cmd/ossein-kernel/main.go:1012-1018 | once cached, no history of later pins changes it |
| Scratch.Build | cmd/ossein-kernel/main.go:188-269 | run prepares its artifacts in order, with staging and the machines' work between, up to the first error or the kill, and is done exactly if it met neither |
| Scratch.FinishedJob | cmd/ossein-kernel/main.go:188-269 | a run that is done leaves a root disk the next run for the key would reuse, the source tarball with its pin's digest, the toolchain stamped with its sha, and had or leaves a kernel to boot from |
| Scratch.ActKeepsToItsArea | cmd/ossein-kernel/main.go:61-65 | each step does among its own files what it would do alone, and leaves the other artifacts' files as they are |
| Scratch.EachOnItsOwn | cmd/ossein-kernel/main.go:188-269 | after any history of steps each artifact is as its own steps alone would have left it |
| Scratch.OutcomeIsHistory | cmd/ossein-kernel/main.go:188-269 | a whole run, killed or failed anywhere, is such a history |
| Scratch.AllHoldAtOnce | cmd/ossein-kernel/main.go:188-269 | after every history of steps from an empty directory the root disk, the seed, the source tarballs and the toolchain keep their four promises jointly |
| Scratch.SessionsAreSound | cmd/ossein-kernel/main.go:188-269 | the same for every sequence of whole runs, each with its own job and killed anywhere |
| Status.StatusRoundTrip | cmd/ossein-kernel/init/main.go:438-454 | readStatus recovers every 64-bit code that writeStatus prints |
| Status.TornReads | cmd/ossein-kernel/main.go:464-482 | every prefix of a record reads as empty, as a malformed lone sign, or as the code without its last digits |
| Status.TornNeverSucceeds | cmd/ossein-kernel/main.go:464-482 | what reads as 0 is part of the record of 0: a torn write never turns failure into success |
| Status.TornChangesTheCode | cmd/ossein-kernel/main.go:464-482 | a torn write can turn one failure into another |
| Status.FinalCodeIs | cmd/ossein-kernel/init/main.go:82-90 | zero is reported exactly for an end with zero and no error; an error that comes with zero is reported as 254 |
| Vm.Machine.Start | internal/vm/vm.go:237-262 | succeeds exactly when the first decisive notification before the deadline is Running, or none came and the state at the deadline is |
| Vm.Machine.Wait | internal/vm/vm.go:267-285 | answers by the first terminal notification before a cancellation, and hard-stops the machine on a cancellation |
| Vm.Machine.Stop | internal/vm/vm.go:288-300 | leaves the machine stopped unless it cannot be stopped or stopping fails, and errs only in the latter case |
| Vm.Boot | cmd/ossein-kernel/main.go:450-462 | returns the code that was read, an error, or never, as the notifications, the cancellation and the status file say, and stops a machine that started but not one that failed to |
| Vm.CodeReadIff | internal/vm/vm.go:237-285 | boot returns a code exactly when the machine came up, then reported Stopped with nothing terminal between and no cancellation before, and the status file reads as that code |
| Promotion.Told | cmd/ossein-kernel/main.go:401-462 | the invariant of host, machine and guest: the smoke status is what this boot found or what its guest has written of its record, and the built kernel is the one that was booted |
| Promotion.PassedIsVouched | cmd/ossein-kernel/init/main.go:82-104 | when the host has read 0 off either share, the machine it had booted over it stopped, with nothing booted since; and unless the boot found a 0, its guest ended with status 0 and no error, opened the status file and wrote to it, in that order and before the stop |
| Promotion.SmokeAfterBuild | cmd/ossein-kernel/main.go:388-396 | every boot of a built kernel comes in its run straight after a build machine that stopped, with its share's status reading 0 and, unless that boot found a 0, written by a guest that ended with status 0 and no error |
| Promotion.PromotionSafe | cmd/ossein-kernel/main.go:263-288 | over every history of runs, failures, kills, guest crashes and torn writes, cfg.Out holds its first bytes or bytes that, in the run that copied them, were booted after a build that passed, in a machine that then stopped, and that are vouched for unless that boot found a status that reads 0 |
| Promotion.RemovalSuffices | cmd/ossein-kernel/main.go:352-410 | where every removal of a stale status of a share succeeded, whatever passes over it is vouched for |
| Promotion.VouchedIff | cmd/ossein-kernel/main.go:352-410 | in every history that has got to booting over a share, each way for that boot to pass is vouched for if and only if the status file does not read 0 at that point |
| Promotion.PromotionReachable | cmd/ossein-kernel/main.go:263-288 | every kernel a build leaves can be promoted |
| Promotion.StaleStatusPromotes | cmd/ossein-kernel/main.go:410-411 | from any initial state: a run promotes and leaves its zero, the next fails to remove it, its guest never ends, and its kernel is promoted |
| ConfigLines.DecidesShape | kernel/merge-fragments.sh:18-26 | a line that decides a symbol is an assignment of it or its not-set line |
| ConfigLines.AssignsIff | cmd/ossein-kernel/build.sh:192-196 | a line starts with a symbol and '=' exactly when it assigns that symbol |
| ConfigLines.NotSetNoOverlap | internal/ikconfig/verify.go:82-84 | the Go reader's prefix and suffix test accepts the lines of the shell pattern and no others |
| ConfigLines.ReadersAgreeIff | cmd/ossein-kernel/build.sh:184-198 | the read loop and the whole-file tools see the same lines exactly when the text ends in a newline or is empty, and the loop never sees more |
| BuildDrift.CheckDrift | cmd/ossein-kernel/build.sh:183-199 | the loop reports drift exactly when some line of the fragment did not survive |
| BuildDrift.SurvivesSymbol | cmd/ossein-kernel/build.sh:192-196 | a not-set line survives exactly when no line of the .config assigns its symbol |
| BuildDrift.CoherentIsSatisfiable | cmd/ossein-kernel/build.sh:183-199 | a well-formed fragment passes for some .config with one value per symbol exactly when it does not contradict itself |
| TinyBase.CheckNamed | cmd/ossein-kernel/build.sh:162-174 | the loop reports exactly the bases with a symbol that no fragment line mentions as a word |
| TinyBase.DecidingMentions | cmd/ossein-kernel/build.sh:162-171 | a line that decides a symbol satisfies the word search for it |
| TinyBase.GateIsExact | cmd/ossein-kernel/build.sh:156-174 | every symbol of a well-formed base is decided exactly when the check passes and each symbol that a line mentions without deciding it has a line that does |
| TinyBase.WordAtIff | cmd/ossein-kernel/build.sh:168 | a symbol is mentioned where it stands with no word character on either side |
| TinyBase.LongerIsNoMention | cmd/ossein-kernel/build.sh:168 | a not-set line of a longer symbol does not mention the shorter one it begins with |
| TinyBase.RemarkNames | cmd/ossein-kernel/build.sh:160-168 | a remark on the symbol passes the check and decides nothing |
| MergeFragments.Merge | kernel/merge-fragments.sh:18-32 | the script prints the base lines that decide nothing the overlay decides, a header, and the overlay |
| MergeFragments.MergedLines | kernel/merge-fragments.sh:20-32 | the lines the drift check reads from the result |
| MergeFragments.MergeOverrides | kernel/merge-fragments.sh:2-9 | for every .config the merge passes exactly when the overlay does and every base line the overlay does not decide survives |
| MergeFragments.MergeStaysCoherent | kernel/merge-fragments.sh:2-3 | a merge of two fragments that do not contradict themselves does not either |
| MergeFragments.MergeIsSatisfiable | kernel/merge-fragments.sh:2-9 | so some .config with one value per symbol passes it |
| MergeFragments.ConcatenationFails | kernel/merge-fragments.sh:5-9 | concatenating fragments that disagree passes for no .config with one value per symbol, and for none at all when one sets what the other unsets |
| Ikconfig.Parse | internal/ikconfig/verify.go:75-109 | the title is the first line that mentions it, each state is the last verdict of the other lines, and the golden set is a sorted permutation of the matching ones |
| Ikconfig.LastVerdictIff | internal/ikconfig/verify.go:78-118 | a symbol has a state exactly when some line gives it and no later line gives any, and is absent exactly when none does |
| Ikconfig.SortSorts | internal/ikconfig/verify.go:105-106 | the golden set is ordered by bytes and keeps its lines with their multiplicities |
| Ikconfig.LeqIff | internal/ikconfig/verify.go:105-106 | the order is the bytes': a beginning comes first, and otherwise the smaller byte at the first difference decides |
| Ikconfig.SortedUnique | internal/ikconfig/verify.go:105-106 | there is only one sorted permutation, so any correct sort gives this one |
| Ikconfig.Drift | internal/ikconfig/verify.go:207-231 | added and removed are the lines of the one that the other lacks, each in its own order |
| Ikconfig.Verify | internal/ikconfig/verify.go:129-204 | true exactly when every decision is met and there is no golden or both have the same set of lines |
| ConfigCheck.VerifyImage | cmd/ikconfig/main.go:72-128 | the command passes exactly when each wanted symbol's last word in the file is y, no unwanted one's is, and the committed golden lines are the image's |
| ConfigCheck.PolicyIff | internal/ikconfig/verify.go:41-47 | every decision is met exactly when each wanted symbol has a line that gives it y with no later line giving it another state, and no unwanted one has |
| ConfigCheck.VerdictIff | internal/ikconfig/verify.go:82-96 | CONFIG_X=y, CONFIG_X=m and the not-set line give a symbol its state, and no other line does |
| ConfigCheck.LastIsYesIff | internal/ikconfig/verify.go:78-118 | a symbol's last word is y exactly when a CONFIG_X=y has neither CONFIG_X=m nor the not-set line behind it |
| ConfigCheck.GoldenValues | internal/ikconfig/verify.go:69-72 | y, m, every decimal and hexadecimal number and every quoted string is golden; n, an empty value, a negative number and a not-set line are not |
| GoldenFile.RoundTripIff | cmd/ikconfig/main.go:113-128 | printing and reading back gives the same lines exactly when there is a line |
| GoldenFile.PrintIs | cmd/ikconfig/main.go:69 | every golden line is printed with its newline, and an empty set as a newline alone |
| GoldenFile.GoldenCounts | internal/ikconfig/verify.go:97-99 | the golden lines are the matching lines with their multiplicities and no others |
| GoldenFile.SnapshotMatchesIff | cmd/ikconfig/main.go:63-70 | a snapshot shows no drift against the config it was taken from exactly when it is not empty |
| GoldenFile.SnapshotThenVerify | cmd/ikconfig/main.go:63-91 | golden and then verify on one image answers for the policy alone, and fails when nothing is decided |
| ConfigPipeline.DriftGivesYes | cmd/ossein-kernel/build.sh:186-191 | if the drift check passes, a symbol the fragment sets to y has state y exactly when no line behind its last CONFIG_X=y gives it another state |
| ConfigPipeline.OnceIsEnough | internal/ikconfig/verify.go:78-103 | one line per symbol, as olddefconfig writes it, meets that condition |
| ConfigPipeline.DriftGivesNo | cmd/ossein-kernel/build.sh:192-197 | a symbol the fragment unsets has state n or absent, whatever else the .config holds |
| ConfigPipeline.DriftGivesGolden | internal/ikconfig/verify.go:72-99 | every plain assignment of the fragment is in the golden set, and every quoted one that is not taken for the title |
| ConfigPipeline.DriftImpliesPolicy | internal/ikconfig/verify.go:129-157 | a .config that passed the drift check meets every decision the fragment states exactly when it overrules none of the surviving y lines |
| ConfigPipeline.SurvivedYetOverruled | cmd/ossein-kernel/build.sh:186-191 | a .config with a second line for the symbol, as a hand edit could leave it, passes the one check and not the other |
| Extract.FirstAtSeam | internal/ikconfig/ikconfig.go:16-30 | behind bytes free of it, a marker is first found where it was written, not across the seam |
| Extract.ExtractUndoesEmbedding | internal/ikconfig/ikconfig.go:23-45 | with no start marker before and no end marker inside, the decoder gets exactly the stream, for any padding |
| Extract.ExtractIs | internal/ikconfig/ikconfig.go:23-45 | on every image: no config is reported without a start marker, and otherwise the decoder gets what lies between the first start marker and the first end marker after it, or the end of the image |
| Extract.MissingEndMarker | internal/ikconfig/ikconfig.go:29-33 | an image cut short inside the stream still hands on all that is left |
| Paths.CleanPath | internal/rootfs/rootfs.go:269-270 | the buffer loop of path.Clean computes the spelling of the walked components, for every string |
| Paths.ComponentsResolved | internal/rootfs/rootfs.go:264-270 | a walk leaves proper names only, with ".." only leading a relative path |
| Paths.CleanIdempotent | internal/rootfs/rootfs_fuzz_test.go:25-45 | cleaning twice is cleaning once |
| Paths.CleanIff | internal/rootfs/rootfs_fuzz_test.go:25-45 | the fixed points are exactly the spellings of resolved component lists |
| Paths.DotDotIffClimbs | internal/rootfs/rootfs_fuzz_test.go:25-45 | ".." survives cleaning exactly in relative paths that go above their start somewhere |
| Paths.PrefixIsBelow | cmd/ossein-kernel/main.go:863-888 | the string prefix test with a separator is component-wise containment, strict or not |
| DiskPath.ToDiskSpells | internal/rootfs/rootfs.go:269-276 | diskPath is the relative spelling of the raw name's components |
| DiskPath.ToDiskCanonical | internal/rootfs/rootfs_fuzz_test.go:25-45 | no leading slash, a fixed point of Clean, idempotent |
| DiskPath.ToDiskContained | internal/rootfs/rootfs_fuzz_test.go:25-45 | ".." is left exactly for relative names that climb above the root, never for a rooted one |
| DiskPath.SkippedIffRoot | internal/rootfs/rootfs.go:129-132 | exactly the names of the archive's root are skipped, and the empty string never arises |
| DiskPath.HardlinkTarget | internal/rootfs/rootfs.go:173-194 | the absolute symlink written for a hardlink denotes what the link name denotes from the root |
| DiskPath.StripFirstLeaksSlash | internal/rootfs/rootfs.go:264-268 | stripping one slash before cleaning lets "///x" through with a leading slash |
| LlvmPaths.EntryContained | cmd/ossein-kernel/main.go:863-888 | a name is skipped, placed component-wise strictly below the destination, or an escape exactly when it lands at the destination or outside |
| LlvmPaths.PruneIff | cmd/ossein-kernel/main.go:971-987 | what is pruned, by components: include, share and lib/cmake with all below, what begins lldb in bin and liblldb in lib, and the archives directly in lib |
| LlvmPaths.StrippedIs | cmd/ossein-kernel/main.go:870-880 | an entry's name loses its leading "./" and its first component |
| LlvmPaths.PlainNamesLandBelow | cmd/ossein-kernel/main.go:869-888 | for names that never climb, the depth alone decides between placed and escape |
| LlvmPaths.ClimbingBackIn | cmd/ossein-kernel/main.go:882-885 | a name that climbs out and back in through the destination's own name is placed as if it had stayed |
| LlvmPaths.DegenerateDestination | cmd/ossein-kernel/main.go:830-831 | below "." or "/" nothing can be placed at all |
| LlvmPaths.LinkContained | cmd/ossein-kernel/main.go:940-956 | a link is accepted exactly when its lexical target is the destination or below it |

## Left out

- Paths.CleanPath: models the loop of Go's own path.Clean, whose source is not in this repository; of filepath.Clean only the separator '/' is modelled.
- Ikconfig.Verify: the report it prints is not modelled, only its result; so are the errors that build.sh and the other programs print.
- Ikconfig.Parse: the golden lines are sorted by insertion; SortedUnique says slices.Sort can give no other result.
- Promotion.PromotionSafe: rests on an atomic WriteFile, on no other program writing the shares or cfg.Out, and on a machine ending with its process; a build script that writes the status file itself is not modelled.
- Promotion.Told: Start and Wait are one step each there; Vm has their loops.
- LlvmTree.StampMeansComplete: assumes that the archive has no entry at the stamp's own path; directories have no contents here, links are kept as the text of their target, and writing through a link is not modelled.
- LlvmTree.ExtractedIs: a regular entry at a path that an earlier link took, or below it, is written through the link by the program; here it replaces the link.
- LlvmTree.PrepareLlvm: names its directory relative to the scratch directory; which names stay inside is proved for every destination in LlvmPaths.
- LlvmPaths.LinkContained: the lexical target only; chains of links on the disk are not followed.
- Fetch.FetchFile: strings.EqualFold is modelled on ASCII letters, the digest is any function, and a failed rename or stat is a stop at that step.
- Fetch.PinBumpIsAMiss: does not cover pins shorter than the key, which share the unkeyed file.
- Download.WithRetries: a stalled body is one whose reads run out; time, backoff and progress lines are not modelled.
- RootDisk.BuildImage: the ext4 writing and the tar entries' contents are any sequence of chunks.
- BuildDrift.CheckDrift: the symbol in grep's "^sym=" is taken literally; a not-set line whose symbol holds regular-expression characters is read differently by grep.
- TinyBase.CheckNamed: the symbol in grep's word search is taken literally as well.
- IdleProtocol.NoLostWakeup: one idle CPU, with LDXR and WFE as the patch describes them; the memory model of the architecture is not part of it. Taking the scheduler's way out of the loop is one step.
- IdleProtocol.ElisionRepaid: the lazy resched bit ends the window but, as in the loop it models, does not by itself end the idle loop.
- Status.StatusRoundTrip: white space is ASCII; strings.TrimSpace also strips other Unicode spaces, which no record holds.
- Scratch.AllHoldAtOnce: cfg.Out and the shares are taken to lie apart from the artifacts' files, the guest not to touch the source tarball it mounts, and other programs not to touch the scratch directory.
- PollWindow.IdleCpu.PollWindow: the loop over a clock and the loop among other steps of IdleProtocol are two models of one poll; no theorem ties them.
- The order of runs is sequential: two builds at once on one scratch directory are not modelled.
- File modes, mkdir, fsync and the contents of directories are not modelled.
- The promotion of perf after the kernel, which can fail with the new kernel already in place, is not modelled.
- The sources' staging, the policy table, the fragments, the pins, the command lines and the logging hold no logic that is hard to prove.
- VZ device configuration, DHCP, mounts, pivot_root, HTTP, gzip, xz, zstd, tar parsing and SHA-256 are foreign calls or abstract functions.
- The guest's environment file and the kernel command line are simple scans that nothing here depends on.
