# A verified model of wslcompat's synthetic descriptors

wslcompat gives applications descriptors that the WSL1 kernel cannot provide. A *wrap* is an O_PATH
descriptor with an entry in a 64-slot table; the shims redirect operations on it to a hidden *backing*
descriptor. A second hidden descriptor, the *probe*, tells through `flock` whether anybody still holds
the wrap. The hard part is keeping the table, the hidden descriptors and the application's view of them
consistent while threads race, `vfork` children share the memory, the application closes or overwrites
any descriptor number it likes, and `exec` throws the library's state away.

This project models that core in Dafny and proves what it promises. The same code is modelled twice
where that is needed: once as an interleaved step system in which every atomic load, compare-and-swap
or store is one step, and once as a class whose methods run the code over an abstract kernel.

## Files

| file | models |
|---|---|
| `SlotProtocol.dfy` | reference counts, registration, release and the live-entry counter, interleaved |
| `SlotOutcomes.dfy`, `CallBalance.dfy` | what a lookup, pin, unpin or registration that is over has done, the references it leaves its thread, and that it ends |
| `DescriptorView.dfy` | copy-on-write descriptor views: the functions, whole runs, and the code on an array |
| `OverrideProtocol.dfy` | the override slots of a view, interleaved, with processes dying at any step |
| `OverrideOutcomes.dfy` | what a load, store or relocation that is over has done, and that each ends |
| `StoreThenLoad.dfy` | what a load returns after a store, interleaved |
| `RelocationRace.dfy`, `RaceOutcome.dfy` | threads of one process racing to move a view off an open number, and who wins |
| `SynthState.dfy` | the kernel and the library's tables as values, and the invariant that ties them |
| `SynthLemmas.dfy`, `SynthEffects.dfy` | what relocation, release, close and dup do to that invariant |
| `DispatchPins.dfy` | post-closes while a dispatch has the entry pinned |
| `Lending.dfy` | views that cannot move off a number which the application takes |
| `SynthTable.dfy` | class `Library`: the registry, relocation, post-close, `close`, `dup2`, `dup3` |
| `Registration.dfy` | claiming a slot and sweeping a full table |
| `Install.dfy` | opening a wrap and covering a terminal with one |
| `Parkings.dfy`, `Places.dfy`, `Preexec.dfy` | parking one wrap, and all of them, before `exec` |
| `ExecRestore.dfy` | putting them back when the `exec` fails |
| `History.dfy` | any sequence of calls, with execs that fail |
| `Translation.dfy`, `SelectShim.dfy`, `PollShim.dfy` | `select` and `poll` over wraps |
| `TtyRead.dfy` | the VMIN/VTIME read loop |
| `MmapShim.dfy` | MAP_FIXED_NOREPLACE and MAP_LOCKED |
| `CopyRange.dfy` | the chunked `copy_file_range` |
| `FailingInputs.dfy`, `ParkingCollision.dfy` | states in which the code does not meet the property one would expect |

## Where the code falls short of its promise

Each of these is a property one would expect, a case in which the code does not meet it, and the
condition under which it does. `FailingInputs.dfy` and `ParkingCollision.dfy` hold a concrete state for each.

- **dup2 of a closed descriptor can succeed.** The shim moves the library's descriptor off `newfd`
  before the kernel has looked at `oldfd`. If `oldfd` is closed, the moved descriptor may land on it, and
  the call then hands the library's own description to the application. Without duplication failures this
  happens if and only if `newfd` is one of the library's numbers and `oldfd` is the lowest unused number
  from 3 up (`SynthTable.Library.Dup`, `SynthEffects.LandsOnClosed`). With one registered descriptor at 10 and
  nothing at 3, dup2(3, 10) succeeds (`FailingInputs.DupOfClosedSucceeds`).
- **A relocation can be dropped.** A process that is not the installer and finds no override slot free,
  stale or its own keeps reading the number it wanted to leave. A transition off the loaded value succeeds
  if and only if there is room (`DescriptorView.CasMovesIffRoom`, and `StoreIsLoadedIffRoom` for stores). After
  four living children have moved, the fifth one's relocation is dropped (`FailingInputs.FifthIsDropped`).
- **A view at a stuck number is lost.** A number is *stuck* if it holds a view for which the process has no room.
  `close` keeps every internal descriptor dead or on its original if and only if the closed number is not
  stuck; otherwise a view is left on a closed number (`SynthTable.Library.Close`). `dup2` and `dup3` onto a stuck
  number change nothing but that number, and keep the invariant if and only if they fail or put the same
  close-on-exec description there (`SynthTable.Library.Dup`). `FailingInputs.FifthCloses` is the fifth child
  closing such a number. Installers are never stuck.
  To say what holds afterwards, the model keeps a history variable `lent`: the stuck views whose number the
  application has taken. They count as dead, and the invariant is about all other numbers. A lent view is
  the library's again when its number names its description again (`Lending.TakeBackKeeps`). Installing a terminal over
  a stuck number loses the view there if and only if it succeeds (`Install.TtyInstall`), and through any history
  the lost views are among those that were stuck at the start, at numbers that the history names
  (`History.RunHistory`).
- **The save before an exec breaks the invariant at a stuck probe**, which then names its backing
  (`Parkings.SaveOne`, if and only if such a probe is at the number). The restore mends it: the stuck probe has not
  moved, and its description comes back to its number. In between the probe is lent.
  `FailingInputs.FifthExecs` is such an exec.
- **A failed exec is not free.** Call an entry *doomed* if this process installed it, it has a probe and a backing, and
  nobody holds its wrap any more. From every valid state in which no view has been lost, a failed exec puts
  everything back except doomed entries, if their probes are at numbers below 64 and dup3 does not fail while
  restoring (`ExecRestore.FailedExec`, predicate `Restored`). If no entry is doomed this is a round trip; without
  failures and with at most 64 matching descriptors it is one if and only if no entry is, and the doomed ones are gone.
  `FailingInputs.LostInFailedExec` closes a wrap whose file is open a second time, lets the child that held it go,
  and loses the entry in an exec that fails.
- **Parking can collide with a collected probe.** The release of a doomed entry frees the number of its probe. If that is 64
  or above, the next wrap may be parked there, and then be taken for a candidate. In
  `ParkingCollision.ParkedTwice` the application's wrap at 6 is the bare terminal after an exec that failed without
  any system call failing.
- **Probes move.** The walk before an exec also collects probe descriptors, so after a failed one the probe of a
  surviving entry has moved if and only if the entry had a probe and a backing and the probe had room to move
  (`ExecRestore.FailedExec`). Its old number stays open, unrecorded, and from then on closing the wrap does not
  release the entry while a fork child holds it (`ExecRestore.MovedProbeStaysOpen`).
- **A pin does not always keep an entry.** post_close does not record that it has dropped the producer's
  reference (`synth.c:925-933`), so a second one drops another in its name. An entry that is to be released and has
  the references of its producer and of d dispatches in flight is live after m post_closes if and only if
  m <= d (`DispatchPins.PostCloseTimes`); one post_close is always safe, and with one dispatch in flight the
  second releases the entry under it (`FailingInputs.ReleasedUnderPin`).
- **A failed MAP_FIXED | MAP_LOCKED does not restore.** If `mlock` fails, the mapping that replaced the
  old ones is removed. A failed call leaves nothing of its own. If no other thread interferes, the address
  space is as before if and only if the mapping was not undone or the range was free before the call
  (`MmapShim.Process.Mmap`); with MAP_FIXED_NOREPLACE it always was. `FailingInputs.MmapLosesPage` loses a page.
- **A copy that fails midway** reports the bytes of whole chunks, advances explicit offsets by that, leaves
  the file cursors alone even where the offset pointers were NULL, and may have written part of the next
  chunk (`CopyRange.CopyFileRange`). Without an error it does all it should. `FailingInputs.CopyLeavesCursors` is a
  copy through the cursors that leaves them behind.

## What is assumed of the kernel and of callers

- Steps are sequentially consistent. A weak compare-and-swap may fail for no reason.
- (pid, start time) identifies a process, with an oracle for which processes live. No pid is used twice in a run.
- Walking `/proc/self/fd` finds every open descriptor.
- The application does not `flock` a wrap, and does not close the library's descriptors by raw system calls.
- A backing is never itself a wrap, and inode numbers of new wraps are new.
- Failures of F_DUPFD, of dup3, of open and of the shared flock on a new wrap are counted, so that a contract can say
  "if none failed", and that a call that fails has one of them to blame.
- `select` gives EPERM exactly when shown an O_PATH descriptor; `poll` of an O_PATH descriptor for an ordinary
  event always reports something (the comment at `poll.c:149-152`). The caller's three sets are distinct and
  have no bit at or above `nfds`.
- Other threads may map and unmap between the kernel calls of `mmap`, but do not map by force over pages this
  call holds. A kernel that accepts MAP_FIXED_NOREPLACE honours it.

Because of the unrecorded drop, the contracts of the class state the release rules for entries that no dispatch
has pinned; the interleaved model takes "each unpin consumes a reference its thread holds" as a discipline, and
proves what holds without it separately.

## Model

| member | source | states |
|---|---|---|
| `SlotProtocol.StepKeeps` | synth.c:337-476 | every step of pin, unpin, lookup and register keeps the invariant: a slot is at -1 exactly while one thread owns it, publications and releases alternate, the counter is accounted for |
| `SlotProtocol.RunKeeps` | synth.c:337-476 | the invariant holds in every state of every interleaving of any number of threads, whatever the callers do |
| `SlotProtocol.RunExtends` | synth.c:337-476 | in every reachable state each enabled event can happen, so the theorems are about unrestricted runs |
| `SlotProtocol.OwnerIsAlone` | synth.c:364-387 | the thread between taking a slot to -1 and storing its next state is the only one there |
| `SlotProtocol.TransientHasOneOwner` | synth.c:337-476 | in every run a slot is at -1 if and only if some thread owns it, and never two do |
| `SlotProtocol.OwnerKeepsSlot` | synth.c:364-387 | an owner keeps its slot, at -1, through any steps of other threads |
| `SlotProtocol.StepWhileNotLive` | synth.c:337-357 | only a publication by the slot's registrar makes a dead slot live; no other step pins it |
| `SlotProtocol.NoPinBeforePublish` | synth.c:337-357 | over any stretch of a run without a publication, a slot that was not live stays so and no pin succeeds on it |
| `SlotProtocol.ReleasesTrail` | synth.c:376-382 | releases never exceed publications and trail them by at most one |
| `SlotProtocol.ReleasedOncePerRegistration` | synth.c:376-382 | between two registrations of a slot its release callback runs at most once |
| `SlotProtocol.CounterFits` | synth.c:384-386 | the true value of the counter always fits an unsigned int |
| `SlotProtocol.CounterNeverLies` | synth.c:717-721 | the counter equals non-free slots, less registrars yet to count, plus cleaners yet to discount; zero means nothing is published |
| `SlotProtocol.CounterNeverUnderflows` | synth.c:384-386 | every decrement finds a positive counter |
| `SlotProtocol.PublishedWhole` | synth.c:450-466 | a published entry holds exactly the record its registrar was given |
| `SlotProtocol.StepKeepsHeld` | synth.c:337-391 | if each unpin consumes a held reference, every step keeps refcount equal to references held |
| `SlotProtocol.DisciplinedRunKeeps` | synth.c:337-391 | so does every state of every disciplined run |
| `SlotProtocol.RefcountCountsReferences` | synth.c:337-391 | a positive refcount is the number of references held, and somebody holds one if and only if it is positive |
| `SlotProtocol.NoCleanupWhileHeld` | synth.c:362-391 | while anyone holds a reference no thread is cleaning up or registering the slot |
| `SlotProtocol.PayloadStableWhileHeld` | synth.c:393-413 | key, ops and userptr do not change while a thread holds a reference |
| `SlotProtocol.LookupResultIsStable` | synth.c:395-413 | a lookup that stops at its comparison stops at an entry with the key asked for, which keeps its record until the caller drops it |
| `SlotOutcomes.LookupEnds` | synth.c:393-413 | a lookup that is over, in any interleaving, either answers with a slot that it pinned and that had the key at some point of the call, or each of the 64 slots was at some point of the call not live or had another key |
| `SlotOutcomes.LiveKeyIsFound` | synth.c:393-413 | so a key that stays live in some slot during the whole scan is found |
| `SlotOutcomes.AnswerHasKey` | synth.c:393-413 | if callers drop only what they hold, the slot answered has the key, is live and keeps its record for as long as the caller holds the reference |
| `SlotOutcomes.PinEnds` | synth.c:337-357 | a pin that is over has taken a reference and says so, or has found the slot not live and says so |
| `SlotOutcomes.UnpinEnds` | synth.c:362-391 | an unpin that is over has given up exactly one reference, or none because it found the slot not live |
| `SlotOutcomes.DisciplinedUnpinEnds` | synth.c:362-391 | if callers drop only what they hold, it has given up exactly one |
| `SlotOutcomes.RegisterEnds` | synth.c:437-476 | a registration that is over has published the record it was given in the slot it answers, or each of the 64 slots was taken at some point of the call |
| `CallBalance.CallBalances` | synth.c:337-476 | in every interleaving in which callers drop only what they hold: a pin, a lookup or a registration that is over has left its thread exactly one reference more, to the slot it answers, or none if it failed, and an unpin exactly one less; a lookup keeps none to the slots it passes over |
| `SlotOutcomes.StepsShrink` | synth.c:337-476 | every step whose compare-and-swap does not fail for no reason brings the call nearer to its end |
| `SlotOutcomes.AloneIsSoonDone` | synth.c:337-476 | so a thread that is left alone finishes any call, within a bounded number of steps |
| `DescriptorView.FindOwn` | synth.c:136-146 | the first slot of the identity, or -1 when there is none |
| `DescriptorView.Swept` | synth.c:110-134 | the sweep frees exactly the slots of dead processes |
| `DescriptorView.AcquireKeepsOthers` | synth.c:154-194 | an acquire keeps one slot per identity, touches no slot of another live process, and fails only if no slot is free, stale or its own |
| `DescriptorView.StoreIsLoadedIffRoom` | synth.c:220-239 | a store is what the process next loads if and only if there was room, or it stored what it saw already |
| `DescriptorView.CasMovesIffRoom` | synth.c:243-268 | a transition off the loaded value succeeds if and only if there is room, and otherwise the view stays |
| `DescriptorView.RunKeepsUnique` | synth.c:154-194 | at most one slot per identity after every run of loads, stores and transitions |
| `DescriptorView.RunIsolates` | synth.c:204-268 | what the installer, or a process with a slot, loads is unaffected by every run of other processes |
| `DescriptorView.StoreSurvivesOthers` | synth.c:220-239 | a store with room is what its process loads next, whatever the others do in between |
| `DescriptorView.CasIsolates` | synth.c:243-268 | a transition changes nothing but the base, if the process is the installer, or a slot that was its own, free or a dead process's |
| `DescriptorView.OthersLoadTheSame` | synth.c:204-268 | so every other living process loads what it loaded before, unless the installer moved the base and the process has no slot |
| `DescriptorView.ViewCell.constructor` | synth.c:104-108 | a view starts with its base value and all slots free |
| `DescriptorView.ViewCell.Gc` | synth.c:110-134 | the loop computes the sweep |
| `DescriptorView.ViewCell.Get` | synth.c:136-146 | the loop finds the identity's slot |
| `DescriptorView.ViewCell.Acquire` | synth.c:154-194 | sweep, find and claim give the specified slots and index |
| `DescriptorView.ViewCell.LoadFd` | synth.c:204-218 | load reads the base for the installer and for processes without a slot |
| `DescriptorView.ViewCell.StoreFd` | synth.c:220-239 | store changes the view as specified and keeps identities unique |
| `DescriptorView.ViewCell.CasFd` | synth.c:243-268 | compare-and-swap changes the view as specified and keeps identities unique |
| `OverrideProtocol.StepKeeps` | synth.c:110-268 | every step of load, sweep, acquire, store and relocate keeps the invariant of the slots, with the lock and with processes that die at any point |
| `OverrideProtocol.StepKeepsLock` | synth.c:161-163 | at most one thread is inside the lock |
| `OverrideProtocol.RunKeeps` | synth.c:110-268 | the invariant holds in every state of every interleaving |
| `OverrideProtocol.OneSlotPerProcess` | synth.c:154-194 | however many threads race to acquire, a process never has two slots |
| `OverrideProtocol.CellStays` | synth.c:110-134 | no step, not even of a sweep that looked long ago, frees or changes the slot of another living process |
| `OverrideProtocol.LivingKeepSlots` | synth.c:110-134 | over every run a living process keeps its slot |
| `OverrideProtocol.ViewIsIsolated` | synth.c:204-268 | over every run, the base changes only through the installer and an owned slot only through its owner |
| `OverrideOutcomes.LoadEnds` | synth.c:204-218 | a load that is over has returned, in any interleaving, what its process's slot held at some step of the call, or the base when it had none or is the installer |
| `OverrideOutcomes.StoreEnds` | synth.c:220-239 | a store that is over has reached its write of the number, to the base or to the slot of its process, or was refused a slot |
| `OverrideOutcomes.RelocateEnds` | synth.c:243-295 | a relocation that is over read another number than the target, or duplicated the target and then either attempted the transition to that duplicate or was refused a slot |
| `OverrideOutcomes.RefusedForCause` | synth.c:154-194 | a process that is refused a slot is not the installer and has none, and each slot was at some step of the call owned by another process that lived |
| `OverrideOutcomes.AttemptNeedsSlot` | synth.c:220-268 | only the installer and a process with a slot get to change the view |
| `OverrideOutcomes.StepsShrink` | synth.c:110-268 | every step brings the call nearer to its end, unless it waits for the lock |
| `StoreThenLoad.StoreIsNextLoaded` | synth.c:204-239 | in every interleaving, a load that begins after a completed store of its process returns the stored number, if the process makes no other store or transition before it returns, whatever all other threads and processes do |
| `StoreThenLoad.LoadReturns` | synth.c:204-218 | a load, however its steps interleave with others, returns what the view shows its process |
| `RelocationRace.WinnerIsFirst` | synth.c:274-295 | a transition off the target that succeeds is the first of the race, and leads elsewhere |
| `RelocationRace.StepKeepsRace` | synth.c:243-295 | every step of the race accounts for each descriptor: open before, in flight, or the winner's |
| `RelocationRace.RaceKeeps` | synth.c:243-295 | so does every state of every race, with any number of threads and other processes active |
| `RelocationRace.RaceHasOneWinner` | synth.c:274-295 | at most one transition succeeds; when all threads are done every loser's duplicate is closed and the description gained at most one descriptor (exactly when it gained one is `RaceOutcome.FirstSwapWins`) |
| `RaceOutcome.FirstSwapWins` | synth.c:243-295 | a race that starts with the view at the target is won if and only if some thread of the process attempts a transition |
| `RaceOutcome.RaceIsWon` | synth.c:243-295 | so if the process is the installer or has a slot, and at least one relocation begins, then when all threads are done exactly one has won and the view is off the target |
| `RaceOutcome.NobodyWonMeans` | synth.c:274-295 | if nobody has won, every relocation that is over read another number, or was refused a slot |
| `Lending.LendKeeps` | synth.c:243-295 | the invariant holds of all other views when the stuck ones at a number are given up |
| `Lending.LendUnsticks` | synth.c:243-295 | the number is then stuck no more, and no other number becomes stuck |
| `Lending.TakeBackKeeps` | synth.c:243-295 | a lent view whose number names its description again can be the library's again: the invariant holds with it included, and no other number changes hands |
| `SynthTable.Library.constructor` | internal.c:11-14 | the library starts in a valid state with no live entry |
| `SynthTable.Library.RegisterInternal` | internal.c:22-31 | a registered descriptor is internal from then on if and only if fewer than 16 were registered; a dropped one changes nothing |
| `SynthTable.Library.RelocateView` | synth.c:274-295 | relocation of one view adds only internal descriptors, changes nothing that another living process reads of the view, and leaves the view at the target only if it has no room; the answer is the new number, 0 if the view is where it was, and -1 only if the duplication failed |
| `SynthTable.Library.EvacuateEntries` | synth.c:525-548 | afterwards only probes and backings without room sit at the target |
| `SynthTable.Library.RelocateEntry` | tty.c:197-211 | the probe and the handler's descriptor of one pinned entry are off the target, each if it has room |
| `SynthTable.Library.EvacuateRegistry` | internal.c:33-65 | afterwards no registered descriptor sits at the target |
| `SynthTable.Library.RelocateInternal` | close.c:20-24 | afterwards the target is an internal number if and only if it was stuck, every internal descriptor is dead or on its original description, and no open descriptor changed |
| `SynthTable.Library.Unpin` | synth.c:362-391 | drops one reference; the last one releases |
| `SynthTable.Library.Release` | tty.c:156-164 | the release closes the backing and the probe and frees both slots, keeping the invariant |
| `SynthTable.Library.WalkFindsOther` | synth.c:856-870 | the walk answers whether another descriptor is on the inode |
| `SynthTable.Library.DecideRelease` | synth.c:889-902 | the decision is the lock probe, or the walk when the lock is contested; a negative one changes nothing |
| `SynthTable.Library.PostClose` | synth.c:904-934 | if nobody else has a pin, the entry goes if and only if this process installed it and the decision says so; if somebody has, a decision to release takes one reference more and changes nothing else |
| `DispatchPins.PostCloseOnce` | synth.c:904-934 | a pin and a post_close on an entry to be released take one reference away, and the entry with the last |
| `DispatchPins.PostCloseTimes` | synth.c:904-934 | after m of them an entry of c references is live if and only if m < c, so a dispatch's pin keeps it if and only if fewer decisions are made than there are references |
| `SynthTable.Library.PinFd` | synth.c:630-638 | pins the live entry of the descriptor's inode if there is one |
| `SynthTable.Library.Close` | close.c:26-50 | closes any number, even an internal one: every internal descriptor stays dead or on its original description if and only if the number was not stuck; then numbers stay distinct, other descriptors and what other processes read are untouched, and an own entry outlives the call only if another local descriptor is on its inode; a stuck one leaves a view on a closed number, and changes nothing else |
| `SynthTable.Library.Dup` | close.c:56-83 | the same for dup2 and dup3; newfd names what oldfd named or, on failure, what it named; with the exact condition for success on a closed oldfd; when newfd is stuck nothing but that number changes, with the exact condition for the invariant |
| `SynthLemmas.ReleaseIsSafe` | synth.c:889-902 | the decision never says yes while a local descriptor refers to the wrap's description |
| `SynthLemmas.HeldIsKept` | synth.c:889-902 | a wrap held here is kept, by the lock or by the walk |
| `SynthLemmas.ReleaseKeeps` | synth.c:374-387 | releasing an entry keeps the invariant |
| `SynthLemmas.ShiftedTrans` | synth.c:525-548 | relocations compose |
| `SynthEffects.LandsOnClosed` | close.c:56-83 | a closed oldfd is open again after the relocation if and only if the relocated descriptor landed there |
| `SynthEffects.CallEnds` | close.c:26-83 | pin, relocate, kernel call and post_close together keep entries, numbers and descriptions, and release only for cause |
| `SynthEffects.CloseIsComplete` | synth.c:904-934 | after the call, an own entry on that inode has another local descriptor there |
| `SynthEffects.StuckDangles` | synth.c:243-295 | closing a stuck number leaves a view on it, whatever the entry |
| `SynthEffects.StuckDup` | close.c:56-83 | duplicating onto a stuck number keeps the invariant if and only if it fails or changes nothing there |
| `SynthEffects.StuckStays` | synth.c:274-295 | relocation off a stuck number changes no number, no view and no descriptor |
| `Registration.SweepEntry` | synth.c:421-432 | one round frees the entry if and only if it is this process's and it is done with it |
| `Registration.TableGc` | synth.c:421-432 | the sweep succeeds if and only if some entry can be freed, leaves a free slot then, and nothing changed otherwise |
| `Registration.UnsweepableMeans` | synth.c:421-432 | an entry that stays was installed by another process or is still referenced by a local descriptor |
| `Registration.ClaimFirstFree` | synth.c:437-476 | claims the first free slot, every lower one being live; fails if and only if all 64 are live |
| `Registration.Register` | synth.c:437-483 | terminates with at most one retry; fails if and only if every slot holds an entry the sweep cannot free, and then changes nothing |
| `Install.OpenProbe` | synth.c:494-513 | the probe is a loose close-on-exec descriptor on the wrap's inode, or absent |
| `Install.SynthOpen` | synth.c:550-626 | a new wrap with a live entry, and a probe unless an open or the flock failed; or every descriptor and entry as before, which happens only if an open failed or the table is full of entries that the sweep cannot free, and always in the second case |
| `Install.TtyAlloc` | tty.c:49-59 | claims the first unclaimed handler state, failing only if all are claimed |
| `Install.TtyInstall` | tty.c:239-317 | on success fd is a wrap, with its close-on-exec flag, whose backing is the terminal it named; on failure fd is intact, the handler states and the entries are as before, and there is a cause: all handler states claimed, a table the sweep cannot help, or an open, duplication or dup3 that failed; no other descriptor is touched, and the registry and the other entries keep their originals; a view stuck at fd is lost if the call succeeds and is as before if it fails |
| `Preexec.Collect` | synth.c:734-749 | pass 1 collects distinct matching descriptors, all of them if there are at most 64 |
| `Parkings.SaveOne` | synth.c:757-801 | one candidate is skipped or parked, whatever is at its number, which keeps its close-on-exec flag; it is parked at the lowest unused number from 64 up; the application's other descriptors and all other internal numbers stay; no entry goes that was not doomed, and without failures the one the candidate was on goes if nobody held it; without failures the invariant of all probes survives if and only if no stuck probe with a backing was there |
| `Parkings.UnheldIsReleased` | synth.c:757-801 | the swap of a candidate whose lock is free releases the entry, unless a duplication failed |
| `Preexec.Save` | synth.c:803-814 | from every valid state in which no view has been lost: all close-on-exec flags stay; with at most 64 matches and no failure, no descriptor that survives exec refers to the wrap of an entry that was live and had a backing before the save, and the entries nobody held are gone; if no doomed probe is at 64 or above, every descriptor is where it was or its record says where it is, and no two records name one number |
| `Preexec.CompleteSaveHasNoLeaks` | synth.c:729-814 | a complete save leaves no inheritable descriptor on a wrap that has a backing |
| `Preexec.SaveKeepsFlags` | synth.c:757-801 | the close-on-exec flags of all numbers open before are preserved |
| `ExecRestore.Restore` | synth.c:816-838 | undoes such a save unless dup3 itself fails: nothing is left parked, everything is where it was; never moves an internal descriptor, and gives every lent number back to its probe |
| `ExecRestore.FailedExec` | synth.c:803-838 | from every valid state in which no view has been lost: if no doomed probe is at 64 or above and dup3 does not fail while restoring, everything is back except doomed entries: every other number names the same description with the same flag, every entry that was not doomed is live with the same references, no parking descriptor remains and no view is lost; if every wrap with a backing is held this is a round trip; without failures and with at most 64 matches, it is one if and only if every own wrap with a probe and a backing is held, exactly the unheld entries are gone, and a probe has moved if and only if it had a backing and room |
| `ExecRestore.RestoredIsRoundTrip` | synth.c:803-838 | what is restored when nobody waits to be released is everything |
| `ExecRestore.LentComesBack` | synth.c:816-838 | a stuck probe is back on its description once its number names what it named before |
| `ExecRestore.MovedProbeStaysOpen` | synth.c:734-749 | after a round trip, the old number of every probe that had room to move, of an entry with a backing, is still open, and holds the entry while a child has the wrap |
| `History.Step` | close.c:26-97 | each call does what it is for (a close closes its number, a dup gives newfd what oldfd named or fails, an open or an install gives a new descriptor or wrap or has a cause not to, a failed exec restores), and keeps the invariant, every descriptor it does not name, the registry, what other processes read and the originals of the entries that stay; a stuck view is given up where a call names its number; only a failed exec that began with a doomed probe at 64 or above or a view lost before, or in which dup3 failed, may break this |
| `History.RunHistory` | close.c:26-97 | through every history of closes, dups, opens, installs, registrations, forks and failed execs, up to such an exec, and in each state on the way: internal descriptors are dead or on the descriptions they were on at the start, numbers distinct, unnamed application descriptors unchanged, a wrap kept open keeps its entry, and every view that was lost was stuck at the start at a number the history names; and each two successive states are related by what the call between them does |
| `History.ReachedLend` | close.c:26-83 | a history stays on course when the application takes a stuck number |
| `History.ReachedTakeBack` | close.c:56-83 | and when the view at it comes back |
| `History.ReachedByExec` | synth.c:803-838 | a failed exec that restores all but doomed entries keeps everything a history keeps |
| `History.OriginalsStay` | close.c:26-97 | each registered descriptor, and each view of an entry on an inode that existed at the start, is at the end dead, lost or on the description it was on at the start; the lost ones were stuck at named numbers |
| `SelectShim.SwapIn` | poll.c:274-328 | the sets become the caller's with each of the first 64 swappable descriptors replaced, the records say what was where, and the new nfds covers every backing |
| `SelectShim.Unwind` | poll.c:331-353 | for any kernel output within the substituted sets, the result is exactly the caller's descriptors whose stand-in is in it, shared backings and watched backings included |
| `SelectShim.UnwoundIsIdeal` | poll.c:331-353 | mirroring then clearing yields the ideal answer |
| `SelectShim.IdealOfAll` | poll.c:331-353 | sets the kernel did not modify unwind to the caller's sets, bit for bit |
| `SelectShim.Recount` | poll.c:357-369 | counts the bits below nfds and FD_SETSIZE |
| `SelectShim.HighBitsSurvive` | poll.c:418-429 | the bits the shim cannot read are the same before and after unwinding |
| `SelectShim.RecountIsExact` | poll.c:418-429 | the corrected count is the number of bits in the caller's three sets, and not below the kernel's |
| `SelectShim.Dispatch` | poll.c:394-434 | select is an ideal select in which every chosen descriptor is its backing; errors leave the sets as they were; EPERM if and only if an O_PATH descriptor remains; the kernel is asked first about the caller's own sets, and a second time, about the substituted ones, only after EPERM, and the answer is made from its last |
| `SelectShim.FullyTranslated` | poll.c:274-328 | with at most 64 wraps, each with a usable backing in range, every watched wrap is replaced by its backing, and none costs the caller an EPERM |
| `PollShim.SwapIn` | poll.c:61-82 | the array becomes the translated one, with the swaps recorded |
| `PollShim.SwapOut` | poll.c:85-89 | the caller's numbers are back and the answers stay |
| `PollShim.CanaryFired` | poll.c:94-105 | true if and only if an entry with a backing reported something |
| `PollShim.NeedsProactiveSwap` | poll.c:153-163 | true if and only if an entry asks for no ordinary event |
| `PollShim.CanaryRetry` | poll.c:131-147 | answers the translated question, or gives the fallback if nothing can be swapped |
| `PollShim.FiredMeansSwappable` | poll.c:138-141 | after a canary there is something to swap, so the fallback branch is not reached |
| `PollShim.SilenceMeansPlain` | poll.c:165-198 | an answer in which no canary fired was given to an array with nothing to translate |
| `PollShim.Dispatch` | poll.c:165-198 | poll leaves fd and events alone and gives the kernel's last answer, which is one to the translated array, or its error; the kernel is first asked about the array as it is, without waiting if there are wraps, and then with the caller's timeout |
| `PollShim.FullyShown` | poll.c:61-82 | with at most 64 entries on wraps that have a backing, the kernel is asked about the backing of every one of them |
| `TtyRead.ReadRaw` | tty.c:74-125 | for every sequence of kernel results the buffer prefix is the concatenation of the chunks, never more than count, the rest of the buffer unchanged, and the calls follow the VMIN and VTIME rules |
| `TtyRead.ReadMore` | tty.c:109-124 | the loop terminates, with enough bytes or after a call that ended the wait |
| `TtyRead.Terminal.ReadWrap` | tty.c:74-125 | one kernel read in canonical, nonblocking or passthru mode; no call for an empty raw read; otherwise a raw read |
| `TtyRead.ShortReadHasCause` | tty.c:109-124 | with VMIN > 0 a result below min(VMIN, count) comes only after a timeout, error or end of input, and without VTIME never after a timeout |
| `TtyRead.CallsAreNeeded` | tty.c:62-124 | no call is made once enough bytes are there or after one that ends the wait; calls alternate between poll and read; the first poll waits for ever if VMIN is positive and VTIME tenths of a second if not, and a later one VTIME tenths of a second, or for ever without VTIME |
| `TtyRead.PollsAndReadsAlternate` | tty.c:74-125 | polls and reads alternate, beginning with a poll |
| `MmapShim.Process.Reserve` | mmap.c:76-99 | the probe holds exactly the range, which was free, or nothing is left; NULL gives EPERM, a misaligned address EINVAL, a probe placed elsewhere EEXIST |
| `MmapShim.Process.MapAgain` | mmap.c:101-112 | the mapping replaces nothing but the probe, and a failure removes the probe |
| `MmapShim.Process.LockOrUndo` | mmap.c:114-120 | the range is locked, or a failed mlock removes the mapping and gives ENOMEM |
| `MmapShim.Process.SynthFallback` | mmap.c:21-42 | a wrap is mapped through its backing, with EBADF and ENODEV otherwise |
| `MmapShim.Process.Mmap` | mmap.c:44-123 | with MAP_FIXED_NOREPLACE success means the range was free and is mapped at addr; with MAP_LOCKED success means it is locked; a failure leaves nothing of the call, and the address space as other threads made it unless a mapping put over others' pages was undone; with no thread interfering, if and only if it was not undone or the range was free; the kernel calls are, in order, the plain one, the same on the wrap's backing after EBADF, and only after EINVAL or EOPNOTSUPP for these flags the probe, the mapping over it and the lock, each made only if the one before succeeded, and the answer or error is the last one's, or EPERM, EINVAL or EEXIST of the probe |
| `MmapShim.RefusalIsCured` | mmap.c:57-120 | if the kernel refuses the flags and grants every call made after that, the application gets its mapping, at the place the kernel gave |
| `MmapShim.Process.OtherThreads` | mmap.c:88-102 | pages that the call holds stay as they are while other threads map and unmap |
| `CopyRange.SpliceMeans` | copy_file_range.c:55-63 | a write changes exactly its range, and zero-fills a gap |
| `CopyRange.SpliceTwice` | copy_file_range.c:55-63 | consecutive short writes amount to one write |
| `CopyRange.WriteAll` | copy_file_range.c:55-63 | the inner loop writes the whole chunk, or a prefix of it before an error |
| `CopyRange.CopyChunk` | copy_file_range.c:48-68 | one round copies the next chunk whole, finds the end of the file, or fails with its cause |
| `CopyRange.CopyLoop` | copy_file_range.c:41-69 | without errors exactly min(len, bytes left) bytes are copied; the destination is otherwise unchanged; it stops early only after a read or write that failed, all that was read being copied in the first case and a part of the last chunk in the second |
| `CopyRange.CopyFileRange` | copy_file_range.c:27-79 | the destination range equals the source range, explicit offsets advance by the total, cursors move only for NULL offsets; an error leaves cursors alone, and it fails or stops early only for a read or write that failed |
| `FailingInputs.DupOfClosedSucceeds` | close.c:56-83 | with one registered descriptor at 10 and 3 closed, dup2(3, 10) succeeds and hands out the library's description |
| `FailingInputs.FifthIsDropped` | synth.c:243-295 | a run in which four living children take the four slots, after which the fifth one's transition is dropped and it keeps reading the old number |
| `FailingInputs.FifthIsStuck` | synth.c:243-295 | the fifth child is in a valid state with a stuck number |
| `FailingInputs.FifthCloses` | close.c:26-50 | closing it breaks the invariant |
| `FailingInputs.LostInFailedExec` | synth.c:803-838 | from the state that installing a terminal, opening its wrap again and forking leave: closing the wrap, losing the child and failing an exec loses the entry |
| `FailingInputs.FifthBackedIsStuck` | synth.c:757-801 | the fifth child of a parent whose wrap has a backing has a stuck candidate |
| `FailingInputs.FifthExecs` | synth.c:803-838 | its failed exec is a round trip unless dup3 fails |
| `ParkingCollision.ParkedTwice` | synth.c:757-838 | a failed exec from a valid state with a doomed probe at 64: without any failure the application's wrap at 6 is afterwards the bare terminal |
| `FailingInputs.ReleasedUnderPin` | synth.c:904-934 | two post_closes release an entry that a dispatch has pinned |
| `FailingInputs.MmapLosesPage` | mmap.c:114-120 | MAP_FIXED and MAP_LOCKED over a mapped page, with mlock failing, leave the page unmapped |
| `FailingInputs.CopyLeavesCursors` | copy_file_range.c:27-79 | a copy through the cursors that fails after some bytes reports them and leaves both cursors |

## Left out

- C memory orderings: the step systems are sequentially consistent.
- Signed overflow of a reference count, which needs more than two thousand million references to one entry.
- SynthTable.Library.RelocateRegistered: the branch for a lost compare-and-swap does not occur in calls that do not overlap, and is not modelled for the registry.
- SynthTable.Library.Close: states the release rules for calls that do not overlap, since post_close does not record a dropped producer reference.
- ExecRestore.FailedExec: what is restored is promised only if dup3 does not fail while restoring, since the source only warns then. That no doomed probe is at 64 or above is sufficient: whether such a probe does harm depends on the order in which the walk lists the descriptors, which the state does not determine. It begins with no view lost: after a loss the library still records a number that is no longer its own, and the walk may park what the application has there.
- History.RunHistory: does not follow an exec that fails after a view was lost or with a doomed probe at 64 or above, for the same reasons.
- SynthTable.Library.constructor: takes the descriptors registered before the first call as given.
- MmapShim.Process.SynthFallback: no driver in the repository supplies an mmap handler, so only the passthru route is modelled.
- SlotProtocol.StepKeeps: the retry of a registration after a sweep is a new registration there; termination with one retry is stated for the class.
- PollShim.Dispatch: the translation of a descriptor does not change during the call.
- `close_range` and close-all loops are sequences of closes; the walk that finds the numbers is not modelled.
- The handlers' ioctl and fcntl, which keep the cached terminal modes, and the descriptions they print.
- Raw directory parsing behind the descriptor walk, and reading start times from `/proc`.
- The call of the native copy_file_range that precedes the fallback.
- Timeouts of select and poll beyond "may expire", and signal masks.
- fcntl locking, and the files under `future/`, which are not built.
- The forwarding shims (read, epoll, ioctl, getsockopt, setsockopt, statx, open, proc, clock, syscall), tunables, logging, symbol lookup and FORTIFY aliases, which would only add easy members.
