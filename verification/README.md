# CASL in Dafny

A model of the CASL hypervisor, four guests on one physical CPU, and proofs about it. Two
subsystems carry the weight and meet in VTTBR, the stage-2 table base register.

**The vCPU machine.** `Machine` describes the switch, WFI, the traps and the interrupt paths as
functions on a state: one register file with coprocessor and list registers, n guests with
backup, dirty flag and WFI state, the current guest, the idle flag. `Hypervisor` is the C code
over hardware and guest objects, down to the trap frame in memory; each method is proved to be
the function of `Machine` with the same name. `Runs` proves what holds over every run: each guest
has a context of its own, at most one guest is live, waiting is bounded, no wake-up is lost,
VTTBR belongs to the running guest. A program exit (printb, printbi) is the flag `halted`.

**Stage-2 tables.** `Walker` is the hardware walk of section B3.6 of the ARMv7-A Architecture
Reference Manual (DDI 0406C) on a flat memory. `TableModel` is a table with its bits decoded,
`PageTable` the C code that builds it in place, `GuestTables` the two ways a guest's table is
started. From there on tables grow by data aborts: `Allocator` is the page pool, `Paging` the
guests' tables as functions of their base maps and of the history of allocations, `Faults` the
decisions of the data-abort handler, `PagingRuns` runs of accesses and faults. A `Setup` says
whether RAM is mapped by blocks from the start, so one theory covers both configurations: the
static one that main uses (`StaticMachine`, `StaticBoot`) and the on-demand one that main keeps
as an alternative (`OnDemandBoot`, `OnDemandMain`).

The static configuration is not isolated under every access. Main initialises the pool at guest
0's RAM and leaves the allocating branches of the data-abort handler in place, so an access to
the page at 128 MiB or to 0x78000000 and above, below 0x90000000, maps a page of another guest.
`StaticMachine` has the input, and proves that these accesses are exactly what breaks the static
maps, and when exactly isolation is lost.

`WholeSystem` joins both parts: VTTBR as the switch leaves it, accesses through the tables it
selects, faults that change them. `MainProgram` is main on the objects, and shows that the
handlers on the objects are the events of `WholeSystem`. `GuestBoot` executes the boot code each
guest is entered at, through the guest's own table, up to the first byte of its kernel.

Under both: `BitOps` (bit_opt_v2l.c, on naturals below 2^32 and 2^64), `PhysMem` and `Streams`
(io.c and the copy loops), `Cp15` and `SaveSet` (register names and the saved set),
`ListRegisters`, `VirtualDistributor`.

Conventions: 32- and 64-bit words are the subset types `u32` and `u64`; wrap-around and
truncation are written out. Memory is a map from word addresses to words, little-endian, zero
where nothing was written. Methods that can leave the program return a flag or set `halted`.
Clocks, interrupts, trapped registers and emulated devices are parameters: the acknowledged
interrupt number, the coprocessor's fault registers, and what an emulated device answers. The
comment at vmm/pagetable.c:141 speaks of a block; the model follows the code, which builds a page
descriptor.

## Model

| member | source | states |
|---|---|---|
| BitOps.MaskBit | vmm/bit_opt_v2l.c:3-13 | mask and mask64 have exactly the bits lsb..msb set |
| BitOps.GetFieldBit | vmm/bit_opt_v2l.c:15-33 | every bit of get_field is the source bit lsb places up, zero above the field |
| BitOps.SetFieldBit | vmm/bit_opt_v2l.c:45-53 | every bit of set_field's result: the new field inside lsb..msb, the old word outside |
| BitOps.GetAfterSet | vmm/bit_opt_v2l.c:15-53 | for every width and legal msb, lsb: reading back a written field gives the value cut to the field |
| BitOps.GetDisjointAfterSet | vmm/bit_opt_v2l.c:15-53 | writing a field leaves every disjoint field readable as before |
| BitOps.GetBitIs | vmm/bit_opt_v2l.c:25-33 | get_bit is non-zero exactly when the bit is set |
| BitOps.SetFieldsCommute | vmm/bit_opt_v2l.c:45-53 | writes of disjoint fields commute |
| BitOps.SetFieldOverwrites | vmm/bit_opt_v2l.c:45-53 | the second of two writes of a field wins; writing a field's own value back changes nothing |
| BitOps.SetBitIsSetField | vmm/bit_opt_v2l.c:55-77 | set_bit is set_field on a one-bit field |
| PhysMem.JoinHalves | devices/io.c:18-21 | the shift and or of io_readd put the high word above the low word |
| PhysMem.Memory.ReadD | devices/io.c:18-21 | a 64-bit read is the little-endian pair of word reads |
| PhysMem.Memory.WriteD | devices/io.c:38-42 | a 64-bit write stores both halves and nothing else |
| PhysMem.LoadStoreB | devices/io.c:23-26 | a byte store changes that byte and no other byte of memory |
| Streams.CopyBytes | guests/guest_rpb.c:197-208 | the fgetc loop stores the stream at consecutive addresses |
| Streams.StoreBytesLoads | guests/guest_rpb.c:197-208 | after the loop every address reads its stream byte, every other address what it read before |
| Streams.CopyWords | guests/guest_rpb.c:241-252 | the bootloader and atag loops store the table at consecutive words |
| TableModel.SetPageMeaning | vmm/pagetable.c:97-145 | a page mapping maps its page; if the region had no level-3 table the rest of the region becomes what the linked table holds; no other page moves |
| TableModel.SetBlockMeaning | vmm/pagetable.c:65-95 | a block mapping replaces its 2 MiB region's translation and no other |
| TableModel.RunMeaning | vmm/pagetable.c:6-145 | any run of page and block mappings translates every page as an independent reading of the run says: last mapping wins, a page in a block gives the block up |
| TableModel.PageRunCount | vmm/pagetable.c:119-137 | in page-only runs page_count is the number of distinct 2 MiB regions mapped, which are exactly the regions with a table descriptor |
| PageTable.FreshIsEmpty | vmm/pagetable.c:6-63 | what pagetable_init leaves is a well-formed table that maps nothing |
| PageTable.WalkOfTable | vmm/pagetable.c:97-145 | the three-level hardware walk of a well-formed table is a lookup in the decoded table, for every page |
| PageTable.SetPageView | vmm/pagetable.c:97-145 | the two descriptor stores perform the page mapping on the decoded table, keep it well formed and touch only the level-2 and level-3 tables |
| PageTable.SetBlockView | vmm/pagetable.c:65-95 | the descriptor store performs the block mapping on the decoded table and keeps it well formed |
| PageTable.SetPageTranslates | vmm/pagetable.c:97-145 | hardware translation of every 32-bit address after pagetable_set_page, including what happens to the rest of a block |
| PageTable.SetBlockTranslates | vmm/pagetable.c:65-95 | hardware translation of every 32-bit address after pagetable_set_block |
| PageTable.RunTranslates | vmm/pagetable.c:6-145 | after any run of mappings within the level-3 capacity the hardware translates every 32-bit address as the run asks |
| PageTable.RunAllocatesDistinctTables | vmm/pagetable.c:12-60 | over every run, table descriptors point to pairwise distinct aligned 4 KiB tables below page_count, none overlapping level 1 or level 2 |
| PageTable.MoreClearedTables | vmm/pagetable.c:47-60 | pagetable_init clears eight level-3 tables; more start out empty exactly if the memory behind was zero |
| PageTable.TableFrame | vmm/pagetable.c:6-145 | memory that agrees on the table region holds the same table |
| PageTable.PagetableLd.Init | vmm/pagetable.c:6-63 | pagetable_init: fields, a linked level 1, empty levels 2 and 3, nothing written outside |
| PageTable.PagetableLd.LinkL1 | vmm/pagetable.c:23-35 | the level-1 loop links the four level-2 tables |
| PageTable.PagetableLd.ClearL2L3 | vmm/pagetable.c:37-60 | the clearing loops leave levels 2 and 3 zero and level 1 as it was |
| PageTable.PagetableLd.FindL2 | vmm/pagetable.c:73-89 | the field moves compute the address of the level-2 descriptor of ipa |
| PageTable.PagetableLd.NewL3 | vmm/pagetable.c:119-131 | the linking branch: next table, page_count, the level-2 store |
| PageTable.PagetableLd.FillL3 | vmm/pagetable.c:136-145 | the level-3 store for ipa |
| PageTable.PagetableLd.SetBlock | vmm/pagetable.c:65-95 | pagetable_set_block is SetBlock on the decoded table |
| PageTable.PagetableLd.SetPage | vmm/pagetable.c:97-145 | pagetable_set_page is SetPage on the decoded table and changes only page_count and the tables |
| TableModel.MapPageOn | vmm/pagetable.c:97-145 | on a table whose unused level-3 tables are empty a page mapping outside the blocks maps its page and nothing else, and needs a level-3 table only for a region that had none |
| TableModel.MapBlockOn | vmm/pagetable.c:65-95 | on such a table a block mapping of a region without a level-3 table maps its 2 MiB and nothing else |
| GuestTables.InitPtStatic | guests/guest_rpb.c:271-294 | the exact static map: RAM at 0 and at 0x70000000, five device pages, a fault everywhere else, for every 32-bit address |
| GuestTables.MapBlocks | guests/guest_rpb.c:279-284 | one round of the RAM loop maps one more block, low and high |
| GuestTables.MapDevice | guests/guest_rpb.c:286-291 | one device mapping adds that page to the map and nothing else |
| GuestTables.InitPt | guests/guest_rpb.c:255-269 | guest_rpb_init_pt: five device pages and nothing else |
| GuestTables.RamIsMapped | guests/guest_rpb.c:279-284 | for every block-aligned RAM base, RAM address x and 0x70000000 + x go to mem_base_pa + x |
| Cp15.ParseInjective | vmm/cp15.c:24-125 | no two register names reach the same register, though TTBR0, TTBR1 and TTBCR are permuted |
| Cp15.ParseSpells | vmm/cp15.c:24-125 | a name reaches the register whose instruction has the operands it spells; TTBR0, TTBR1 and TTBCR reach TTBR1, TTBCR and TTBR0 |
| Cp15.Parse64Injective | vmm/cp15.c:7-21 | the same for the 64-bit names |
| Cp15.Parse64Spells | vmm/cp15.c:7-21 | the same for the 64-bit registers, none of them permuted |
| Cp15.FullNameFields | vmm/cp15.c:130-133 | the two set_field calls turn a field's name into its register's name |
| Cp15.ReadWhole | vmm/include/cp15.h:10-104 | the name of a whole register reads the register that the instruction with these operands reaches |
| Cp15.ReadAfterWrite32 | vmm/cp15.c:127-177 | a name reads back what was written to it cut to its field; names of other registers and of disjoint fields read as before |
| Cp15.ReadAfterWrite64 | vmm/cp15.c:142-202 | the same for 64-bit registers, VTTBR_LPAE_VMID and VTTBR_LPAE_BADDR among them |
| Cp15.Coprocessor.Read | vmm/cp15.c:127-140 | cp15_read returns the named field of the named register |
| Cp15.Coprocessor.Read64 | vmm/cp15.c:142-156 | cp15_read64 returns the named field of the named register |
| Cp15.Coprocessor.Write | vmm/cp15.c:158-177 | cp15_write's read-modify-write changes the named field only |
| Cp15.Coprocessor.Write64 | vmm/cp15.c:179-202 | cp15_write64's read-modify-write changes the named field only |
| SaveSet.RestoreOne | guests/guest.c:294-310 | one write of the restore sequence restores its register, keeps those restored before and every register outside the set |
| SaveSet.VttbrWrites | guests/guest.c:312-376 | writing VTTBR and then its VMID field leaves the backup's value with the new VMID |
| SaveSet.SavedRegisters | guests/guest.c:273-292 | which coprocessor registers are saved and restored, by the operands of their instructions, the three permuted ones included |
| SaveSet.VttbrRegister | vmm/include/cp15.h:23-33 | the saved VTTBR is the register with opc1 6 and CRm 2 |
| ListRegisters.FirstInvalidIs | guests/guest_rpb.c:503-507 | the scan finds the lowest Invalid list register, or there is none |
| ListRegisters.CodeWordIs | guests/guest_rpb.c:509-513 | the four updates of a list-register word, for every word, pid and vid: state Pending, pid and vid cut to ten bits, bits 31:30 and 27:20 kept; nothing of set_bit(&list, 1, true) is left |
| ListRegisters.StateField | guests/guest_rpb.c:506 | get_field(list, 29, 28) is the state |
| ListRegisters.InjectedWord | guests/guest_rpb.c:509-513 | reading state, pid, vid and the kept bits back from that word |
| ListRegisters.InjectSpec | guests/guest_rpb.c:525-559 | injection fills the lowest Invalid slot, changes no other slot, raises the occupied count by one, and fails exactly when no slot is Invalid |
| ListRegisters.InjectKeepsPending | guests/guest_rpb.c:525-559 | entries that were Pending stay, and one is Pending afterwards |
| VirtualDistributor.VDist.constructor | v_devices/vdev_gic2_dist.c:6-19 | every virtual interrupt starts disabled and unmapped |
| VirtualDistributor.VDist.MapVirq | v_devices/vdev_gic2_dist.c:21-25 | one mapping changes, nothing else |
| VirtualDistributor.VDist.IrqToVirqCode | v_devices/vdev_gic2_dist.c:27-38 | the search returns the lowest virtual interrupt mapped to pid, -1 if there is none |
| VirtualDistributor.IrqToVirqInverts | v_devices/vdev_gic2_dist.c:27-38 | where pid is mapped once, irq_to_virq inverts the mapping |
| VirtualDistributor.VDist.WriteBits | v_devices/vdev_gic2_dist.c:84-143 | the enable and clear loops over one register, with the physical distributor |
| VirtualDistributor.WriteFields | v_devices/vdev_gic2_dist.c:55-226 | the bits and fields the branches test |
| VirtualDistributor.VDist.Write | v_devices/vdev_gic2_dist.c:55-226 | every branch of the register write by its offset: the words at 0x100 and 0x104 enable what they name and forward its mapped interrupts, those at 0x180 and 0x184 disable it, no other offset touches the interrupts, and which writes exit |
| VirtualDistributor.BitsMeaning | v_devices/vdev_gic2_dist.c:94-142 | the loop sets exactly the named interrupts, and forwards exactly their mapped interrupts |
| VirtualDistributor.BitsExit | v_devices/vdev_gic2_dist.c:94-142 | the loop leaves the program exactly when it meets a mapping to no physical interrupt |
| VirtualDistributor.WriteMeaning | v_devices/vdev_gic2_dist.c:55-226 | the same for a guest among several: what is named is enabled or disabled by the offset alone, nothing of other guests changes |
| VirtualDistributor.EnabledIsLastWord | v_devices/vdev_gic2_dist.c:84-143 | over any sequence of writes each virtual interrupt is enabled if the last write that named it was to 0x100 or 0x104, disabled if it was to 0x180 or 0x184, as before if there was none |
| VirtualDistributor.ForwardedIsUnion | v_devices/vdev_gic2_dist.c:84-143 | over any sequence of writes by guests with distinct mappings the physical distributor forwards exactly the union of their enabled mapped interrupts |
| VirtualDistributor.InitVirq | guests/guest_rpb.c:296-301 | guest_rpb_init_virq maps the three interrupts of a guest |
| VirtualDistributor.MainIsDistinct | vmm/main.c:33-54 | main's mappings are pairwise distinct and start in agreement |
| Machine.VmidField | guests/guest.c:376 | the field write replaces bits 55:48 of VTTBR and keeps the rest |
| Machine.HsrFields | vmm/exception_handler.c:49-53 | the fields hyp_trap_handler takes from HSR |
| Machine.PickIs | vmm/scheduler.c:29-41 | the search returns the nearest runnable guest in cyclic order, the current one last, or none is runnable |
| Machine.RoutingMatchesMapping | vmm/exception_handler.c:119-154 | irq_handler routes an interrupt to guest t exactly when main has mapped it for guest t: the interrupts 40 to 51 by their rest modulo 4, to the virtual interrupts 44, 36 and 37 |
| Hypervisor.Hardware.ReadRegFromStack | guests/guest.c:20-38 | reads the frame slot of r0-r12 or lr, exits for any other number |
| Hypervisor.Hardware.WriteRegToStack | guests/guest.c:40-58 | writes that slot and no other word, exits for any other number |
| Hypervisor.SlotsApart | guests/guest.c:7-38 | slots of different registers are different words of the frame |
| Hypervisor.Core.PushFrame | boot/vector.s:49-54 | the push puts every register where the C code looks for it |
| Hypervisor.Core.PopFrame | boot/vector.s:55-59 | the pop takes every register from where the C code put it |
| Hypervisor.Guest.constructor | guests/guest_rpb.c:14-43 | guest_rpb_init's backup and scheduler fields |
| Hypervisor.Guest.BackupRf | guests/guest.c:60-155 | every register of the guest is saved, r0-r12 and lr only if there is a frame |
| Hypervisor.Guest.RestoreRf | guests/guest.c:157-271 | every register of the guest is restored, r0-r12 and lr only if there is a frame |
| Hypervisor.Guest.BackupCp15 | guests/guest.c:273-292 | the sixteen coprocessor registers are saved under their names |
| Hypervisor.Guest.RestoreCp15 | guests/guest.c:294-313 | after the restore all sixteen read as saved, every register outside the set as before |
| Hypervisor.Guest.BackupList | guests/guest.c:315-323 | all 64 list registers are saved |
| Hypervisor.Guest.RestoreList | guests/guest.c:325-333 | all 64 list registers are restored |
| Hypervisor.Guest.Suspend | guests/guest.c:345-361 | a dirty backup takes over every part of the hardware's context, r0-r12 and lr only with a frame; a clean one is untouched; it is clean afterwards |
| Hypervisor.Guest.Load | guests/guest.c:363-373 | banked registers, coprocessor registers, control register and all list registers are restored with or without a trap frame; r0-r12 and lr from the backup with one, untouched without |
| Hypervisor.System.Restore | guests/guest.c:363-386 | a clean backup becomes the hardware's context with the guest's VMID, vm_id follows, the backup is dirty; a dirty backup exits |
| Hypervisor.System.FindNext | vmm/scheduler.c:24-41 | the cyclic search over vm[] is Machine.Pick |
| Hypervisor.System.Scheduler | vmm/scheduler.c:14-72 | scheduler_rr is Machine.Schedule on the state of the whole machine and writes memory only in the trap frame |
| Hypervisor.Hardware.InjectLive | guests/guest_rpb.c:503-517 | the list-register loop of the live handler is ListRegisters.Inject on the hardware |
| Hypervisor.Guest.InjectSaved | guests/guest_rpb.c:547-559 | the list-register loop of the suspended handler is ListRegisters.Inject on the backup |
| Hypervisor.System.IrqHandlerLive | guests/guest_rpb.c:479-523 | guest_rpb_irq_handler, both exits included |
| Hypervisor.System.IrqHandlerSuspend | guests/guest_rpb.c:525-563 | guest_rpb_irq_handler_suspend, both exits included |
| Hypervisor.System.DeviceIrq | vmm/exception_handler.c:158-185 | the choice of handler, the WFI update and the wake-up of an idle machine |
| Hypervisor.System.IrqHandler | vmm/exception_handler.c:110-186 | irq_handler is Machine.Irq on the state of the whole machine; what that does for 34, 1023 and 40 to 51 say TimerPreempts, LeavesExactly, DeliveryKeepsRunning and ArrivalWakes |
| Hypervisor.System.RamFault | guests/guest_rpb.c:347-378 | a RAM branch: the page is allocated and both addresses mapped, the trap frame and every other register stay, ELR goes back; without a page the program is left |
| Hypervisor.System.DeviceAccess | guests/guest_rpb.c:380-476 | a device branch: the decoded instruction's register in the trap frame, or the program is left |
| Hypervisor.System.DabortHandler | guests/guest_rpb.c:303-477 | the whole data-abort handler, from HPFAR, HDFAR and HADFSR: registers, memory, tables and pool afterwards |
| Hypervisor.System.HypTrapHandler | vmm/exception_handler.c:38-108 | hyp_trap_handler is Machine.HypTrap on the state of the whole machine; it allocates exactly for data aborts the RAM branches take, and else writes only the trap frame |
| Hypervisor.System.TakeInterrupt | boot/vector.s:49-59 | an interrupt from entry to return, frame included, is one step Irq of the machine |
| Hypervisor.System.TakeTrap | boot/vector.s:49-59 | a trap from entry to return, frame included, is one step HypTrap of the machine and, for RAM, one allocation |
| Runs.ScheduleOutcome | vmm/scheduler.c:14-72 | a call never reaches the dirty-backup exit; the nearest runnable guest is alone live, or nobody is and the machine idles; no guest's logical context changes |
| Runs.StepSimulates | vmm/exception_handler.c:38-186 | every step keeps the invariant and does to the guests' private contexts exactly its action |
| Runs.LeavesExactly | vmm/exception_handler.c:38-186 | the program is left exactly for: interrupts other than 34, 1023 and 40 to 51; one of 40 to 51 that its guest has not mapped or whose list registers are all in use; WFE, unknown exception classes, accesses nobody answers |
| Runs.TimerPreempts | vmm/exception_handler.c:121-153 | interrupt 34 hands the processor to the first valid guest not in WFI after the current one, in cyclic order, with its own context, or to the idle thread if there is none; 1023 changes nothing |
| Runs.TrapEffects | vmm/exception_handler.c:38-108 | what each exception class does to the machine: WFI hands on, cp15 and cp14 accesses are skipped, hypervisor calls and served faults leave the return address, device accesses load register rt or none |
| Runs.FirstRestore | vmm/main.c:56-57 | the restore in main, without a trap frame, establishes the invariant; banked, coprocessor, control and list registers are guest 0's backup, VTTBR its table base with VMID 0, r0-r12 and lr as the hardware had them |
| Runs.RunKeepsInv | vmm/exception_handler.c:38-186 | every run keeps the invariant |
| Runs.PrivateContexts | guests/guest.c:60-386 | refinement: over every run each guest's context is what it would be on a machine of its own under the operations addressed to it |
| Runs.RunningGuestSeesItself | guests/guest.c:363-386 | in every reachable state the running guest's context is what is in the hardware |
| Runs.ActiveMeansRunning | vmm/exception_handler.c:163-180 | in every reachable state the test dirty && wfi_state != WFI_In, and dirty alone, mean: current and not idle |
| Runs.VttbrAgrees | guests/guest.c:375-376 | in every reachable state with a guest running VTTBR holds that guest's table base in bits 39:0 and its VMID in bits 55:48 |
| Runs.DeliveryIsUniform | vmm/exception_handler.c:161-180 | running or suspended, idle or not, an interrupt does the same to its guest's list registers and nothing to any other guest |
| Runs.DeliveryKeepsRunning | vmm/exception_handler.c:159-181 | while a guest runs it goes on after a device interrupt: only list registers and WFI mark of the interrupt's guest change |
| Runs.BoundedWaiting | vmm/scheduler.c:24-62 | a waiting runnable guest is dispatched within n - 1 calls of the scheduler, whatever else happens; n - 1 interrupts 34 are enough |
| Runs.WaitingRun | vmm/scheduler.c:24-62 | while it waits it stays runnable and every call brings it strictly closer |
| Runs.ArrivalWakes | vmm/exception_handler.c:161-180 | an interrupt for a guest in WFI runs it at once on an idle machine and marks it otherwise, Pending in its list registers either way |
| Runs.MarkedHasPending | vmm/exception_handler.c:163-176 | in every reachable state a guest marked for wake-up is suspended with a Pending interrupt in its saved list registers |
| Runs.NoLostWakeUp | vmm/scheduler.c:46-54 | the interrupt and the mark stay until the guest is dispatched |
| Allocator.EverySlotOnce | vmm/memory_allocator.c:45-52 | the scan examines every slot exactly once |
| Allocator.SucceedsBelowCount | vmm/memory_allocator.c:39-75 | the scan succeeds exactly when count < PAGE_COUNT |
| Allocator.AllocateKeepsValid | vmm/memory_allocator.c:55-60 | count stays the number of owned slots |
| Allocator.RunOfAllocations | vmm/memory_allocator.c:39-75 | from initialisation PAGE_COUNT allocations succeed and the next fails; the k-th takes slot k mod PAGE_COUNT on its first probe; which slot serves which request |
| Allocator.Addresses | vmm/memory_allocator.c:62 | returned addresses are page-aligned, inside the pool and one per slot |
| Allocator.MemoryAllocator.Init | vmm/memory_allocator.c:5-16 | all slots free, count zero; the cursor stays |
| Allocator.MemoryAllocator.PageExist | vmm/memory_allocator.c:18-37 | true exactly when some slot records the triple |
| Allocator.MemoryAllocator.Claim | vmm/memory_allocator.c:39-62 | the scan and the entry it writes are Allocate on the pool |
| Paging.GrantTab | vmm/memory_allocator.c:65-66 | the two mappings of an allocation find their level-3 tables and lead to the table of the longer history |
| Paging.RamHasRoom | vmm/pagetable.c:119-131 | allocations for RAM never need more level-3 tables than two per 2 MiB of RAM and the devices' |
| Paging.TranslatesHistory | vmm/memory_allocator.c:39-75 | in every reachable state the hardware translates each guest's addresses by its base map and its history of allocations, the last one for a page counting |
| Paging.ExistsMeansGranted | vmm/memory_allocator.c:18-37 | page_exist holds exactly for the pairs that were allocated |
| Paging.ExistsMeansTranslated | vmm/memory_allocator.c:18-75 | where the base maps stay clear of the pool, page_exist holds exactly for the pairs whose two addresses translate to one page of the pool |
| Paging.OwnedSlotIsTranslated | vmm/memory_allocator.c:55-66 | an owned slot is the page its owner's walk returns at both addresses exactly while the pair has not been asked for again |
| Paging.PoolPagesArePrivate | vmm/memory_allocator.c:39-75 | no pool page is reachable from two guests |
| Paging.TablesUnreachable | vmm/memory_allocator.c:39-75 | no guest address translates into any guest's tables |
| Paging.NewPage | vmm/memory_allocator.c:39-75 | memory_allocator_new_page: succeeds exactly while pages are left, maps both addresses, repeated and foreign pages included, and keeps ownership and translation in agreement for every guest |
| Paging.MapPair | vmm/memory_allocator.c:65-66 | the two pagetable_set_page calls of an allocation |
| Paging.NewPageKeepsInv | vmm/memory_allocator.c:39-75 | an allocation keeps the invariant of all guests, for the history with it |
| Faults.DecodeFault | guests/guest_rpb.c:320-335 | from HPFAR and HDFAR as the hardware sets them for an access to x at any virtual address the handler finds x and its page base |
| Faults.AccessedAddress | guests/guest_rpb.c:320-335 | the address is x for every x and every virtual address that agrees with it below bit 12 |
| Faults.Dispatch | guests/guest_rpb.c:347-361 | which branch a page base takes, 32-bit wrap-around included |
| Faults.AnswerByAddress | guests/guest_rpb.c:347-511 | which answer an accessed address gets, for every address: a page, an emulated device, none |
| Faults.DecodeInst | guests/guest_rpb.c:386-415 | the chain of tests on the trapped instruction is word LDR and STR with immediate offset and word STR with register offset; the test for literal loads never decides |
| Faults.Encodings | guests/guest_rpb.c:386-415 | by the fields of the instruction word: exactly LDR and STR with immediate and STR with register offset, words only, with rt and direction |
| PagingRuns.StoreKeepsInv | vmm/memory_allocator.c:39-75 | a store by any guest through its own table keeps every table |
| PagingRuns.FaultMeansUngranted | guests/guest_rpb.c:347-378 | an address is unmapped and answered by an allocation exactly if the base map leaves it out, a RAM branch takes it, and its pair has not been allocated |
| PagingRuns.RunGrants | guests/guest_rpb.c:347-378 | over every run of accesses the pages allocated are exactly those of its escapes, each once |
| PagingRuns.NoEscapes | guests/guest_rpb.c:347-378 | a run without escapes allocates nothing and is never stopped |
| PagingRuns.RunIsAnswers | guests/guest_rpb.c:347-378 | from the accesses alone: a run is never stopped exactly if pool and level-3 tables bear its escapes, and the escapes in the order of their first occurrence are the history it leaves |
| PagingRuns.FaultProgress | guests/guest_rpb.c:345-377 | the faulting address and its alias translate to the page just allocated, no other translation of any guest changes, one pair fewer is left |
| PagingRuns.FaultsAreBounded | guests/guest_rpb.c:345-377 | over every run a guest faults exactly once per pair that becomes allocated |
| PagingRuns.TranslationsStay | guests/guest_rpb.c:345-377 | over every run everything mapped stays mapped to the same place exactly if no access is to the unmapped high alias of a device page, which would replace the device |
| PagingRuns.PoolMemoryIsPrivate | guests/guest_rpb.c:345-377 | over every run a byte of a page allocated to a guest changes only by that guest's stores |
| StaticMachine.ReachablePages | vmm/main.c:28-54 | guest i's static map leads only into its own RAM, its own devices and the vCPU interface |
| StaticMachine.MainMap | vmm/main.c:28-54 | guest i's static map, address by address: RAM at 0 and at 0x70000000, UART, two timers, vCPU interface, black hole, nothing else |
| StaticMachine.OnlyVcpuInterfaceShared | vmm/main.c:28-54 | a physical page in two static maps is the vCPU interface page |
| StaticMachine.MainSetupOk | vmm/main.c:28-51 | main's parameters, static and on demand, keep tables, pool and mapped pages apart |
| StaticMachine.StaticMapsExactly | vmm/main.c:28-54 | in every reachable state all guests have their static maps exactly if nothing has been allocated |
| StaticMachine.EscapesExactly | guests/guest_rpb.c:347-361 | the addresses outside the static map that the handler allocates for: the page at 128 MiB and 0x78000000 to 0x8FFFFFFF |
| StaticMachine.RunKeepsStaticMaps | guests/guest_rpb.c:347-378 | over every run of loads and stores: without escapes it is never stopped, and afterwards all guests have their static maps exactly if it had no escape |
| StaticMachine.EscapeReachesGuest0 | guests/guest_rpb.c:361-378 | the input that breaks isolation: guest 1's store to 0x78000000 maps physical 0x10001000, guest 0's RAM, and changes what guest 0 reads at 0x1000 |
| StaticMachine.IsolatedExactly | vmm/meteor.c:39 | after any run the guests share nothing but the vCPU interface exactly if every allocation took a page of its own guest's RAM |
| StaticMachine.RunIsolates | vmm/meteor.c:39 | the exact condition for isolation after a run, told from its accesses before it: the j-th first escape is by the guest whose RAM the j-th page of the pool is |
| StaticMachine.NoEscapeIsolates | vmm/main.c:28-54 | after a run without escapes the guests share nothing but the vCPU interface |
| StaticMachine.PrivateMemory | vmm/main.c:28-54 | over every run without escapes a byte of a guest's own memory is not changed by the other guests |
| StaticBoot.InitMemStatic | guests/guest_rpb.c:161-253 | the static loader writes kernel, initrd, boot code and tags, each word and byte at its address |
| StaticBoot.LoadedImageHolds | guests/guest_rpb.c:161-253 | afterwards all four are readable; none has disturbed another |
| StaticBoot.GuestReadsImage | guests/guest_rpb.c:161-253 | the guest reads both images through its table, at the low and the high address |
| StaticBoot.StaticBoots | guests/guest_rpb.c:161-253 | through its static map the guest reads at 0x70000000 the boot code, behind the two addresses in it kernel and tags, behind the address in the tags the initrd |
| StaticBoot.BootGuest | vmm/main.c:28-33 | setting up a guest establishes its table and images and keeps those of the guests before it |
| StaticBoot.BootAll | vmm/main.c:28-54 | main's memory set-up: all four static maps, all images in place, the four VTTBR values, nothing allocated |
| OnDemandBoot.InitTables | guests/guest_rpb.c:255-269 | guest_rpb_init_pt for the next guest keeps the guests before it |
| OnDemandBoot.CopyPage | guests/guest_rpb.c:96-106 | the inner loader loop: up to a page of the stream, and whether its end was seen |
| OnDemandBoot.LoadPage | guests/guest_rpb.c:90-107 | one round of the loader: a page, its bytes, everything loaded into other pages still readable |
| OnDemandBoot.LoadImage | guests/guest_rpb.c:84-110 | the do-while loop loads every byte with size / 4096 + 1 pages |
| OnDemandBoot.LoadBootPage | guests/guest_rpb.c:141-158 | boot code and tags, word by word, on the page that is allocated for page 0; nothing loaded into other pages disturbed |
| OnDemandBoot.InitMem | guests/guest_rpb.c:45-159 | guest_rpb_init_mem, for a kernel that ends at or below the initrd: the pages asked for, both images, boot page, other images kept |
| OnDemandBoot.GuestReadsImages | guests/guest_rpb.c:84-139 | through its table the guest reads every byte of both images at both addresses |
| OnDemandBoot.OnDemandBoots | guests/guest_rpb.c:45-159 | the same for the loader on demand: boot code at 0x70000000, kernel, tags and initrd behind its addresses |
| GuestBoot.EntersKernel | guests/guest_rpb.c:55-64 | what such a guest does first: five instructions from 0x70000000 it is at the first byte of its kernel, with 0 in r0, 0x769 in r1 and its tags in r2 |
| OnDemandBoot.WordIsRead | guests/guest_rpb.c:149-158 | a word written to the boot page is what the guest reads at both addresses |
| OnDemandBoot.LoaderAsksOnce | guests/guest_rpb.c:88-135 | the loader asks for every page once exactly if the kernel ends below the initrd; ending exactly there costs one page and harms nothing (InitMem) |
| OnDemandMain.MainPoolClear | vmm/main.c:29-51 | the devices mapped from the start are outside the pool |
| OnDemandMain.AliasTakesUart | guests/guest_rpb.c:361-378 | the input that loses a device: an access of guest 1 to 0x80009000 maps the first page of the pool over its UART at 0x10009000 |
| OnDemandMain.PoolIsEnough | vmm/include/memory_allocator.h:8-11 | with main's parameters a pool page is left exactly if fewer pages went outside RAM than RAM pages still wait for one |
| OnDemandMain.SetUpGuest | vmm/main.c:29-30 | one guest more is set up and loaded, those before it are kept |
| OnDemandMain.SetUpAll | vmm/main.c:29-51 | after main's on-demand calls every guest's table agrees with the pool and every guest finds its images |
| WholeSystem.WalkUsesBaddr | vmm/include/cp15.h:31-32 | the VMID in VTTBR does not influence the walk |
| WholeSystem.LiveMap | guests/guest.c:375-376 | in a good state the hardware translates the running guest's addresses by that guest's own map |
| WholeSystem.FaultIsServed | guests/guest_rpb.c:345-378 | a page fault of the running guest makes its address translate, changes no other translation, and leaves every register as it was: the instruction is executed again |
| WholeSystem.EveryRunTranslates | vmm/main.c:28-58 | in every state of every run of interrupts, traps, page faults, guest execution and accesses the running guest's addresses translate by its base map and its allocations, in both configurations |
| WholeSystem.StaticExactly | vmm/main.c:28-58 | in the static configuration all guests have their static maps after a run exactly if none has faulted, and only the escapes can fault |
| WholeSystem.NoFaultIsolates | vmm/main.c:28-58 | over every run without faults VTTBR selects the running guest's static map and the guests share nothing but the vCPU interface |
| WholeSystem.MemoryIsPrivate | vmm/main.c:28-58 | over every run without faults a byte of a guest's own memory changes only by stores executed while that guest runs |
| WholeSystem.PoolMemoryIsPrivate | guests/guest_rpb.c:345-378 | on demand: over every run, faults included, a byte of a page allocated to a guest changes only by stores executed while that guest runs |
| MainProgram.BootVm | vmm/main.c:28-33 | one guest on its own object: backup with its table base, tables, images, interrupt map |
| MainProgram.StartIsGood | vmm/main.c:56-57 | the backups main builds and the first restore put the whole machine into a good state |
| MainProgram.EntryState | vmm/main.c:25-75 | the state in which main leaves hyp mode, value by value, whatever was in the hardware: entry point 0x70000000, SPSR 0x400001D3, SCTLR 0x00C50078, everything else zero, VTTBR, interrupt maps |
| MainProgram.EnteredGuestRunsKernel | guests/guest_rpb.c:28-30 | a guest entered with that context runs its boot code into its kernel |
| MainProgram.StartStatic | vmm/main.c:25-75 | main on the objects, static tables: leads to a good state with all static maps and images, in which the registers hold guest 0's first context, value by value, the backups those of the others, and every guest finds behind its entry point what it boots from |
| MainProgram.StartFromReset | vmm/main.c:23-75 | the same from reset: with the cleared level-3 tables alone, whatever memory and hardware hold |
| MainProgram.StartOnDemand | vmm/main.c:25-75 | the calls main keeps as an alternative lead to a good state with the same contexts, in which every guest finds its images and what it boots from, with the stated number of allocations |
| MainProgram.OnTrap | vmm/exception_handler.c:38-108 | a trap on the objects, from vector to return, is one event of the whole machine; for an access to an unmapped x it is the one that allocates a page for x, whatever the virtual address |
| MainProgram.OnInterrupt | vmm/exception_handler.c:110-186 | an interrupt on the objects is one event of the whole machine |

## Left out

- Inline assembly, timer programming, end-of-interrupt writes, monitor counters, debug output, UART and semihosting.
- Access permissions, memory attributes, TLBs and caches: the code does not maintain them. The walk checks descriptor types, access flags and output addresses.
- BitOps.SetFieldBit: set_field and set_bit update a word through a pointer; the model returns the new word and the caller stores it. copy_field and copy_bit are not modelled.
- Hypervisor.System.DeviceAccess: what an emulated device returns, or whether it leaves the program, is the parameter `device`; the offset and the value written to it are not modelled. The interrupt distributor alone has a model of its own.
- Hypervisor.Guest.BackupRf: MRS and MSR are field accesses on a record of banked registers.
- Runs.PrivateContexts: the running guest may leave its registers in any state but not change VTTBR. What the guest and the interrupt hardware do to the list registers while it runs counts as its execution.
- Runs.NoLostWakeUp: speaks of interrupts that arrive while the guest is in WFI, not of one raised between the guest's decision to wait and its trap.
- PageTable.PagetableLd.SetPage: asks for a level-3 table to be left (`HasL3`); the code does not check, it would link memory behind its tables.
- PageTable.SetPageTranslates: the rest of a region newly turned into a table is unmapped exactly where the linked level-3 table is empty; only eight are cleared, so the lemma says what it holds instead of assuming it.
- Paging.NewPage: asks for `Room`, level-3 tables for the two regions of the page, which is a count over the allocations so far. For the same reason runs of accesses and of the whole machine end where a fault would find none left; for RAM on demand that never happens (RamHasRoom).
- Paging.TranslatesHistory: the pool and the tables lie below 4 GiB and apart, and no base map leads into a table (`SetupOk`), so the 32-bit page address does not wrap.
- PagingRuns.PoolMemoryIsPrivate: where the base maps stay clear of the pool (`PoolClear`), which the static configuration does not.
- PageTable.PagetableLd.Init: the table base is page-aligned and the tables lie below 4 GiB, as their 32-bit accesses need.
- GuestTables.InitPtStatic: at most 256 MiB of RAM; above that its low window would run into the device pages.
- OnDemandMain.SetUpAll: memory behind the eight cleared level-3 tables of each guest is zero, which the code takes for granted (MoreClearedTables); the static set-up does not need it.
- MainProgram.StartStatic: that meteor_devices_init has initialised the pool is its precondition; StartFromReset creates and initialises it, and asks nothing of memory or hardware.
- VirtualDistributor.VDist.Write: enable and clear registers above 1 are outside its precondition; the code would index past its 64 entries. Priorities, targets, groups and configuration are ignored as in the code.
- VirtualDistributor.GicDist: the physical distributor is a set of interrupt numbers; the shift by the number itself for interrupts 32 to 63 is not modelled.
- memory_allocator_free_page, guest_rpb_cp15_trap and the other stubs.
