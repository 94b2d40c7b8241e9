# LoongArch in-kernel interrupt controller shims

QEMU's LoongArch virtual machine can hand three interrupt controllers to the
kernel's accelerator: the extended I/O interrupt controller (EXTIOI), the
PCH-PIC bridge interrupt controller and the inter-processor interrupt unit
(IPI). For each one, user space keeps a shadow copy of the controller's
registers. That copy exists only so a snapshot can be saved and restored.

Each shim has four jobs:

- moves the shadow to and from the kernel's device, one attribute access per
  register word (`save_load`);
- runs that transfer from the snapshot hooks: `pre_save` reads, `post_load`
  writes;
- creates the kernel device once and pushes its static configuration into it
  (`realize`);
- for PCH-PIC only, forwards each input line's level to the kernel under a
  composite interrupt number.

This project models those shims in Dafny. The modules are:

- `Kvm` models the kernel side:
  - an attribute store, a map from (group, address) to a 64-bit value with
    last-write-wins semantics;
  - the trace of every attribute access in issue order;
  - the log of device-creation requests, the GSI routes added, the level-set
    calls, and the accelerator's global flags.

  Its lemmas say what a sequence of writes leaves in the store. It also holds
  the attribute composition `(cpu << 16) | offset`, which is injective when
  the offset is below `0x10000`.
- `ExtIOILayout` holds the header constants: the seven register windows, the
  shadow array lengths and the feature bits.
- `ExtIOI`, `PchPic` and `Ipi` hold one class per shadow device.
  - **Shadow arrays:** the methods update the shadow in place. The `save_load`
    routines are loops over `array`s.
  - **Trace:** each transfer method states the exact access trace it adds.
  - **Write direction:** the new store is the old one with the pass's writes
    applied in order.
  - **Read direction:** every transferred shadow word equals the low bits of
    the kernel's value at its address, and everything else is left alone.
  - **Round trips:** `LoadedRegs`, `LoadedPass` and `LoadedCores` prove that a
    load pass leaves each transferred value at its own address. They rely on
    the pass's addresses being distinct.
  - **Restore:** `LoadThenSave` runs `post_load` and then `pre_save`, and
    proves that the shadow comes back unchanged.

Points where the code behaves in a way a reader might not expect:

- **EXTIOI per-core words:** the inner loop of the coreisr pass overwrites its
  own loop variable with `(cpuid << 16) | addr`. So cpu 0 transfers all eight
  words. Every other cpu below `num_cpu` transfers word 0 only, because the
  next `addr += 4` already lies beyond the window. `ExtIOI.CoreRowAddrs` and
  `ExtIOI.CoreIsrCoverage` state this.
- **Second realize:** only EXTIOI refuses one ("extioi had be created").
  Unlike EXTIOI, PCH-PIC skips a second realize silently and reports success.
  IPI has no guard at all and creates a kernel device on every realize.
- **`num-cpu` message:** the text is "num-cpu must be at least 1", as written
  in the code.
- **Feature word:** EXTIOI always pushes it. Realize first sets bits 0, 1 and
  3 when bit 0 is set. Otherwise the word is pushed as configured.

## Model

| member | source | states |
|---|---|---|
| Kvm.Kvm.DeviceAccess | hw/intc/loongarch_extioi_kvm.c:18-30 | one access appended to the trace; a write stores the field's value at the attribute, a read leaves the store alone and yields the attribute's value |
| Kvm.Kvm.TryControl | hw/intc/loongarch_extioi_kvm.c:163-179 | a configuration push appends one control access; it succeeds exactly when the kernel does not refuse that control, and only then changes the store |
| Kvm.Kvm.CreateDevice | hw/intc/loongarch_extioi_kvm.c:153-159 | one creation request is logged; the result is the kernel's handle for that device type, or a failure |
| Kvm.ComposeDecode | hw/intc/loongarch_ipi_kvm.c:37-58 | `(cpu << 16) \| offset` with an offset below 0x10000 gives back the cpu above the low 16 bits and the offset in them |
| Kvm.ComposeInjective | hw/intc/loongarch_ipi_kvm.c:37-58 | `(cpu << 16) \| offset` with offsets below 0x10000 names distinct attributes for distinct (cpu, offset) pairs |
| Kvm.LastWriteWins | hw/intc/loongarch_extioi_kvm.c:49-100 | after a sequence of writes, an attribute holds the value of the last write to it |
| Kvm.DistinctWritesHold | hw/intc/loongarch_extioi_kvm.c:109-122 | when a pass writes distinct attributes, every attribute it wrote still holds its value after later writes to other attributes |
| ExtIOILayout.Index | hw/intc/loongarch_extioi_kvm.c:57-94 | an address of a window maps to the index `(addr - START) / 4`, which lies within the window's word count and maps back to the address |
| ExtIOILayout.WindowAddrs | hw/intc/loongarch_extioi_kvm.c:56-89 | a `for (addr = START; addr < END; addr += 4)` loop visits word j at `START + 4j`, once each, in order |
| ExtIOILayout.WindowsFitShadow | include/hw/intc/loongarch_extioi.h:28-41 | each window's word count is its shadow array's length (lines 98-104): nodetype 8, ipmap 2, enable 8, bounce 8, isr 8, coreisr 8, coremap 64 |
| ExtIOILayout.WindowsDisjointAscending | include/hw/intc/loongarch_extioi.h:28-41 | the seven windows are non-empty, ascending, pairwise disjoint and below 0x10000 |
| ExtIOILayout.VirtHasFeaturesValue | include/hw/intc/loongarch_extioi.h:47-53 | BIT(0) \| BIT(1) \| BIT(3) is 0xB |
| ExtIOILayout.DeriveFeatures | hw/intc/loongarch_extioi_kvm.c:149-151 | with bit 0 set, bits 0, 1 and 3 become set and every other bit is kept; without it the feature word is unchanged |
| ExtIOI.CoreIsrAddrsAt | hw/intc/loongarch_extioi_kvm.c:91-99 | the per-core part of a pass is words 0..7 of cpu 0, then word 0 of each cpu 1 .. num_cpu-1: `7 + num_cpu` accesses |
| ExtIOI.CoreIsrCoverage | hw/intc/loongarch_extioi_kvm.c:91-99 | `coreisr[cpu][j]` is addressed by the pass if and only if cpu < num_cpu and (cpu is 0 or j is 0) |
| ExtIOI.FlatAddrsAscending | hw/intc/loongarch_extioi_kvm.c:56-89 | the six flat loops visit strictly ascending addresses, none of them in the per-core window |
| ExtIOI.RegsAddrsDistinct | hw/intc/loongarch_extioi_kvm.c:56-99 | no address repeats within one register pass, for any cpu count |
| ExtIOI.IdentityRoutesExact | hw/intc/loongarch_extioi_kvm.c:185-190 | a route is among the identity routes if and only if it sends a gsi below n to the pin of the same number on chip 0; no gsi is routed twice |
| ExtIOI.ExtIOIClass.constructor | hw/intc/loongarch_extioi_kvm.c:225-235 | the class starts with no device created |
| ExtIOI.KvmExtIOI.constructor | hw/intc/loongarch_extioi_kvm.c:218-223 | a zeroed shadow whose `num-cpu` and virtualization-extension bit come from the properties |
| ExtIOI.KvmExtIOI.TransferWindow | hw/intc/loongarch_extioi_kvm.c:56-89 | one window loop: the trace gains the window's accesses in order; a write stores each word at its address, a read fills word `(addr - START)/4` from the kernel |
| ExtIOI.KvmExtIOI.TransferFlat | hw/intc/loongarch_extioi_kvm.c:56-89 | the six window loops in order nodetype, ipmap, enable, bounce, isr, coremap, with the store or shadow result of each |
| ExtIOI.KvmExtIOI.TransferCoreRow | hw/intc/loongarch_extioi_kvm.c:92-98 | one turn of the cpuid loop: all eight words of cpu 0, or word 0 only of a later cpu; a read changes just those shadow words |
| ExtIOI.KvmExtIOI.TransferCoreIsr | hw/intc/loongarch_extioi_kvm.c:91-99 | the cpuid loop over cpus below num_cpu: the trace is the per-core address list; a read changes exactly the words the pass covers |
| ExtIOI.KvmExtIOI.SaveLoadRegs | hw/intc/loongarch_extioi_kvm.c:49-100 | the whole register pass: flat windows then per-core words, with the exact trace; write: store gets the pass's writes; read: every transferred word equals the kernel's value, every other word is kept |
| ExtIOI.KvmExtIOI.SaveLoadSwStatus | hw/intc/loongarch_extioi_kvm.c:32-47 | num_cpu, features and status, in that order, through the software-status group; write stores them, read fills them |
| ExtIOI.KvmExtIOI.PreSave | hw/intc/loongarch_extioi_kvm.c:102-107 | the register pass then the software-status pass, reads only; returns 0 and leaves the kernel store alone |
| ExtIOI.KvmExtIOI.PostLoad | hw/intc/loongarch_extioi_kvm.c:109-122 | the register pass then the software-status pass, writes only, then one load-finished control access as the last access; returns 0 and leaves the shadow alone |
| ExtIOI.KvmExtIOI.LoadedRegs | hw/intc/loongarch_extioi_kvm.c:109-122 | after a load, every flat word and every covered per-core word sits in the kernel at its own address |
| ExtIOI.KvmExtIOI.LoadedSwStatus | hw/intc/loongarch_extioi_kvm.c:39-46 | after a load, the three software-status fields sit in the kernel |
| ExtIOI.KvmExtIOI.LoadThenSave | hw/intc/loongarch_extioi_kvm.c:102-122 | post-load followed by pre-save leaves every shadow array, every coreisr word and the three status fields as they were |
| ExtIOI.KvmExtIOI.Realize | hw/intc/loongarch_extioi_kvm.c:124-191 | checks in order (parent error, num_cpu 0, already created), each returning before anything changes; features derived before creation; create failure leaves the class alone; success sets is_created and dev_fd, pushes num_cpu then features, a refused push is fatal; only a completed realize sets the accelerator globals and routes |
| ExtIOI.PushInitConfig | hw/intc/loongarch_extioi_kvm.c:163-179 | num_cpu pushed, then features; the first refused push ends realize fatally with its message, and no later push is issued |
| ExtIOI.AllowInterrupts | hw/intc/loongarch_extioi_kvm.c:183-190 | async interrupts allowed, msi-via-irqfd set from the kernel's irqfd support; with GSI routing, exactly the 64 identity routes are added and routing is allowed, otherwise no routes |
| PchPic.RangeExact | hw/intc/loongarch_pch_pic_kvm.c:46-57 | a `for (addr = START; addr < END; addr++)` loop visits an address if and only if it lies in `[START, END)`, and none twice |
| PchPic.PassAddrsAt | hw/intc/loongarch_pch_pic_kvm.c:35-64 | a pass visits mask, htmsi_en, edge, auto_ctrl0, auto_ctrl1, then the route entries, then the HT-MSI vectors, then intirr, intisr, polarity: `8 + route + vector` accesses |
| PchPic.PassAddrsDistinct | hw/intc/loongarch_pch_pic_kvm.c:35-64 | with the scalar registers distinct and outside both byte windows, no address repeats within a pass |
| PchPic.IrqIdLine | hw/intc/loongarch_pch_pic_kvm.c:84-86 | a line number below the type field is recovered from the low bits of its composite id |
| PchPic.IrqIdType | hw/intc/loongarch_pch_pic_kvm.c:84-86 | the IOAPIC type code is recovered from the bits above the type shift; the vcpu field adds nothing |
| PchPic.Normalise | hw/intc/loongarch_pch_pic_kvm.c:87 | `!!level` is 0 or 1, and 0 exactly when the level is 0 |
| PchPic.PchPicClass.constructor | hw/intc/loongarch_pch_pic_kvm.c:155-165 | the class starts with no device created |
| PchPic.KvmPchPic.constructor | hw/intc/loongarch_pch_pic_kvm.c:131-152 | a zeroed shadow of the twelve persisted fields with 64-byte route and vector arrays |
| PchPic.KvmPchPic.TransferBytes | hw/intc/loongarch_pch_pic_kvm.c:46-57 | a byte loop: byte `addr - START` is exchanged at addr; read fills exactly the window's prefix of the array and keeps the rest |
| PchPic.KvmPchPic.TransferHead | hw/intc/loongarch_pch_pic_kvm.c:35-44 | the five leading scalars, in order, stored or filled |
| PchPic.KvmPchPic.TransferTail | hw/intc/loongarch_pch_pic_kvm.c:59-64 | intirr, intisr and polarity, in order, stored or filled |
| PchPic.KvmPchPic.SaveLoad | hw/intc/loongarch_pch_pic_kvm.c:28-65 | the ten transferred fields in order with the exact trace; write stores them, read fills them; intclr and last_intirr are never exchanged |
| PchPic.KvmPchPic.PreSave | hw/intc/loongarch_pch_pic_kvm.c:67-71 | the pass with reads only; returns 0 |
| PchPic.KvmPchPic.PostLoad | hw/intc/loongarch_pch_pic_kvm.c:73-77 | the pass with writes only over the same address sequence; returns 0 |
| PchPic.KvmPchPic.LoadedPass | hw/intc/loongarch_pch_pic_kvm.c:73-77 | after a load over a disjoint layout, every transferred field sits in the kernel at its own address |
| PchPic.KvmPchPic.LoadThenSave | hw/intc/loongarch_pch_pic_kvm.c:28-77 | post-load followed by pre-save restores the ten transferred fields and both arrays, and intclr and last_intirr (persisted at lines 141 and 146) are untouched |
| PchPic.KvmPchPic.Handler | hw/intc/loongarch_pch_pic_kvm.c:79-89 | with acceleration on, exactly one level-set call with the composite id and `!!level`; otherwise none |
| PchPic.KvmPchPic.Realize | hw/intc/loongarch_pch_pic_kvm.c:91-129 | parent error first; an already created class makes realize a silent success that changes nothing; create failure leaves is_created false; success sets is_created and dev_fd, pushes the base address (refusal is fatal), then registers the input lines |
| Ipi.CoreAddrsDecode | hw/intc/loongarch_ipi_kvm.c:37-58 | each attribute of a core's turn splits back into that core (the bits above the low 16) and the register's offset (the low 16 bits) |
| Ipi.CoreAddrsDistinct | hw/intc/loongarch_ipi_kvm.c:36-59 | with distinct offsets below 0x10000, the eight attributes of one turn are distinct |
| Ipi.IpiAddrsAt | hw/intc/loongarch_ipi_kvm.c:35-60 | a pass issues `8 * num_cpu` accesses, core after core, turn c at positions 8c .. 8c+7 |
| Ipi.IpiAddrsCoverage | hw/intc/loongarch_ipi_kvm.c:35-60 | a core's register is addressed by the pass if and only if its index is below num_cpu |
| Ipi.IpiAddrsDistinct | hw/intc/loongarch_ipi_kvm.c:35-60 | with distinct offsets below 0x10000, no address repeats within a pass |
| Ipi.CoreValuesDetermine | hw/intc/loongarch_ipi_kvm.c:38-59 | two cores contribute the same eight words if and only if they agree on status, en, set, clear and buffer words 0, 2, 4 and 6: in the model (32-bit mailbox copies) the odd buffer words never reach the kernel |
| Ipi.PullCoreMailboxes | hw/intc/loongarch_ipi_kvm.c:49-59 | a read pass fills buffer words 0, 2, 4 and 6 from the four mailbox offsets and, in the model (32-bit mailbox copies), never touches the odd words |
| Ipi.PullWritten | hw/intc/loongarch_ipi_kvm.c:38-59 | reading a core back right after writing it gives the same core |
| Ipi.LoadedCores | hw/intc/loongarch_ipi_kvm.c:26-72 | after a load pass, reading every core back from the kernel gives the cores that were loaded |
| Ipi.KvmLoongarchIpi.constructor | include/hw/intc/loongarch_ipi.h:30-33 | an instance holding `num_cpu` zeroed cores of the common state beside its own `dev_fd`, with no device handle yet |
| Ipi.KvmLoongarchIpi.TransferCore | hw/intc/loongarch_ipi_kvm.c:36-59 | one core's eight accesses in order; write stores its registers, read replaces its status, en, set, clear and the even buffer words |
| Ipi.KvmLoongarchIpi.SaveLoadRegs | hw/intc/loongarch_ipi_kvm.c:26-61 | the cpu loop: the exact trace for cores below num_cpu; write stores every core and keeps the shadow; read replaces each core by what the kernel holds |
| Ipi.KvmLoongarchIpi.PreSave | hw/intc/loongarch_ipi_kvm.c:63-66 | the pass with reads only |
| Ipi.KvmLoongarchIpi.PostLoad | hw/intc/loongarch_ipi_kvm.c:68-72 | the pass with writes only, over the same address sequence |
| Ipi.KvmLoongarchIpi.LoadThenSave | hw/intc/loongarch_ipi_kvm.c:63-72 | post-load followed by pre-save leaves every core's registers and mailbox buffer as they were |
| Ipi.KvmLoongarchIpi.Realize | hw/intc/loongarch_ipi_kvm.c:74-95 | a parent error returns with nothing done; otherwise a device is requested on every call; failure keeps dev_fd, success stores the handle in the instance |
| Ipi.KvmLoongarchIpi.Unrealize | hw/intc/loongarch_ipi_kvm.c:97-101 | only the parent unrealize runs, once |

## Left out

- **Transport failures.** Register and status accesses run under `&error_abort`. The model takes them to always succeed, so the process abort they can cause is not modelled. Only the configuration pushes of realize can fail, and they end in `Fatal`.
- **`exit(1)`, errno and logging.** `exit(1)` after a refused push is the outcome `Fatal(message)`; the process does not terminate. The errno text added by `error_setg_errno` is not modelled. `fprintf` and `error_report` are left out.
- **Kernel copy widths.** The model assumes the kernel copies, through the field pointer, exactly as many bytes as the C field has. It stores 64-bit values and reads back the low 8, 32 or 64 bits, the width of the field. A kernel attribute whose width differs from its field is not modelled.
- Ipi.KvmLoongarchIpi.TransferCore (and with it Ipi.CoreValuesDetermine and Ipi.PullCoreMailboxes): the four mailbox attributes `CORE_BUF_20/28/30/38` are 8 bytes apart and point at `buf[0]`, `buf[2]`, `buf[4]` and `buf[6]`. They are most likely 64-bit kernel copies of the word pairs `buf[2m]`, `buf[2m+1]`. The model copies 32 bits, so the high word `buf[2m+1]` is not transferred. A save on one host followed by a load on another would therefore carry the odd words in the kernel but not in the model. The load-then-save round trip is unaffected, because the odd words stay in place.
- **QOM and migration plumbing.** QOM type registration and `class_init` chaining are left out, apart from the constructors that set up the class and instance state. The property table is reduced to the constructor's arguments. The VMState descriptors serve only as the list of persisted fields; the migration framework is external.
- **Parent callbacks.** The parent realize is a parameter giving its error, if any. The parent unrealize is only counted.
- **PCH-PIC input lines.** The handler's registration through `qdev_init_gpio_in` is the count of lines added. The GPIO wiring itself is not modelled.
- **Platform plumbing.** The IPI's `get_iocsr_as` and `cpu_by_arch_id` hooks are left out.
- **Constants from headers outside this model.** These are parameters, constrained only by their use:
  - the PCH-PIC register offsets, base address and line count (`PchPicLayout`);
  - the `KVM_LOONGARCH_IRQ_*` encoding (`IrqEncoding`);
  - the IPI core offsets (`IpiOffsets`).
  The PCH-PIC windows must fit the 64-byte arrays. The round trips assume each offset set is distinct.
- **IPI buffer length.** `BUF_LEN` (eight 32-bit words) is taken from the mailbox layout; include/hw/intc/loongarch_ipi.h holds only declarations.
- ExtIOI.KvmExtIOI.SaveLoadRegs: requires `num_cpu <= 256`, the row count of `coreisr`. Realize does not check this bound, and a larger `num_cpu` indexes past the array.
- Ipi.KvmLoongarchIpi.SaveLoadRegs: requires `num_cpu <= 0x8000`. `cpu_id << 16` is evaluated in a signed `int`, and a larger core index would overflow it.
- **EXTIOI `sw_coremap`.** It is persisted but never transferred to or from the kernel. The model keeps the array and does not exchange it.
- Ipi.KvmLoongarchIpi.TransferCore: the read direction replaces the core with all eight fields at once, after the eight accesses, rather than one field per access. Nothing reads the core in between, so the final state is the same.
- **A perfect, shared kernel store.** The kernel side is one map from attribute to value that returns what was last written. It is not keyed by the device handle, so two devices of one type would share attributes. The round trips therefore hold only for a kernel that gives back what it was last given, and only for one device of each type.
- **The common IPI parent.** include/hw/intc/loongson_ipi_common.h and its implementation are not part of this model. That parent allocates the zeroed `cpu` array of `num_cpu` cores; the constructor of `Ipi.KvmLoongarchIpi` stands in for it.
