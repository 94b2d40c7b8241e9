/** The EXTIOI register layout: the address windows of the register group,
    the lengths of the shadow arrays they map to, and the feature bits. */
module ExtIOILayout {
  import opened Kvm

  const EXTIOI_IRQS := 256
  const EXTIOI_CPUS := 256
  const EXTIOI_IRQS_IPMAP_SIZE := 256 / 32
  const EXTIOI_IRQS_NODETYPE_COUNT := 16
  const EXTIOI_IRQS_GROUP_COUNT := 8
  const APIC_OFFSET := 0x400

  /** Lengths of the shadow arrays of the accelerated device. */
  const NODETYPE_LEN := EXTIOI_IRQS_NODETYPE_COUNT / 2
  const BOUNCE_LEN := EXTIOI_IRQS_GROUP_COUNT
  const ISR_LEN := EXTIOI_IRQS / 32
  const ENABLE_LEN := EXTIOI_IRQS / 32
  const IPMAP_LEN := EXTIOI_IRQS_IPMAP_SIZE / 4
  const COREMAP_LEN := EXTIOI_IRQS / 4
  const COREISR_LEN := EXTIOI_IRQS_GROUP_COUNT
  const SW_COREMAP_LEN := EXTIOI_IRQS

  /** A window `[start, end)` of the register group, one 32-bit word every 4 bytes. */
  datatype Window = Window(start: int, end: int)

  const NODETYPE := Window(0x4a0 - APIC_OFFSET, 0x4c0 - APIC_OFFSET)
  const IPMAP := Window(0x4c0 - APIC_OFFSET, 0x4c8 - APIC_OFFSET)
  const ENABLE := Window(0x600 - APIC_OFFSET, 0x620 - APIC_OFFSET)
  const BOUNCE := Window(0x680 - APIC_OFFSET, 0x6a0 - APIC_OFFSET)
  const ISR := Window(0x700 - APIC_OFFSET, 0x720 - APIC_OFFSET)
  const COREISR := Window(0x800 - APIC_OFFSET, 0x820 - APIC_OFFSET)
  const COREMAP := Window(0xC00 - APIC_OFFSET, 0xD00 - APIC_OFFSET)

  /** The seven windows in ascending address order. */
  const WINDOWS := [NODETYPE, IPMAP, ENABLE, BOUNCE, ISR, COREISR, COREMAP]

  /** Number of words a `for (addr = start; addr < end; addr += 4)` loop visits. */
  function Words(w: Window): nat {
    if w.end <= w.start then 0 else (w.end - w.start + 3) / 4
  }

  /** The address of word `j` of a window. */
  function Addr(w: Window, j: nat): int {
    w.start + 4 * j
  }

  predicate InWindow(w: Window, addr: int) {
    w.start <= addr < w.end && (addr - w.start) % 4 == 0
  }

  /** `(addr - START) / 4`: the shadow index an address of a window maps to. */
  function Index(w: Window, addr: int): (j: nat)
    requires InWindow(w, addr)
    ensures j < Words(w) && Addr(w, j) == addr
  {
    (addr - w.start) / 4
  }

  /** The addresses one pass over a window visits, in order. */
  function WindowAddrs(w: Window): (r: seq<int>)
    ensures |r| == Words(w) && forall j :: 0 <= j < |r| ==> r[j] == Addr(w, j) && InWindow(w, r[j])
  {
    seq(Words(w), j requires 0 <= j < Words(w) => Addr(w, j))
  }

  /** Each window holds exactly as many words as the shadow array it fills. */
  lemma WindowsFitShadow()
    ensures Words(NODETYPE) == NODETYPE_LEN == 8
    ensures Words(IPMAP) == IPMAP_LEN == 2
    ensures Words(ENABLE) == ENABLE_LEN == 8
    ensures Words(BOUNCE) == BOUNCE_LEN == 8
    ensures Words(ISR) == ISR_LEN == 8
    ensures Words(COREISR) == COREISR_LEN == 8
    ensures Words(COREMAP) == COREMAP_LEN == 64
  {
  }

  /** The windows are ascending, pairwise disjoint, and all below 0x10000, so a
      composite `(cpu << 16) | addr` with `cpu >= 1` never meets a plain address. */
  lemma WindowsDisjointAscending()
    ensures forall i, j :: 0 <= i < j < |WINDOWS| ==> WINDOWS[i].end <= WINDOWS[j].start
    ensures forall i :: 0 <= i < |WINDOWS| ==> 0 <= WINDOWS[i].start < WINDOWS[i].end <= 0x10000
  {
  }

  /** Feature bit numbers. */
  const EXTIOI_HAS_VIRT_EXTENSION := 0
  const EXTIOI_HAS_ENABLE_OPTION := 1
  const EXTIOI_HAS_INT_ENCODE := 2
  const EXTIOI_HAS_CPU_ENCODE := 3

  function Bit(n: nat): bv32
    requires n < 32
  {
    1 << n
  }

  const EXTIOI_VIRT_HAS_FEATURES: bv32 :=
    Bit(EXTIOI_HAS_VIRT_EXTENSION) | Bit(EXTIOI_HAS_ENABLE_OPTION) | Bit(EXTIOI_HAS_CPU_ENCODE)

  lemma VirtHasFeaturesValue()
    ensures EXTIOI_VIRT_HAS_FEATURES == 0xB
  {
  }

  /** A 32-bit field seen as a bit vector, and back. */
  function AsBits(x: u32): bv32 {
    x as bv32
  }

  function AsWord(b: bv32): u32 {
    b as int as u32
  }

  predicate HasVirtExtension(features: bv32) {
    features & Bit(EXTIOI_HAS_VIRT_EXTENSION) != 0
  }

  /** The feature word realize pushes: with the virtualization extension the
      enable-option and cpu-encode bits are added (bits 0, 1 and 3 set, every
      other bit kept); without it the word is unchanged. */
  function DeriveFeatures(features: bv32): (r: bv32)
    ensures !HasVirtExtension(features) ==> r == features
    ensures HasVirtExtension(features) ==> r & 0xB == 0xB && r & !0xB == features & !0xB
  {
    if HasVirtExtension(features) then features | EXTIOI_VIRT_HAS_FEATURES else features
  }
}
