/** The accelerated PCH-PIC device: its shadow of the kernel's register file,
    the transfer of that shadow to and from the kernel, the forwarding of
    input lines to the kernel, and device realization. */
module PchPic {
  import opened Kvm

  /** Shadow array lengths of the accelerated device. */
  const ROUTE_ENTRY_LEN := 64
  const HTMSI_VECTOR_LEN := 64

  /** The register offsets of the PCH-PIC group, the base address pushed at
      realize and the number of input lines.  Their values come from headers
      this model does not include, so they are parameters. */
  datatype PchPicLayout = PchPicLayout(
    mask: int, htmsiEn: int, edge: int, autoCtrl0: int, autoCtrl1: int,
    routeStart: int, routeEnd: int, htmsiVecStart: int, htmsiVecEnd: int,
    intIrr: int, intIsr: int, polarity: int,
    regBase: u64, irqNum: nat)
  {
    /** The byte windows fit the shadow arrays they fill. */
    predicate Fits() {
      && 0 <= routeStart <= routeEnd <= routeStart + ROUTE_ENTRY_LEN
      && 0 <= htmsiVecStart <= htmsiVecEnd <= htmsiVecStart + HTMSI_VECTOR_LEN
    }

    function RouteLen(): nat requires Fits() { routeEnd - routeStart }
    function HtmsiLen(): nat requires Fits() { htmsiVecEnd - htmsiVecStart }

    /** The eight scalar registers, in pass order. */
    function Scalars(): seq<int> {
      [mask, htmsiEn, edge, autoCtrl0, autoCtrl1, intIrr, intIsr, polarity]
    }

    /** The scalar registers are distinct and lie outside both byte windows,
        and the two windows do not overlap. */
    ghost predicate Disjoint() {
      && Distinct(Scalars())
      && (routeEnd <= htmsiVecStart || htmsiVecEnd <= routeStart)
      && forall i :: 0 <= i < |Scalars()| ==>
           !(routeStart <= Scalars()[i] < routeEnd) && !(htmsiVecStart <= Scalars()[i] < htmsiVecEnd)
    }
  }

  /** `lo, lo + 1, ..., hi - 1`. */
  function Range(lo: int, hi: int): (r: seq<int>)
    ensures |r| == if hi <= lo then 0 else hi - lo
    ensures forall i :: 0 <= i < |r| ==> r[i] == lo + i
  {
    if hi <= lo then [] else seq(hi - lo, i requires 0 <= i < hi - lo => lo + i)
  }

  /** A byte loop visits exactly the addresses of its window, none twice. */
  lemma RangeExact(lo: int, hi: int)
    ensures forall x :: x in Range(lo, hi) <==> lo <= x < hi
    ensures Distinct(Range(lo, hi))
  {
    var r := Range(lo, hi);
    forall x | lo <= x < hi ensures x in r {
      assert r[x - lo] == x;
    }
  }

  function HeadAddrs(l: PchPicLayout): seq<int> {
    [l.mask, l.htmsiEn, l.edge, l.autoCtrl0, l.autoCtrl1]
  }

  function TailAddrs(l: PchPicLayout): seq<int> {
    [l.intIrr, l.intIsr, l.polarity]
  }

  /** Every address of one save/load pass, in issue order. */
  function PassAddrs(l: PchPicLayout): seq<int> {
    HeadAddrs(l) + Range(l.routeStart, l.routeEnd) + Range(l.htmsiVecStart, l.htmsiVecEnd) + TailAddrs(l)
  }

  /** A pass issues the five leading scalars, one access per route entry,
      one per HT-MSI vector, then the three trailing scalars. */
  lemma PassAddrsAt(l: PchPicLayout)
    requires l.Fits()
    ensures |PassAddrs(l)| == 8 + l.RouteLen() + l.HtmsiLen()
    ensures PassAddrs(l)[..5] == HeadAddrs(l)
    ensures forall i :: 5 <= i < 5 + l.RouteLen() ==> PassAddrs(l)[i] == l.routeStart + (i - 5)
    ensures forall i :: 5 + l.RouteLen() <= i < 5 + l.RouteLen() + l.HtmsiLen() ==>
              PassAddrs(l)[i] == l.htmsiVecStart + (i - 5 - l.RouteLen())
    ensures PassAddrs(l)[5 + l.RouteLen() + l.HtmsiLen()..] == TailAddrs(l)
  {
    var h, r, v, t := HeadAddrs(l), Range(l.routeStart, l.routeEnd), Range(l.htmsiVecStart, l.htmsiVecEnd), TailAddrs(l);
    assert PassAddrs(l) == h + r + v + t;
    assert (h + r + v + t)[..5] == h;
    assert (h + r + v + t)[5 + |r| + |v|..] == t;
  }

  /** With a disjoint layout no address repeats within a pass. */
  lemma PassAddrsDistinct(l: PchPicLayout)
    requires l.Fits() && l.Disjoint()
    ensures Distinct(PassAddrs(l))
  {
    PassAddrsAt(l);
    var p := PassAddrs(l);
    var rl, hl := l.RouteLen(), l.HtmsiLen();
    var sc := l.Scalars();
    // the position in `Scalars()` of a scalar slot of the pass
    forall i, j | 0 <= i < j < |p| ensures p[i] != p[j] {
      var si := if i < 5 then i else i - rl - hl;
      var sj := if j < 5 then j else j - rl - hl;
      var iScalar := i < 5 || 5 + rl + hl <= i;
      var jScalar := j < 5 || 5 + rl + hl <= j;
      if iScalar {
        assert p[i] == sc[si];
      }
      if jScalar {
        assert p[j] == sc[sj];
      }
      if iScalar && jScalar {
        assert sc[si] != sc[sj];
      }
    }
  }

  // ---------------------------------------------------------------------------
  // Forwarding input lines

  /** The kernel's interrupt-number encoding: the IOAPIC type code and the
      bit positions of the type and vcpu fields.  Header constants this
      model does not include, so they are parameters. */
  datatype IrqEncoding = IrqEncoding(ioapicType: bv32, typeShift: bv5, vcpuShift: bv5)

  /** `(IOAPIC << TYPE_SHIFT) | (0 << VCPU_SHIFT) | irq`. */
  function IrqId(e: IrqEncoding, irq: bv32): bv32 {
    (e.ioapicType << e.typeShift) | (0 << e.vcpuShift) | irq
  }

  /** A line number below the type field comes back out of the low bits of
      its id, so distinct lines get distinct ids. */
  lemma IrqIdLine(e: IrqEncoding, irq: bv32)
    requires irq < (1 << e.typeShift)
    ensures IrqId(e, irq) & ((1 << e.typeShift) - 1) == irq
  {
  }

  /** The type code comes back out of the high bits when it fits above the
      type field: the vcpu field contributes nothing. */
  lemma IrqIdType(e: IrqEncoding, irq: bv32)
    requires irq < (1 << e.typeShift)
    requires (e.ioapicType << e.typeShift) >> e.typeShift == e.ioapicType
    ensures IrqId(e, irq) >> e.typeShift == e.ioapicType
  {
  }

  /** `!!level`. */
  function Normalise(level: int): (r: int)
    ensures r == 0 || r == 1
    ensures r == 0 <==> level == 0
  {
    if level == 0 then 0 else 1
  }

  // ---------------------------------------------------------------------------
  // The device

  /** State shared by every instance of the accelerated PCH-PIC type. */
  class PchPicClass {
    var isCreated: bool
    var devFd: int

    /** `class_init`. */
    constructor ()
      ensures !isCreated
    {
      isCreated, devFd := false, 0;
    }
  }

  class KvmPchPic {
    const klass: PchPicClass
    const layout: PchPicLayout
    const enc: IrqEncoding
    var intMask: u64
    var htmsiEn: u64
    var intedge: u64
    var intclr: u64
    var autoCtrl0: u64
    var autoCtrl1: u64
    const routeEntry: array<u8>
    const htmsiVector: array<u8>
    var lastIntirr: u64
    var intirr: u64
    var intisr: u64
    var intPolarity: u64
    /** Number of input lines registered with the device. */
    var inputLines: nat

    ghost predicate Valid() {
      && routeEntry.Length == ROUTE_ENTRY_LEN && htmsiVector.Length == HTMSI_VECTOR_LEN
      && routeEntry != htmsiVector && layout.Fits()
    }

    constructor (klass: PchPicClass, layout: PchPicLayout, enc: IrqEncoding)
      requires layout.Fits()
      ensures Valid() && this.klass == klass && this.layout == layout && this.enc == enc
      ensures intMask == 0 && htmsiEn == 0 && intedge == 0 && intclr == 0 && autoCtrl0 == 0 && autoCtrl1 == 0
      ensures lastIntirr == 0 && intirr == 0 && intisr == 0 && intPolarity == 0 && inputLines == 0
      ensures fresh(routeEntry) && fresh(htmsiVector)
      ensures routeEntry[..] == seq(ROUTE_ENTRY_LEN, _ => 0) && htmsiVector[..] == seq(HTMSI_VECTOR_LEN, _ => 0)
    {
      this.klass, this.layout, this.enc := klass, layout, enc;
      intMask, htmsiEn, intedge, intclr, autoCtrl0, autoCtrl1 := 0, 0, 0, 0, 0, 0;
      lastIntirr, intirr, intisr, intPolarity, inputLines := 0, 0, 0, 0, 0;
      routeEntry := new u8[ROUTE_ENTRY_LEN](_ => 0);
      htmsiVector := new u8[HTMSI_VECTOR_LEN](_ => 0);
    }

    /** The writes one pass over a byte window issues, in order. */
    static ghost function ByteWrites(start: int, end: int, a: array<u8>): seq<Write>
      reads a
      requires 0 <= start <= end <= start + a.Length
    {
      Zip(Regs(PchPicRegs, Range(start, end)), Widen8(a[..end - start]))
    }

    /** Whether `v` holds what the kernel holds at `start, start + 1, ...` in `s`. */
    static ghost predicate BytesPulled(start: int, v: seq<u8>, s: Store) {
      forall j :: 0 <= j < |v| ==> v[j] == Low8(Peek(s, Reg(PchPicRegs, start + j)))
    }

    ghost function HeadWrites(): seq<Write>
      reads this`intMask, this`htmsiEn, this`intedge, this`autoCtrl0, this`autoCtrl1
    {
      Zip(Regs(PchPicRegs, HeadAddrs(layout)), [intMask, htmsiEn, intedge, autoCtrl0, autoCtrl1])
    }

    ghost function TailWrites(): seq<Write>
      reads this`intirr, this`intisr, this`intPolarity
    {
      Zip(Regs(PchPicRegs, TailAddrs(layout)), [intirr, intisr, intPolarity])
    }

    /** The writes one load pass issues, in order. */
    ghost function PassWrites(): seq<Write>
      reads this`intMask, this`htmsiEn, this`intedge, this`autoCtrl0, this`autoCtrl1
      reads this`intirr, this`intisr, this`intPolarity, routeEntry, htmsiVector
      requires Valid()
    {
      HeadWrites() + ByteWrites(layout.routeStart, layout.routeEnd, routeEntry)
      + ByteWrites(layout.htmsiVecStart, layout.htmsiVecEnd, htmsiVector) + TailWrites()
    }

    lemma PassWritesAttrs()
      requires Valid()
      ensures Attrs(PassWrites()) == Regs(PchPicRegs, PassAddrs(layout))
    {
      var w1, w2 := HeadWrites(), ByteWrites(layout.routeStart, layout.routeEnd, routeEntry);
      var w3, w4 := ByteWrites(layout.htmsiVecStart, layout.htmsiVecEnd, htmsiVector), TailWrites();
      AttrsAppend(w1, w2);
      AttrsAppend(w1 + w2, w3);
      AttrsAppend(w1 + w2 + w3, w4);
      var a1, a2, a3, a4 := HeadAddrs(layout), Range(layout.routeStart, layout.routeEnd),
                            Range(layout.htmsiVecStart, layout.htmsiVecEnd), TailAddrs(layout);
      RegsAppend(PchPicRegs, a1, a2);
      RegsAppend(PchPicRegs, a1 + a2, a3);
      RegsAppend(PchPicRegs, a1 + a2 + a3, a4);
    }

    /** Whether the eight scalar registers of the shadow hold what the kernel holds in `s`. */
    ghost predicate ScalarsPulled(s: Store)
      reads this`intMask, this`htmsiEn, this`intedge, this`autoCtrl0, this`autoCtrl1
      reads this`intirr, this`intisr, this`intPolarity
    {
      && intMask == Peek(s, Reg(PchPicRegs, layout.mask))
      && htmsiEn == Peek(s, Reg(PchPicRegs, layout.htmsiEn))
      && intedge == Peek(s, Reg(PchPicRegs, layout.edge))
      && autoCtrl0 == Peek(s, Reg(PchPicRegs, layout.autoCtrl0))
      && autoCtrl1 == Peek(s, Reg(PchPicRegs, layout.autoCtrl1))
      && intirr == Peek(s, Reg(PchPicRegs, layout.intIrr))
      && intisr == Peek(s, Reg(PchPicRegs, layout.intIsr))
      && intPolarity == Peek(s, Reg(PchPicRegs, layout.polarity))
    }

    /** One of the `for (addr = START; addr < END; addr++)` loops: byte
        `addr - START` of `a` is exchanged at `addr`. */
    static method TransferBytes(k: Kvm, fd: int, start: int, end: int, a: array<u8>, isWrite: bool)
      requires 0 <= start <= end <= start + a.Length
      modifies k`trace, k`store, a
      ensures k.trace == old(k.trace) + Accesses(fd, Regs(PchPicRegs, Range(start, end)), isWrite)
      ensures isWrite ==> unchanged(a) && k.store == ApplyWrites(old(k.store), ByteWrites(start, end, a))
      ensures !isWrite ==> k.store == old(k.store) && BytesPulled(start, a[..end - start], k.store)
      ensures !isWrite ==> a[end - start..] == old(a[end - start..])
    {
      ghost var t := Accesses(fd, Regs(PchPicRegs, Range(start, end)), isWrite);
      ghost var ws := ByteWrites(start, end, a);
      ghost var n := end - start;
      var addr := start;
      while addr < end
        invariant start <= addr <= end
        invariant k.trace == old(k.trace) + t[..addr - start]
        invariant isWrite ==> unchanged(a) && k.store == ApplyWrites(old(k.store), ws[..addr - start])
        invariant !isWrite ==> k.store == old(k.store)
        invariant !isWrite ==> BytesPulled(start, a[..addr - start], k.store)
        invariant !isWrite ==> a[addr - start..] == old(a[addr - start..])
      {
        var offset := addr - start;
        ghost var before := a[..];
        ExchangeByte(k, fd, addr, a, offset, isWrite);
        if isWrite {
          ApplyWritesStep(old(k.store), ws, offset);
        } else {
          PulledStep(start, offset, old(a[..]), before, a[..], k.store);
        }
        assert t[..offset + 1] == t[..offset] + [t[offset]];
        addr := addr + 1;
      }
      assert t[..n] == t;
      assert ws[..n] == ws;
    }

    /** One read step of a byte loop: pulling byte `offset` extends the pulled
        prefix by one and leaves the tail past it as it was. */
    static lemma PulledStep(start: int, offset: nat, orig: seq<u8>, before: seq<u8>, after: seq<u8>, s: Store)
      requires offset < |before| == |orig|
      requires BytesPulled(start, before[..offset], s) && before[offset..] == orig[offset..]
      requires after == before[offset := Low8(Peek(s, Reg(PchPicRegs, start + offset)))]
      ensures BytesPulled(start, after[..offset + 1], s) && after[offset + 1..] == orig[offset + 1..]
    {
      assert after[..offset + 1] == before[..offset] + [after[offset]];
      assert after[offset + 1..] == before[offset + 1..] == before[offset..][1..];
    }

    /** The body of a byte loop: byte `offset` of `a` is exchanged at `addr`. */
    static method ExchangeByte(k: Kvm, fd: int, addr: int, a: array<u8>, offset: nat, isWrite: bool)
      requires offset < a.Length
      modifies k`trace, k`store, a
      ensures k.trace == old(k.trace) + [Access(fd, Reg(PchPicRegs, addr), isWrite)]
      ensures isWrite ==> unchanged(a) && k.store == old(k.store)[Reg(PchPicRegs, addr) := a[offset] as u64]
      ensures !isWrite ==> k.store == old(k.store)
                           && a[..] == old(a[..])[offset := Low8(Peek(k.store, Reg(PchPicRegs, addr)))]
    {
      var v := k.DeviceAccess(fd, Reg(PchPicRegs, addr), a[offset] as u64, isWrite);
      if !isWrite {
        a[offset] := Low8(v);
      }
    }

    /** The five leading scalar accesses of a pass. */
    method TransferHead(k: Kvm, fd: int, isWrite: bool)
      modifies this`intMask, this`htmsiEn, this`intedge, this`autoCtrl0, this`autoCtrl1, k`trace, k`store
      ensures k.trace == old(k.trace) + Accesses(fd, Regs(PchPicRegs, HeadAddrs(layout)), isWrite)
      ensures isWrite ==> intMask == old(intMask) && htmsiEn == old(htmsiEn) && intedge == old(intedge)
                          && autoCtrl0 == old(autoCtrl0) && autoCtrl1 == old(autoCtrl1)
      ensures isWrite ==> k.store == ApplyWrites(old(k.store), old(HeadWrites()))
      ensures !isWrite ==> k.store == old(k.store)
      ensures !isWrite ==> intMask == Peek(k.store, Reg(PchPicRegs, layout.mask))
                           && htmsiEn == Peek(k.store, Reg(PchPicRegs, layout.htmsiEn))
                           && intedge == Peek(k.store, Reg(PchPicRegs, layout.edge))
                           && autoCtrl0 == Peek(k.store, Reg(PchPicRegs, layout.autoCtrl0))
                           && autoCtrl1 == Peek(k.store, Reg(PchPicRegs, layout.autoCtrl1))
    {
      ghost var ws := HeadWrites();
      ghost var t0 := k.trace;
      HeadAccesses(fd, layout, isWrite);
      intMask := k.DeviceAccess(fd, Reg(PchPicRegs, layout.mask), intMask, isWrite);
      htmsiEn := k.DeviceAccess(fd, Reg(PchPicRegs, layout.htmsiEn), htmsiEn, isWrite);
      intedge := k.DeviceAccess(fd, Reg(PchPicRegs, layout.edge), intedge, isWrite);
      autoCtrl0 := k.DeviceAccess(fd, Reg(PchPicRegs, layout.autoCtrl0), autoCtrl0, isWrite);
      autoCtrl1 := k.DeviceAccess(fd, Reg(PchPicRegs, layout.autoCtrl1), autoCtrl1, isWrite);
      assert k.trace == t0 + Accesses(fd, Regs(PchPicRegs, HeadAddrs(layout)), isWrite);
      if isWrite {
        ApplyFiveWrites(old(k.store), ws);
      }
    }

    /** The three trailing scalar accesses of a pass. */
    method TransferTail(k: Kvm, fd: int, isWrite: bool)
      modifies this`intirr, this`intisr, this`intPolarity, k`trace, k`store
      ensures k.trace == old(k.trace) + Accesses(fd, Regs(PchPicRegs, TailAddrs(layout)), isWrite)
      ensures isWrite ==> intirr == old(intirr) && intisr == old(intisr) && intPolarity == old(intPolarity)
      ensures isWrite ==> k.store == ApplyWrites(old(k.store), old(TailWrites()))
      ensures !isWrite ==> k.store == old(k.store)
      ensures !isWrite ==> intirr == Peek(k.store, Reg(PchPicRegs, layout.intIrr))
                           && intisr == Peek(k.store, Reg(PchPicRegs, layout.intIsr))
                           && intPolarity == Peek(k.store, Reg(PchPicRegs, layout.polarity))
    {
      ghost var ws := TailWrites();
      intirr := k.DeviceAccess(fd, Reg(PchPicRegs, layout.intIrr), intirr, isWrite);
      intisr := k.DeviceAccess(fd, Reg(PchPicRegs, layout.intIsr), intisr, isWrite);
      intPolarity := k.DeviceAccess(fd, Reg(PchPicRegs, layout.polarity), intPolarity, isWrite);
      if isWrite {
        ApplyThreeWrites(old(k.store), ws[0], ws[1], ws[2]);
        assert ws == [ws[0], ws[1], ws[2]];
      }
    }

    /** `kvm_loongarch_pch_pic_save_load`: the ten transferred fields in
        order; `intclr` and `last_intirr` are never exchanged. */
    method SaveLoad(k: Kvm, isWrite: bool)
      requires Valid()
      modifies this`intMask, this`htmsiEn, this`intedge, this`autoCtrl0, this`autoCtrl1
      modifies this`intirr, this`intisr, this`intPolarity, routeEntry, htmsiVector, k`trace, k`store
      ensures intclr == old(intclr) && lastIntirr == old(lastIntirr)
      ensures k.trace == old(k.trace) + Accesses(klass.devFd, Regs(PchPicRegs, PassAddrs(layout)), isWrite)
      ensures isWrite ==> ScalarFields() == old(ScalarFields()) && unchanged(routeEntry, htmsiVector)
      ensures isWrite ==> k.store == ApplyWrites(old(k.store), PassWrites())
      ensures !isWrite ==> k.store == old(k.store) && ScalarsPulled(k.store)
      ensures !isWrite ==> BytesPulled(layout.routeStart, routeEntry[..layout.RouteLen()], k.store)
                           && routeEntry[layout.RouteLen()..] == old(routeEntry[layout.RouteLen()..])
      ensures !isWrite ==> BytesPulled(layout.htmsiVecStart, htmsiVector[..layout.HtmsiLen()], k.store)
                           && htmsiVector[layout.HtmsiLen()..] == old(htmsiVector[layout.HtmsiLen()..])
    {
      var fd := klass.devFd;
      ghost var t0 := k.trace;
      ghost var s0 := k.store;
      ghost var h := Accesses(fd, Regs(PchPicRegs, HeadAddrs(layout)), isWrite);
      ghost var r := Accesses(fd, Regs(PchPicRegs, Range(layout.routeStart, layout.routeEnd)), isWrite);
      ghost var v := Accesses(fd, Regs(PchPicRegs, Range(layout.htmsiVecStart, layout.htmsiVecEnd)), isWrite);
      ghost var t := Accesses(fd, Regs(PchPicRegs, TailAddrs(layout)), isWrite);
      ghost var w1 := HeadWrites();
      TransferHead(k, fd, isWrite);
      TransferBytes(k, fd, layout.routeStart, layout.routeEnd, routeEntry, isWrite);
      AppendAssoc(t0, h, r);
      TransferBytes(k, fd, layout.htmsiVecStart, layout.htmsiVecEnd, htmsiVector, isWrite);
      AppendAssoc(t0, h + r, v);
      TransferTail(k, fd, isWrite);
      AppendAssoc(t0, h + r + v, t);
      PassAccessesSplit(fd, layout, isWrite);
      if isWrite {
        var w2 := ByteWrites(layout.routeStart, layout.routeEnd, routeEntry);
        var w3 := ByteWrites(layout.htmsiVecStart, layout.htmsiVecEnd, htmsiVector);
        ApplyWritesAppend(s0, w1, w2);
        ApplyWritesAppend(s0, w1 + w2, w3);
        ApplyWritesAppend(s0, w1 + w2 + w3, TailWrites());
      }
    }

    /** The transferred scalar fields, as one value. */
    ghost function ScalarFields(): seq<u64>
      reads this`intMask, this`htmsiEn, this`intedge, this`autoCtrl0, this`autoCtrl1
      reads this`intirr, this`intisr, this`intPolarity
    {
      [intMask, htmsiEn, intedge, autoCtrl0, autoCtrl1, intirr, intisr, intPolarity]
    }

    /** The snapshot hook before saving: pull the transferred fields out of the kernel. */
    method PreSave(k: Kvm) returns (r: int)
      requires Valid()
      modifies this`intMask, this`htmsiEn, this`intedge, this`autoCtrl0, this`autoCtrl1
      modifies this`intirr, this`intisr, this`intPolarity, routeEntry, htmsiVector, k`trace, k`store
      ensures r == 0 && k.store == old(k.store)
      ensures k.trace == old(k.trace) + Accesses(klass.devFd, Regs(PchPicRegs, PassAddrs(layout)), false)
      ensures ScalarsPulled(k.store)
      ensures BytesPulled(layout.routeStart, routeEntry[..layout.RouteLen()], k.store)
              && routeEntry[layout.RouteLen()..] == old(routeEntry[layout.RouteLen()..])
      ensures BytesPulled(layout.htmsiVecStart, htmsiVector[..layout.HtmsiLen()], k.store)
              && htmsiVector[layout.HtmsiLen()..] == old(htmsiVector[layout.HtmsiLen()..])
    {
      SaveLoad(k, false);
      r := 0;
    }

    /** The snapshot hook after loading: push the transferred fields into the kernel. */
    method PostLoad(k: Kvm, versionId: int) returns (r: int)
      requires Valid()
      modifies this`intMask, this`htmsiEn, this`intedge, this`autoCtrl0, this`autoCtrl1
      modifies this`intirr, this`intisr, this`intPolarity, routeEntry, htmsiVector, k`trace, k`store
      ensures r == 0 && ScalarFields() == old(ScalarFields()) && unchanged(routeEntry, htmsiVector)
      ensures k.trace == old(k.trace) + Accesses(klass.devFd, Regs(PchPicRegs, PassAddrs(layout)), true)
      ensures k.store == ApplyWrites(old(k.store), PassWrites())
    {
      SaveLoad(k, true);
      r := 0;
    }

    /** After a load pass over a disjoint layout the kernel holds every
        transferred field at its own address. */
    lemma LoadedPass(s: Store)
      requires Valid() && layout.Disjoint()
      ensures ScalarsPulled(ApplyWrites(s, PassWrites()))
      ensures BytesPulled(layout.routeStart, routeEntry[..layout.RouteLen()], ApplyWrites(s, PassWrites()))
      ensures BytesPulled(layout.htmsiVecStart, htmsiVector[..layout.HtmsiLen()], ApplyWrites(s, PassWrites()))
    {
      var ws := PassWrites();
      var t := ApplyWrites(s, ws);
      PassWritesAttrs();
      PassAddrsDistinct(layout);
      DistinctRegs(PchPicRegs, PassAddrs(layout));
      DistinctWritesHold(s, ws, []);
      assert ApplyWrites(t, []) == t;
      var w1, w2 := HeadWrites(), ByteWrites(layout.routeStart, layout.routeEnd, routeEntry);
      var w3, w4 := ByteWrites(layout.htmsiVecStart, layout.htmsiVecEnd, htmsiVector), TailWrites();
      HoldsSplit(t, w1 + w2 + w3, w4);
      HoldsSplit(t, w1 + w2, w3);
      HoldsSplit(t, w1, w2);
      assert w1[0].attr == Reg(PchPicRegs, layout.mask) && w1[1].attr == Reg(PchPicRegs, layout.htmsiEn);
      assert w1[2].attr == Reg(PchPicRegs, layout.edge) && w1[3].attr == Reg(PchPicRegs, layout.autoCtrl0);
      assert w1[4].attr == Reg(PchPicRegs, layout.autoCtrl1);
      assert w4[0].attr == Reg(PchPicRegs, layout.intIrr) && w4[1].attr == Reg(PchPicRegs, layout.intIsr);
      assert w4[2].attr == Reg(PchPicRegs, layout.polarity);
      HoldsBytes(layout.routeStart, layout.routeEnd, routeEntry, t);
      HoldsBytes(layout.htmsiVecStart, layout.htmsiVecEnd, htmsiVector, t);
    }

    static lemma HoldsBytes(start: int, end: int, a: array<u8>, t: Store)
      requires 0 <= start <= end <= start + a.Length && Holds(t, ByteWrites(start, end, a))
      ensures BytesPulled(start, a[..end - start], t)
    {
      forall j | 0 <= j < end - start ensures a[j] == Low8(Peek(t, Reg(PchPicRegs, start + j))) {
        assert ByteWrites(start, end, a)[j] == Write(Reg(PchPicRegs, start + j), a[j] as u64);
      }
    }

    /** Loading a snapshot into the kernel and saving it back gives the same
        shadow: the ten transferred fields, the array bytes beyond the windows,
        and the two fields never exchanged. */
    method LoadThenSave(k: Kvm)
      requires Valid() && layout.Disjoint()
      modifies this`intMask, this`htmsiEn, this`intedge, this`autoCtrl0, this`autoCtrl1
      modifies this`intirr, this`intisr, this`intPolarity, routeEntry, htmsiVector, k`trace, k`store
      ensures ScalarFields() == old(ScalarFields()) && intclr == old(intclr) && lastIntirr == old(lastIntirr)
      ensures routeEntry[..] == old(routeEntry[..]) && htmsiVector[..] == old(htmsiVector[..])
    {
      ghost var s := k.store;
      ghost var u, r, v := ScalarFields(), routeEntry[..], htmsiVector[..];
      LoadedPass(s);
      var _ := PostLoad(k, 1);
      var _ := PreSave(k);
      var rl, hl := layout.RouteLen(), layout.HtmsiLen();
      BytesUnique(layout.routeStart, routeEntry[..rl], r[..rl], k.store);
      BytesUnique(layout.htmsiVecStart, htmsiVector[..hl], v[..hl], k.store);
      assert routeEntry[..] == routeEntry[..rl] + routeEntry[rl..];
      assert r == r[..rl] + r[rl..];
      assert htmsiVector[..] == htmsiVector[..hl] + htmsiVector[hl..];
      assert v == v[..hl] + v[hl..];
    }

    static lemma BytesUnique(start: int, v1: seq<u8>, v2: seq<u8>, s: Store)
      requires |v1| == |v2| && BytesPulled(start, v1, s) && BytesPulled(start, v2, s)
      ensures v1 == v2
    {
    }

    /** `kvm_pch_pic_handler`: with acceleration on, one level-set call with
        the composite id and the normalised level; otherwise nothing. */
    method Handler(k: Kvm, irq: nat, level: int)
      requires irq < layout.irqNum && layout.irqNum <= 0x1_0000_0000
      modifies k`irqLevels
      ensures k.enabled ==> k.irqLevels == old(k.irqLevels) + [IrqLevel(IrqId(enc, irq as bv32), Normalise(level))]
      ensures !k.enabled ==> k.irqLevels == old(k.irqLevels)
    {
      if k.enabled {
        var kvmIrq := IrqId(enc, irq as bv32);
        k.SetIrq(kvmIrq, Normalise(level));
      }
    }

    /** `kvm_loongarch_pch_pic_realize`.  `parentErr` is what the parent
        realize reported. */
    method Realize(k: Kvm, parentErr: Option<string>) returns (r: Outcome)
      modifies klass, this`inputLines, k`creates, k`trace, k`store
      ensures parentErr.Some? ==> r == Failed(parentErr.value)
      ensures parentErr.Some? || old(klass.isCreated) ==>
                unchanged(klass) && inputLines == old(inputLines)
                && k.creates == old(k.creates) && k.trace == old(k.trace) && k.store == old(k.store)
      // a second realize is skipped silently
      ensures parentErr.None? && old(klass.isCreated) ==> r == Realized
      ensures parentErr.None? && !old(klass.isCreated) ==> k.creates == old(k.creates) + [PchPicDevice]
      ensures parentErr.None? && !old(klass.isCreated) && PchPicDevice !in k.fdFor ==>
                r == Failed("Creating the KVM pch pic device failed") && unchanged(klass)
                && inputLines == old(inputLines) && k.trace == old(k.trace) && k.store == old(k.store)
      ensures parentErr.None? && !old(klass.isCreated) && PchPicDevice in k.fdFor ==>
                klass.isCreated && klass.devFd == k.fdFor[PchPicDevice]
                && k.trace == old(k.trace) + [Access(klass.devFd, Ctrl(PchPicInit), true)]
      ensures parentErr.None? && !old(klass.isCreated) && PchPicDevice in k.fdFor && PchPicInit in k.refused ==>
                r == Fatal("KVM PCH_PIC: failed to set the base address of PCH PIC")
                && k.store == old(k.store) && inputLines == old(inputLines)
      ensures parentErr.None? && !old(klass.isCreated) && PchPicDevice in k.fdFor && PchPicInit !in k.refused ==>
                r == Realized && k.store == old(k.store)[Ctrl(PchPicInit) := layout.regBase]
                && inputLines == old(inputLines) + layout.irqNum
    {
      if parentErr.Some? {
        return Failed(parentErr.value);
      }
      r := Realized;
      if !klass.isCreated {
        var fd := k.CreateDevice(PchPicDevice);
        if fd.None? {
          return Failed("Creating the KVM pch pic device failed");
        }
        klass.isCreated := true;
        klass.devFd := fd.value;
        var ok := k.TryControl(fd.value, PchPicInit, layout.regBase);
        if !ok {
          return Fatal("KVM PCH_PIC: failed to set the base address of PCH PIC");
        }
        inputLines := inputLines + layout.irqNum;
      }
    }
  }

  lemma ApplyFiveWrites(s: Store, ws: seq<Write>)
    requires |ws| == 5
    ensures ApplyWrites(s, ws) == ApplyWrites(ApplyWrites(s, ws[..2]), ws[2..])
    ensures ApplyWrites(s, ws[..2]) == s[ws[0].attr := ws[0].value][ws[1].attr := ws[1].value]
    ensures ApplyWrites(s, ws) == s[ws[0].attr := ws[0].value][ws[1].attr := ws[1].value]
                                   [ws[2].attr := ws[2].value][ws[3].attr := ws[3].value][ws[4].attr := ws[4].value]
  {
    assert ws == ws[..2] + ws[2..];
    ApplyWritesAppend(s, ws[..2], ws[2..]);
    ApplyWritesStep(s, ws[..2], 1);
    ApplyWritesStep(s, ws[..2], 0);
    assert ws[..2][..1][..0] == [] && ws[..2][..2] == ws[..2];
    ApplyThreeWrites(ApplyWrites(s, ws[..2]), ws[2], ws[3], ws[4]);
    assert ws[2..] == [ws[2], ws[3], ws[4]];
  }

  lemma HeadAccesses(fd: int, l: PchPicLayout, w: bool)
    ensures Accesses(fd, Regs(PchPicRegs, HeadAddrs(l)), w)
            == [Access(fd, Reg(PchPicRegs, l.mask), w), Access(fd, Reg(PchPicRegs, l.htmsiEn), w),
                Access(fd, Reg(PchPicRegs, l.edge), w), Access(fd, Reg(PchPicRegs, l.autoCtrl0), w),
                Access(fd, Reg(PchPicRegs, l.autoCtrl1), w)]
  {
  }

  /** A pass issues the leading scalars, the two byte windows and the trailing scalars. */
  lemma PassAccessesSplit(fd: int, l: PchPicLayout, w: bool)
    ensures Accesses(fd, Regs(PchPicRegs, PassAddrs(l)), w)
            == Accesses(fd, Regs(PchPicRegs, HeadAddrs(l)), w)
               + Accesses(fd, Regs(PchPicRegs, Range(l.routeStart, l.routeEnd)), w)
               + Accesses(fd, Regs(PchPicRegs, Range(l.htmsiVecStart, l.htmsiVecEnd)), w)
               + Accesses(fd, Regs(PchPicRegs, TailAddrs(l)), w)
  {
    var a1, a2, a3, a4 := HeadAddrs(l), Range(l.routeStart, l.routeEnd), Range(l.htmsiVecStart, l.htmsiVecEnd), TailAddrs(l);
    RegsAppend(PchPicRegs, a1, a2);
    RegsAppend(PchPicRegs, a1 + a2, a3);
    RegsAppend(PchPicRegs, a1 + a2 + a3, a4);
    var r1, r2, r3, r4 := Regs(PchPicRegs, a1), Regs(PchPicRegs, a2), Regs(PchPicRegs, a3), Regs(PchPicRegs, a4);
    AccessesAppend(fd, r1, r2, w);
    AccessesAppend(fd, r1 + r2, r3, w);
    AccessesAppend(fd, r1 + r2 + r3, r4, w);
  }
}
