/** The accelerated EXTIOI device: its shadow of the kernel's register file,
    the transfer of that shadow to and from the kernel, the snapshot hooks
    around the transfer, and device realization. */
module ExtIOI {
  import opened Kvm
  import opened ExtIOILayout

  // ---------------------------------------------------------------------------
  // The addresses one register pass visits, in issue order

  /** The six flat windows, in the order the pass visits them. */
  function FlatAddrs(): seq<int> {
    WindowAddrs(NODETYPE) + WindowAddrs(IPMAP) + WindowAddrs(ENABLE)
    + WindowAddrs(BOUNCE) + WindowAddrs(ISR) + WindowAddrs(COREMAP)
  }

  /** What one turn of the cpuid loop visits.  The inner loop overwrites its
      own variable with `(cpuid << 16) | addr`: for cpu 0 that changes nothing
      and all eight words are visited; for any other cpu the next `addr += 4`
      already lies past the window, so only word 0 is visited. */
  function CoreRowAddrs(cpu: nat): seq<int> {
    if cpu == 0 then seq(Words(COREISR), j requires 0 <= j < Words(COREISR) => Compose(0, Addr(COREISR, j)))
    else [Compose(cpu, COREISR.start)]
  }

  /** The per-core part of the pass for cpus `0 .. n-1`. */
  function CoreIsrAddrs(n: nat): seq<int> {
    if n == 0 then [] else CoreIsrAddrs(n - 1) + CoreRowAddrs(n - 1)
  }

  /** Every address of a register pass over a device with `n` cpus. */
  function RegsAddrs(n: nat): seq<int> {
    FlatAddrs() + CoreIsrAddrs(n)
  }

  /** Whether one turn of the cpuid loop transfers word `j` of `cpu`'s row. */
  predicate RowTransferred(cpu: nat, j: nat) {
    j < COREISR_LEN && (cpu == 0 || j == 0)
  }

  /** Whether the pass transfers `coreisr[cpu][j]`. */
  predicate CoreIsrTransferred(n: nat, cpu: nat, j: nat) {
    cpu < n && RowTransferred(cpu, j)
  }

  /** The register address `coreisr[cpu][j]` is exchanged at. */
  function CoreIsrAddr(cpu: nat, j: nat): nat
    requires j < COREISR_LEN
  {
    Compose(cpu, Addr(COREISR, j))
  }

  const SW_STATUS_ATTRS := [Sw(SwNumCpu), Sw(SwFeature), Sw(SwState)]

  // ---------------------------------------------------------------------------
  // Properties of the pass

  /** The per-core part in closed form: words 0..7 of cpu 0, then word 0 of
      each further cpu; `7 + n` accesses in all. */
  lemma {:induction false} CoreIsrAddrsAt(n: nat)
    ensures |CoreIsrAddrs(n)| == if n == 0 then 0 else 7 + n
    ensures forall i :: 0 <= i < |CoreIsrAddrs(n)| ==>
              CoreIsrAddrs(n)[i] == if i < 8 then CoreIsrAddr(0, i) else CoreIsrAddr(i - 7, 0)
  {
    if n > 0 {
      CoreIsrAddrsAt(n - 1);
      var p := CoreIsrAddrs(n - 1);
      assert CoreIsrAddrs(n) == p + CoreRowAddrs(n - 1);
      if n - 1 == 0 {
        assert p == [];
      } else {
        assert |CoreRowAddrs(n - 1)| == 1;
      }
    }
  }

  /** `coreisr[cpu][j]` is exchanged exactly when cpu 0's word or word 0 of a
      cpu below `n`: no access names a cpu at or above `n`, and words 1..7 of
      every cpu but 0 are never transferred. */
  lemma CoreIsrCoverage(n: nat, cpu: nat, j: nat)
    requires j < COREISR_LEN
    ensures CoreIsrAddr(cpu, j) in CoreIsrAddrs(n) <==> CoreIsrTransferred(n, cpu, j)
  {
    CoreIsrAddrsAt(n);
    var p := CoreIsrAddrs(n);
    if CoreIsrTransferred(n, cpu, j) {
      var i := if cpu == 0 then j else 7 + cpu;
      assert p[i] == CoreIsrAddr(cpu, j);
    }
    if CoreIsrAddr(cpu, j) in p {
      var i :| 0 <= i < |p| && p[i] == CoreIsrAddr(cpu, j);
      if i < 8 {
        ComposeInjective(cpu, Addr(COREISR, j), 0, Addr(COREISR, i));
      } else {
        ComposeInjective(cpu, Addr(COREISR, j), i - 7, Addr(COREISR, 0));
      }
    }
  }

  ghost predicate Ascending(s: seq<int>) {
    forall i, j :: 0 <= i < j < |s| ==> s[i] < s[j]
  }

  lemma AscendingConcat(a: seq<int>, b: seq<int>)
    requires Ascending(a) && Ascending(b)
    requires a != [] && b != [] && a[|a| - 1] < b[0]
    ensures Ascending(a + b)
  {
    forall i, j | 0 <= i < j < |a + b| ensures (a + b)[i] < (a + b)[j] {
      if i < |a| && |a| <= j {
        assert a[i] <= a[|a| - 1];
        assert b[0] <= b[j - |a|];
      }
    }
  }

  /** The flat windows are visited in ascending address order, and none of
      their addresses lies in the per-core window or at 0x10000 or above. */
  lemma FlatAddrsAscending()
    ensures Ascending(FlatAddrs())
    ensures forall i :: 0 <= i < |FlatAddrs()| ==>
              NODETYPE.start <= FlatAddrs()[i] < COREMAP.end
              && (FlatAddrs()[i] < COREISR.start || COREISR.end <= FlatAddrs()[i])
  {
    var a1, a2, a3 := WindowAddrs(NODETYPE), WindowAddrs(IPMAP), WindowAddrs(ENABLE);
    var a4, a5, a6 := WindowAddrs(BOUNCE), WindowAddrs(ISR), WindowAddrs(COREMAP);
    AscendingConcat(a1, a2);
    AscendingConcat(a1 + a2, a3);
    AscendingConcat(a1 + a2 + a3, a4);
    AscendingConcat(a1 + a2 + a3 + a4, a5);
    AscendingConcat(a1 + a2 + a3 + a4 + a5, a6);
  }

  /** All addresses of one register pass are distinct. */
  lemma RegsAddrsDistinct(n: nat)
    ensures Distinct(RegsAddrs(n))
  {
    FlatAddrsAscending();
    CoreIsrAddrsAt(n);
    var f, c := FlatAddrs(), CoreIsrAddrs(n);
    forall i, j | 0 <= i < j < |f + c| ensures (f + c)[i] != (f + c)[j] {
      if j < |f| {
      } else if i < |f| {
        var x := c[j - |f|];
        assert COREISR.start <= x < COREISR.end || x >= 0x10000;
      } else {
        var i', j' := i - |f|, j - |f|;
        assert c[i'] < c[j'];
      }
    }
  }

  function IdentityRoutes(n: nat): (r: seq<Route>)
    ensures |r| == n && forall i :: 0 <= i < n ==> r[i] == Route(i, 0, i)
  {
    seq(n, i requires 0 <= i < n => Route(i, 0, i))
  }

  /** The identity routes: a route is among them exactly when it sends a gsi
      below `n` to the pin of the same number on chip 0, and no gsi is routed twice. */
  lemma IdentityRoutesExact(n: nat)
    ensures forall rt :: rt in IdentityRoutes(n) <==> rt.gsi < n && rt.irqchip == 0 && rt.pin == rt.gsi
    ensures forall i, j :: 0 <= i < j < n ==> IdentityRoutes(n)[i].gsi != IdentityRoutes(n)[j].gsi
  {
    var r := IdentityRoutes(n);
    forall rt: Route | rt.gsi < n && rt.irqchip == 0 && rt.pin == rt.gsi ensures rt in r {
      assert r[rt.gsi] == rt;
    }
  }

  // ---------------------------------------------------------------------------
  // The device

  /** State shared by every instance of the accelerated EXTIOI type. */
  class ExtIOIClass {
    var isCreated: bool
    var devFd: int

    /** `class_init`. */
    constructor ()
      ensures !isCreated
    {
      isCreated, devFd := false, 0;
    }
  }

  class KvmExtIOI {
    const klass: ExtIOIClass
    var numCpu: u32
    var features: u32
    var status: u32
    const nodetype: array<u32>
    const bounce: array<u32>
    const isr: array<u32>
    const coreisr: array2<u32>
    const enable: array<u32>
    const ipmap: array<u32>
    const coremap: array<u32>
    const swCoremap: array<u8>

    ghost predicate Valid()
    {
      && nodetype.Length == NODETYPE_LEN && bounce.Length == BOUNCE_LEN
      && isr.Length == ISR_LEN && enable.Length == ENABLE_LEN
      && ipmap.Length == IPMAP_LEN && coremap.Length == COREMAP_LEN
      && coreisr.Length0 == EXTIOI_CPUS && coreisr.Length1 == COREISR_LEN
      && swCoremap.Length == SW_COREMAP_LEN
      && nodetype != bounce && nodetype != isr && nodetype != enable && nodetype != ipmap && nodetype != coremap
      && bounce != isr && bounce != enable && bounce != ipmap && bounce != coremap
      && isr != enable && isr != ipmap && isr != coremap
      && enable != ipmap && enable != coremap
      && ipmap != coremap
    }

    /** A zeroed shadow with the `num-cpu` and `has-virtualization-extension`
        properties applied. */
    constructor (klass: ExtIOIClass, numCpu: u32, hasVirtExtension: bool)
      ensures Valid() && this.klass == klass && this.numCpu == numCpu && status == 0
      ensures features == if hasVirtExtension then 1 else 0  // bit EXTIOI_HAS_VIRT_EXTENSION
      ensures fresh(nodetype) && fresh(bounce) && fresh(isr) && fresh(coreisr)
      ensures fresh(enable) && fresh(ipmap) && fresh(coremap) && fresh(swCoremap)
      ensures nodetype[..] == seq(NODETYPE_LEN, _ => 0) && bounce[..] == seq(BOUNCE_LEN, _ => 0)
      ensures isr[..] == seq(ISR_LEN, _ => 0) && enable[..] == seq(ENABLE_LEN, _ => 0)
      ensures ipmap[..] == seq(IPMAP_LEN, _ => 0) && coremap[..] == seq(COREMAP_LEN, _ => 0)
      ensures swCoremap[..] == seq(SW_COREMAP_LEN, _ => 0)
      ensures forall c, j :: 0 <= c < EXTIOI_CPUS && 0 <= j < COREISR_LEN ==> coreisr[c, j] == 0
    {
      this.klass, this.numCpu, status := klass, numCpu, 0;
      features := if hasVirtExtension then 1 else 0;
      nodetype := new u32[NODETYPE_LEN](_ => 0);
      bounce := new u32[BOUNCE_LEN](_ => 0);
      isr := new u32[ISR_LEN](_ => 0);
      coreisr := new u32[EXTIOI_CPUS, COREISR_LEN]((_, _) => 0);
      enable := new u32[ENABLE_LEN](_ => 0);
      ipmap := new u32[IPMAP_LEN](_ => 0);
      coremap := new u32[COREMAP_LEN](_ => 0);
      swCoremap := new u8[SW_COREMAP_LEN](_ => 0);
    }

    /** The writes one load pass of a window issues, in order. */
    static ghost function WindowWrites(w: Window, a: array<u32>): seq<Write>
      reads a
      requires a.Length == Words(w)
    {
      Zip(Regs(ExtioiRegs, WindowAddrs(w)), Widen32(a[..]))
    }

    /** Whether every word of `a` holds what the kernel held at its address in `s`. */
    static ghost predicate WindowPulled(w: Window, v: seq<u32>, s: Store) {
      forall j :: 0 <= j < |v| ==> v[j] == Low32(Peek(s, Reg(ExtioiRegs, Addr(w, j))))
    }

    /** Two shadows pulled from the same kernel state are the same. */
    static lemma PulledUnique(w: Window, v1: seq<u32>, v2: seq<u32>, s: Store)
      requires |v1| == |v2| && WindowPulled(w, v1, s) && WindowPulled(w, v2, s)
      ensures v1 == v2
    {
    }

    ghost function CoreRowValues(cpu: nat): seq<u64>
      reads coreisr
      requires Valid() && cpu < EXTIOI_CPUS
    {
      if cpu == 0 then seq(COREISR_LEN, j requires 0 <= j < COREISR_LEN reads coreisr => coreisr[0, j] as u64)
      else [coreisr[cpu, 0] as u64]
    }

    ghost function CoreRowWrites(cpu: nat): seq<Write>
      reads coreisr
      requires Valid() && cpu < EXTIOI_CPUS
    {
      Zip(Regs(ExtioiRegs, CoreRowAddrs(cpu)), CoreRowValues(cpu))
    }

    ghost function CoreIsrWrites(n: nat): seq<Write>
      reads coreisr
      requires Valid() && n <= EXTIOI_CPUS
    {
      if n == 0 then [] else CoreIsrWrites(n - 1) + CoreRowWrites(n - 1)
    }

    /** The writes one load pass issues, in order: the flat windows, then the
        per-core words. */
    ghost function RegsWrites(): seq<Write>
      reads this`numCpu, nodetype, ipmap, enable, bounce, isr, coremap, coreisr
      requires Valid() && numCpu as int <= EXTIOI_CPUS
    {
      FlatWrites() + CoreIsrWrites(numCpu as nat)
    }

    ghost function FlatWrites(): seq<Write>
      reads nodetype, ipmap, enable, bounce, isr, coremap
      requires Valid()
    {
      WindowWrites(NODETYPE, nodetype) + WindowWrites(IPMAP, ipmap) + WindowWrites(ENABLE, enable)
      + WindowWrites(BOUNCE, bounce) + WindowWrites(ISR, isr) + WindowWrites(COREMAP, coremap)
    }

    ghost function SwWrites(): seq<Write>
      reads this`numCpu, this`features, this`status
    {
      [Write(Sw(SwNumCpu), numCpu as u64), Write(Sw(SwFeature), features as u64),
       Write(Sw(SwState), status as u64)]
    }

    lemma CoreIsrWritesAttrs(n: nat)
      requires Valid() && n <= EXTIOI_CPUS
      ensures Attrs(CoreIsrWrites(n)) == Regs(ExtioiRegs, CoreIsrAddrs(n))
    {
      if n > 0 {
        CoreIsrWritesAttrs(n - 1);
        AttrsAppend(CoreIsrWrites(n - 1), CoreRowWrites(n - 1));
        RegsAppend(ExtioiRegs, CoreIsrAddrs(n - 1), CoreRowAddrs(n - 1));
      }
    }

    /** The writes of a load pass name exactly the addresses of the pass. */
    lemma RegsWritesAttrs()
      requires Valid() && numCpu as int <= EXTIOI_CPUS
      ensures Attrs(RegsWrites()) == Regs(ExtioiRegs, RegsAddrs(numCpu as nat))
    {
      var w1, w2, w3 := WindowWrites(NODETYPE, nodetype), WindowWrites(IPMAP, ipmap), WindowWrites(ENABLE, enable);
      var w4, w5, w6 := WindowWrites(BOUNCE, bounce), WindowWrites(ISR, isr), WindowWrites(COREMAP, coremap);
      var w7 := CoreIsrWrites(numCpu as nat);
      CoreIsrWritesAttrs(numCpu as nat);
      AttrsAppend(w1, w2);
      AttrsAppend(w1 + w2, w3);
      AttrsAppend(w1 + w2 + w3, w4);
      AttrsAppend(w1 + w2 + w3 + w4, w5);
      AttrsAppend(w1 + w2 + w3 + w4 + w5, w6);
      AttrsAppend(w1 + w2 + w3 + w4 + w5 + w6, w7);
      var a1, a2, a3 := WindowAddrs(NODETYPE), WindowAddrs(IPMAP), WindowAddrs(ENABLE);
      var a4, a5, a6 := WindowAddrs(BOUNCE), WindowAddrs(ISR), WindowAddrs(COREMAP);
      var a7 := CoreIsrAddrs(numCpu as nat);
      RegsAppend(ExtioiRegs, a1, a2);
      RegsAppend(ExtioiRegs, a1 + a2, a3);
      RegsAppend(ExtioiRegs, a1 + a2 + a3, a4);
      RegsAppend(ExtioiRegs, a1 + a2 + a3 + a4, a5);
      RegsAppend(ExtioiRegs, a1 + a2 + a3 + a4 + a5, a6);
      RegsAppend(ExtioiRegs, a1 + a2 + a3 + a4 + a5 + a6, a7);
    }

    /** One `for (addr = START; addr < END; addr += 4)` loop over a flat window:
        word `(addr - START) / 4` of `a` is exchanged at `addr`. */
    static method TransferWindow(k: Kvm, fd: int, w: Window, a: array<u32>, isWrite: bool)
      requires a.Length == Words(w)
      modifies k`trace, k`store, a
      ensures k.trace == old(k.trace) + Accesses(fd, Regs(ExtioiRegs, WindowAddrs(w)), isWrite)
      ensures isWrite ==> unchanged(a) && k.store == ApplyWrites(old(k.store), WindowWrites(w, a))
      ensures !isWrite ==> k.store == old(k.store) && WindowPulled(w, a[..], k.store)
    {
      ghost var t := Accesses(fd, Regs(ExtioiRegs, WindowAddrs(w)), isWrite);
      ghost var ws := WindowWrites(w, a);
      ghost var i := 0;
      var addr := w.start;
      while addr < w.end
        invariant 0 <= i <= Words(w) && addr == Addr(w, i) && (addr < w.end <==> i < Words(w))
        invariant k.trace == old(k.trace) + t[..i]
        invariant isWrite ==> unchanged(a) && k.store == ApplyWrites(old(k.store), ws[..i])
        invariant !isWrite ==> k.store == old(k.store)
        invariant !isWrite ==> forall j :: 0 <= j < i ==> a[j] == Low32(Peek(k.store, Reg(ExtioiRegs, Addr(w, j))))
        decreases w.end - addr
      {
        var offset := Index(w, addr);
        assert offset == i;
        ExchangeWord(k, fd, addr, a, offset, isWrite);
        if isWrite {
          ApplyWritesStep(old(k.store), ws, i);
        }
        assert t[..i + 1] == t[..i] + [t[i]];
        addr := addr + 4;
        i := i + 1;
      }
      assert t[..i] == t;
      assert ws[..i] == ws;
    }

    /** The body of a window loop: word `offset` of `a` is exchanged at `addr`. */
    static method ExchangeWord(k: Kvm, fd: int, addr: int, a: array<u32>, offset: nat, isWrite: bool)
      requires offset < a.Length
      modifies k`trace, k`store, a
      ensures k.trace == old(k.trace) + [Access(fd, Reg(ExtioiRegs, addr), isWrite)]
      ensures isWrite ==> unchanged(a) && k.store == old(k.store)[Reg(ExtioiRegs, addr) := a[offset] as u64]
      ensures !isWrite ==> k.store == old(k.store)
                           && a[..] == old(a[..])[offset := Low32(Peek(k.store, Reg(ExtioiRegs, addr)))]
    {
      var v := k.DeviceAccess(fd, Reg(ExtioiRegs, addr), a[offset] as u64, isWrite);
      if !isWrite {
        a[offset] := Low32(v);
      }
    }

    /** One turn of the cpuid loop: the inner `for (addr = COREISR_START; ...)`
        loop, with the loop variable overwritten as the source does. */
    method TransferCoreRow(k: Kvm, fd: int, cpuid: nat, isWrite: bool)
      requires Valid() && cpuid < EXTIOI_CPUS
      modifies k`trace, k`store, coreisr
      ensures k.trace == old(k.trace) + Accesses(fd, Regs(ExtioiRegs, CoreRowAddrs(cpuid)), isWrite)
      ensures isWrite ==> unchanged(coreisr) && k.store == ApplyWrites(old(k.store), CoreRowWrites(cpuid))
      ensures !isWrite ==> k.store == old(k.store)
      ensures !isWrite ==> forall c, j :: 0 <= c < EXTIOI_CPUS && 0 <= j < COREISR_LEN ==>
                coreisr[c, j] == if c == cpuid && RowTransferred(c, j)
                                 then Low32(Peek(k.store, Reg(ExtioiRegs, CoreIsrAddr(c, j))))
                                 else old(coreisr[c, j])
    {
      ghost var row := CoreRowAddrs(cpuid);
      ghost var t := Accesses(fd, Regs(ExtioiRegs, row), isWrite);
      ghost var ws := CoreRowWrites(cpuid);
      ghost var done := 0;
      var addr := COREISR.start;
      while addr < COREISR.end
        invariant 0 <= done <= |row|
        invariant cpuid == 0 ==> addr == Addr(COREISR, done)
        invariant cpuid > 0 ==> addr == if done == 0 then COREISR.start else Compose(cpuid, COREISR.start) + 4
        invariant addr < COREISR.end <==> done < |row|
        invariant k.trace == old(k.trace) + t[..done]
        invariant isWrite ==> unchanged(coreisr) && k.store == ApplyWrites(old(k.store), ws[..done])
        invariant !isWrite ==> k.store == old(k.store)
        invariant !isWrite ==> forall j :: 0 <= j < COREISR_LEN ==>
                    coreisr[cpuid, j] == if j < done
                                         then Low32(Peek(k.store, Reg(ExtioiRegs, CoreIsrAddr(cpuid, j))))
                                         else old(coreisr[cpuid, j])
        invariant forall c, j :: 0 <= c < EXTIOI_CPUS && c != cpuid && 0 <= j < COREISR_LEN ==>
                    coreisr[c, j] == old(coreisr[c, j])
        decreases COREISR.end - addr
      {
        var offset := Index(COREISR, addr);
        assert offset == done;
        addr := Compose(cpuid, addr);
        assert addr == row[done];
        ExchangeCoreIsr(k, fd, cpuid, offset, addr, isWrite);
        if isWrite {
          ApplyWritesStep(old(k.store), ws, done);
        }
        assert t[..done + 1] == t[..done] + [t[done]];
        addr := addr + 4;
        done := done + 1;
      }
      assert t[..done] == t && ws[..done] == ws;
    }

    /** The body of the inner loop: `coreisr[cpuid][offset]` is exchanged at `addr`. */
    method ExchangeCoreIsr(k: Kvm, fd: int, cpuid: nat, offset: nat, addr: int, isWrite: bool)
      requires Valid() && cpuid < EXTIOI_CPUS && offset < COREISR_LEN
      modifies k`trace, k`store, coreisr
      ensures k.trace == old(k.trace) + [Access(fd, Reg(ExtioiRegs, addr), isWrite)]
      ensures isWrite ==> unchanged(coreisr) && k.store == old(k.store)[Reg(ExtioiRegs, addr) := coreisr[cpuid, offset] as u64]
      ensures !isWrite ==> k.store == old(k.store)
      ensures !isWrite ==> forall c, j :: 0 <= c < EXTIOI_CPUS && 0 <= j < COREISR_LEN ==>
                coreisr[c, j] == if c == cpuid && j == offset
                                 then Low32(Peek(k.store, Reg(ExtioiRegs, addr)))
                                 else old(coreisr[c, j])
    {
      var v := k.DeviceAccess(fd, Reg(ExtioiRegs, addr), coreisr[cpuid, offset] as u64, isWrite);
      if !isWrite {
        coreisr[cpuid, offset] := Low32(v);
      }
    }

    /** The per-core loop of the register pass, over cpus `0 .. num_cpu - 1`. */
    method TransferCoreIsr(k: Kvm, fd: int, isWrite: bool)
      requires Valid() && numCpu as int <= EXTIOI_CPUS
      modifies k`trace, k`store, coreisr
      ensures k.trace == old(k.trace) + Accesses(fd, Regs(ExtioiRegs, CoreIsrAddrs(numCpu as nat)), isWrite)
      ensures isWrite ==> unchanged(coreisr) && k.store == ApplyWrites(old(k.store), CoreIsrWrites(numCpu as nat))
      ensures !isWrite ==> k.store == old(k.store)
      ensures !isWrite ==> forall c, j :: 0 <= c < EXTIOI_CPUS && 0 <= j < COREISR_LEN ==>
                coreisr[c, j] == if CoreIsrTransferred(numCpu as nat, c, j)
                                 then Low32(Peek(k.store, Reg(ExtioiRegs, CoreIsrAddr(c, j))))
                                 else old(coreisr[c, j])
    {
      var cpuid := 0;
      while cpuid < numCpu as nat
        invariant 0 <= cpuid <= numCpu as nat
        invariant k.trace == old(k.trace) + Accesses(fd, Regs(ExtioiRegs, CoreIsrAddrs(cpuid)), isWrite)
        invariant isWrite ==> unchanged(coreisr) && k.store == ApplyWrites(old(k.store), CoreIsrWrites(cpuid))
        invariant !isWrite ==> k.store == old(k.store)
        invariant !isWrite ==> forall c, j :: 0 <= c < EXTIOI_CPUS && 0 <= j < COREISR_LEN ==>
                    coreisr[c, j] == if CoreIsrTransferred(cpuid, c, j)
                                     then Low32(Peek(k.store, Reg(ExtioiRegs, CoreIsrAddr(c, j))))
                                     else old(coreisr[c, j])
      {
        ghost var t0 := k.trace;
        label before:
        TransferCoreRow(k, fd, cpuid, isWrite);
        if !isWrite {
          forall c, j | 0 <= c < EXTIOI_CPUS && 0 <= j < COREISR_LEN
            ensures coreisr[c, j] == if CoreIsrTransferred(cpuid + 1, c, j)
                                     then Low32(Peek(k.store, Reg(ExtioiRegs, CoreIsrAddr(c, j))))
                                     else old(coreisr[c, j])
          {
            if !(c == cpuid && RowTransferred(c, j)) {
              assert coreisr[c, j] == old@before(coreisr[c, j]);
            }
          }
        }
        AppendAssoc(old(k.trace), t0[|old(k.trace)|..], Accesses(fd, Regs(ExtioiRegs, CoreRowAddrs(cpuid)), isWrite));
        AccessesAppend(fd, Regs(ExtioiRegs, CoreIsrAddrs(cpuid)), Regs(ExtioiRegs, CoreRowAddrs(cpuid)), isWrite);
        RegsAppend(ExtioiRegs, CoreIsrAddrs(cpuid), CoreRowAddrs(cpuid));
        if isWrite {
          ApplyWritesAppend(old(k.store), CoreIsrWrites(cpuid), CoreRowWrites(cpuid));
        }
        cpuid := cpuid + 1;
      }
    }

    /** The six flat-window loops of the register pass. */
    method TransferFlat(k: Kvm, fd: int, isWrite: bool)
      requires Valid()
      modifies k`trace, k`store, nodetype, ipmap, enable, bounce, isr, coremap
      ensures k.trace == old(k.trace) + Accesses(fd, Regs(ExtioiRegs, FlatAddrs()), isWrite)
      ensures isWrite ==> unchanged(nodetype, ipmap, enable, bounce, isr, coremap)
      ensures isWrite ==> k.store == ApplyWrites(old(k.store), FlatWrites())
      ensures !isWrite ==> k.store == old(k.store) && FlatPulled(k.store)
    {
      ghost var t0 := k.trace;
      ghost var a1 := Accesses(fd, Regs(ExtioiRegs, WindowAddrs(NODETYPE)), isWrite);
      ghost var a2 := Accesses(fd, Regs(ExtioiRegs, WindowAddrs(IPMAP)), isWrite);
      ghost var a3 := Accesses(fd, Regs(ExtioiRegs, WindowAddrs(ENABLE)), isWrite);
      ghost var a4 := Accesses(fd, Regs(ExtioiRegs, WindowAddrs(BOUNCE)), isWrite);
      ghost var a5 := Accesses(fd, Regs(ExtioiRegs, WindowAddrs(ISR)), isWrite);
      ghost var a6 := Accesses(fd, Regs(ExtioiRegs, WindowAddrs(COREMAP)), isWrite);
      TransferWindow(k, fd, NODETYPE, nodetype, isWrite);
      TransferWindow(k, fd, IPMAP, ipmap, isWrite);
      AppendAssoc(t0, a1, a2);
      TransferWindow(k, fd, ENABLE, enable, isWrite);
      AppendAssoc(t0, a1 + a2, a3);
      TransferWindow(k, fd, BOUNCE, bounce, isWrite);
      AppendAssoc(t0, a1 + a2 + a3, a4);
      TransferWindow(k, fd, ISR, isr, isWrite);
      AppendAssoc(t0, a1 + a2 + a3 + a4, a5);
      TransferWindow(k, fd, COREMAP, coremap, isWrite);
      AppendAssoc(t0, a1 + a2 + a3 + a4 + a5, a6);
      FlatAccessesSplit(fd, isWrite);
      if isWrite {
        var w1, w2, w3 := WindowWrites(NODETYPE, nodetype), WindowWrites(IPMAP, ipmap), WindowWrites(ENABLE, enable);
        var w4, w5, w6 := WindowWrites(BOUNCE, bounce), WindowWrites(ISR, isr), WindowWrites(COREMAP, coremap);
        ghost var s0 := old(k.store);
        ApplyWritesAppend(s0, w1, w2);
        ApplyWritesAppend(s0, w1 + w2, w3);
        ApplyWritesAppend(s0, w1 + w2 + w3, w4);
        ApplyWritesAppend(s0, w1 + w2 + w3 + w4, w5);
        ApplyWritesAppend(s0, w1 + w2 + w3 + w4 + w5, w6);
      }
    }

    /** `kvm_extioi_save_load_regs`: one pass over every register window of
        the device, then over the per-core words of cpus `0 .. num_cpu - 1`. */
    method SaveLoadRegs(k: Kvm, isWrite: bool)
      requires Valid() && numCpu as int <= EXTIOI_CPUS
      modifies k`trace, k`store, nodetype, ipmap, enable, bounce, isr, coremap, coreisr
      ensures k.trace == old(k.trace) + Accesses(klass.devFd, Regs(ExtioiRegs, RegsAddrs(numCpu as nat)), isWrite)
      ensures isWrite ==> unchanged(nodetype, ipmap, enable, bounce, isr, coremap, coreisr)
      ensures isWrite ==> k.store == ApplyWrites(old(k.store), RegsWrites())
      ensures !isWrite ==> k.store == old(k.store) && FlatPulled(k.store)
      ensures !isWrite ==> forall c, j :: 0 <= c < EXTIOI_CPUS && 0 <= j < COREISR_LEN ==>
                coreisr[c, j] == if CoreIsrTransferred(numCpu as nat, c, j)
                                 then Low32(Peek(k.store, Reg(ExtioiRegs, CoreIsrAddr(c, j))))
                                 else old(coreisr[c, j])
    {
      var fd := klass.devFd;
      ghost var t0 := k.trace;
      TransferFlat(k, fd, isWrite);
      TransferCoreIsr(k, fd, isWrite);
      AppendAssoc(t0, Accesses(fd, Regs(ExtioiRegs, FlatAddrs()), isWrite),
                  Accesses(fd, Regs(ExtioiRegs, CoreIsrAddrs(numCpu as nat)), isWrite));
      AccessesAppend(fd, Regs(ExtioiRegs, FlatAddrs()), Regs(ExtioiRegs, CoreIsrAddrs(numCpu as nat)), isWrite);
      RegsAppend(ExtioiRegs, FlatAddrs(), CoreIsrAddrs(numCpu as nat));
      if isWrite {
        ApplyWritesAppendFlat(old(k.store));
      }
    }

    lemma ApplyWritesAppendFlat(s: Store)
      requires Valid() && numCpu as int <= EXTIOI_CPUS
      ensures ApplyWrites(s, RegsWrites()) == ApplyWrites(ApplyWrites(s, FlatWrites()), CoreIsrWrites(numCpu as nat))
    {
      ApplyWritesAppend(s, FlatWrites(), CoreIsrWrites(numCpu as nat));
    }

    /** Whether every flat window of the shadow holds what the kernel holds in `s`. */
    ghost predicate FlatPulled(s: Store)
      reads nodetype, ipmap, enable, bounce, isr, coremap
    {
      && WindowPulled(NODETYPE, nodetype[..], s) && WindowPulled(IPMAP, ipmap[..], s)
      && WindowPulled(ENABLE, enable[..], s) && WindowPulled(BOUNCE, bounce[..], s)
      && WindowPulled(ISR, isr[..], s) && WindowPulled(COREMAP, coremap[..], s)
    }

    /** `kvm_extioi_save_load_sw_status`: `num_cpu`, `features` and `status`,
        in that order. */
    method SaveLoadSwStatus(k: Kvm, isWrite: bool)
      modifies this`numCpu, this`features, this`status, k`trace, k`store
      ensures k.trace == old(k.trace) + Accesses(klass.devFd, SW_STATUS_ATTRS, isWrite)
      ensures isWrite ==> numCpu == old(numCpu) && features == old(features) && status == old(status)
      ensures isWrite ==> k.store == ApplyWrites(old(k.store), SwWrites())
      ensures !isWrite ==> k.store == old(k.store) && SwPulled(k.store)
    {
      var fd := klass.devFd;
      ghost var ws := SwWrites();
      var v := k.DeviceAccess(fd, Sw(SwNumCpu), numCpu as u64, isWrite);
      if !isWrite {
        numCpu := Low32(v);
      }
      v := k.DeviceAccess(fd, Sw(SwFeature), features as u64, isWrite);
      if !isWrite {
        features := Low32(v);
      }
      v := k.DeviceAccess(fd, Sw(SwState), status as u64, isWrite);
      if !isWrite {
        status := Low32(v);
      }
      if isWrite {
        ApplyThreeWrites(old(k.store), ws[0], ws[1], ws[2]);
      }
    }

    /** Whether the three software-status fields hold what the kernel holds in `s`. */
    ghost predicate SwPulled(s: Store)
      reads this`numCpu, this`features, this`status
    {
      && numCpu == Low32(Peek(s, Sw(SwNumCpu)))
      && features == Low32(Peek(s, Sw(SwFeature)))
      && status == Low32(Peek(s, Sw(SwState)))
    }

    /** The snapshot hook before saving: pull the registers, then the
        software status, out of the kernel. */
    method PreSave(k: Kvm) returns (r: int)
      requires Valid() && numCpu as int <= EXTIOI_CPUS
      modifies this`numCpu, this`features, this`status, k`trace, k`store
      modifies nodetype, ipmap, enable, bounce, isr, coremap, coreisr
      ensures r == 0 && k.store == old(k.store)
      ensures k.trace == old(k.trace)
                         + Accesses(klass.devFd, Regs(ExtioiRegs, RegsAddrs(old(numCpu) as nat)), false)
                         + Accesses(klass.devFd, SW_STATUS_ATTRS, false)
      ensures FlatPulled(k.store) && SwPulled(k.store)
      ensures forall c, j :: 0 <= c < EXTIOI_CPUS && 0 <= j < COREISR_LEN ==>
                coreisr[c, j] == if CoreIsrTransferred(old(numCpu) as nat, c, j)
                                 then Low32(Peek(k.store, Reg(ExtioiRegs, CoreIsrAddr(c, j))))
                                 else old(coreisr[c, j])
    {
      ghost var t0 := k.trace;
      SaveLoadRegs(k, false);
      ghost var t1 := k.trace;
      SaveLoadSwStatus(k, false);
      AppendAssoc(t0, t1[|t0|..], Accesses(klass.devFd, SW_STATUS_ATTRS, false));
      r := 0;
    }

    /** The snapshot hook after loading: push the registers, then the
        software status, then tell the kernel the load is complete. */
    method PostLoad(k: Kvm, versionId: int) returns (r: int)
      requires Valid() && numCpu as int <= EXTIOI_CPUS
      modifies this`numCpu, this`features, this`status, k`trace, k`store
      modifies nodetype, ipmap, enable, bounce, isr, coremap, coreisr
      ensures r == 0 && numCpu == old(numCpu) && features == old(features) && status == old(status)
      ensures unchanged(nodetype, ipmap, enable, bounce, isr, coremap, coreisr)
      ensures k.store == ApplyWrites(ApplyWrites(old(k.store), RegsWrites()), SwWrites())
      ensures k.trace == old(k.trace)
                         + Accesses(klass.devFd, Regs(ExtioiRegs, RegsAddrs(numCpu as nat)), true)
                         + Accesses(klass.devFd, SW_STATUS_ATTRS, true)
                         + [Access(klass.devFd, Ctrl(ExtioiLoadFinished), true)]
    {
      ghost var t0 := k.trace;
      SaveLoadRegs(k, true);
      ghost var t1 := k.trace;
      SaveLoadSwStatus(k, true);
      AppendAssoc(t0, t1[|t0|..], Accesses(klass.devFd, SW_STATUS_ATTRS, true));
      k.Signal(klass.devFd, ExtioiLoadFinished);
      r := 0;
    }

    lemma CoreIsrWritesAt(n: nat)
      requires Valid() && n <= EXTIOI_CPUS
      ensures |CoreIsrWrites(n)| == if n == 0 then 0 else 7 + n
      ensures forall i :: 0 <= i < |CoreIsrWrites(n)| ==>
                CoreIsrWrites(n)[i] == if i < 8 then Write(Reg(ExtioiRegs, CoreIsrAddr(0, i)), coreisr[0, i] as u64)
                                       else Write(Reg(ExtioiRegs, CoreIsrAddr(i - 7, 0)), coreisr[i - 7, 0] as u64)
    {
      CoreIsrAddrsAt(n);
      if n > 0 {
        CoreIsrWritesAt(n - 1);
        CoreIsrAddrsAt(n - 1);
      }
    }

    /** After a load pass every transferred shadow word sits in the kernel
        at its own address: nothing later in the same pass overwrites it,
        and the software-status writes that follow touch other attributes. */
    lemma LoadedRegs(s: Store)
      requires Valid() && numCpu as int <= EXTIOI_CPUS
      ensures FlatPulled(ApplyWrites(ApplyWrites(s, RegsWrites()), SwWrites()))
      ensures forall c, j :: 0 <= c < EXTIOI_CPUS && 0 <= j < COREISR_LEN && CoreIsrTransferred(numCpu as nat, c, j) ==>
                coreisr[c, j] == Low32(Peek(ApplyWrites(ApplyWrites(s, RegsWrites()), SwWrites()), Reg(ExtioiRegs, CoreIsrAddr(c, j))))
    {
      var n := numCpu as nat;
      var ws := RegsWrites();
      var t := ApplyWrites(ApplyWrites(s, ws), SwWrites());
      RegsWritesAttrs();
      RegsAddrsDistinct(n);
      DistinctRegs(ExtioiRegs, RegsAddrs(n));
      DistinctWritesHold(s, ws, SwWrites());
      HoldsSplit(t, FlatWrites(), CoreIsrWrites(n));
      var w1, w2, w3 := WindowWrites(NODETYPE, nodetype), WindowWrites(IPMAP, ipmap), WindowWrites(ENABLE, enable);
      var w4, w5, w6 := WindowWrites(BOUNCE, bounce), WindowWrites(ISR, isr), WindowWrites(COREMAP, coremap);
      HoldsSplit(t, w1 + w2 + w3 + w4 + w5, w6);
      HoldsSplit(t, w1 + w2 + w3 + w4, w5);
      HoldsSplit(t, w1 + w2 + w3, w4);
      HoldsSplit(t, w1 + w2, w3);
      HoldsSplit(t, w1, w2);
      HoldsPulled(NODETYPE, nodetype, t);
      HoldsPulled(IPMAP, ipmap, t);
      HoldsPulled(ENABLE, enable, t);
      HoldsPulled(BOUNCE, bounce, t);
      HoldsPulled(ISR, isr, t);
      HoldsPulled(COREMAP, coremap, t);
      HoldsCoreIsr(n, t);
    }

    lemma HoldsCoreIsr(n: nat, t: Store)
      requires Valid() && n <= EXTIOI_CPUS && Holds(t, CoreIsrWrites(n))
      ensures forall c, j :: 0 <= c < EXTIOI_CPUS && 0 <= j < COREISR_LEN && CoreIsrTransferred(n, c, j) ==>
                coreisr[c, j] == Low32(Peek(t, Reg(ExtioiRegs, CoreIsrAddr(c, j))))
    {
      CoreIsrWritesAt(n);
      forall c, j | 0 <= c < EXTIOI_CPUS && 0 <= j < COREISR_LEN && CoreIsrTransferred(n, c, j)
        ensures coreisr[c, j] == Low32(Peek(t, Reg(ExtioiRegs, CoreIsrAddr(c, j))))
      {
        var i := if c == 0 then j else 7 + c;
        assert CoreIsrWrites(n)[i] == Write(Reg(ExtioiRegs, CoreIsrAddr(c, j)), coreisr[c, j] as u64);
      }
    }

    static lemma HoldsPulled(w: Window, a: array<u32>, t: Store)
      requires a.Length == Words(w) && Holds(t, WindowWrites(w, a))
      ensures WindowPulled(w, a[..], t)
    {
      forall j | 0 <= j < a.Length ensures a[j] == Low32(Peek(t, Reg(ExtioiRegs, Addr(w, j)))) {
        assert WindowWrites(w, a)[j] == Write(Reg(ExtioiRegs, Addr(w, j)), a[j] as u64);
      }
    }

    /** After a load pass the software-status fields sit in the kernel. */
    lemma LoadedSwStatus(s: Store)
      ensures SwPulled(ApplyWrites(s, SwWrites()))
    {
      var w := SwWrites();
      ApplyThreeWrites(s, w[0], w[1], w[2]);
    }

    /** Loading a snapshot into the kernel and saving it back gives the same
        shadow: every register word, the core words of cpus below `num_cpu`
        that the pass covers and the words it skips, and the three status fields. */
    method LoadThenSave(k: Kvm)
      requires Valid() && numCpu as int <= EXTIOI_CPUS
      modifies this`numCpu, this`features, this`status, k`trace, k`store
      modifies nodetype, ipmap, enable, bounce, isr, coremap, coreisr
      ensures numCpu == old(numCpu) && features == old(features) && status == old(status)
      ensures nodetype[..] == old(nodetype[..]) && ipmap[..] == old(ipmap[..]) && enable[..] == old(enable[..])
      ensures bounce[..] == old(bounce[..]) && isr[..] == old(isr[..]) && coremap[..] == old(coremap[..])
      ensures forall c, j :: 0 <= c < EXTIOI_CPUS && 0 <= j < COREISR_LEN ==> coreisr[c, j] == old(coreisr[c, j])
    {
      ghost var s := k.store;
      ghost var v1, v2, v3 := nodetype[..], ipmap[..], enable[..];
      ghost var v4, v5, v6 := bounce[..], isr[..], coremap[..];
      LoadedRegs(s);
      LoadedSwStatus(ApplyWrites(s, RegsWrites()));
      var _ := PostLoad(k, 1);
      var _ := PreSave(k);
      PulledUnique(NODETYPE, nodetype[..], v1, k.store);
      PulledUnique(IPMAP, ipmap[..], v2, k.store);
      PulledUnique(ENABLE, enable[..], v3, k.store);
      PulledUnique(BOUNCE, bounce[..], v4, k.store);
      PulledUnique(ISR, isr[..], v5, k.store);
      PulledUnique(COREMAP, coremap[..], v6, k.store);
    }

    /** `kvm_loongarch_extioi_realize`.  `parentErr` is what the parent
        realize reported. */
    method Realize(k: Kvm, parentErr: Option<string>) returns (r: Outcome)
      modifies this`features, klass, k`creates, k`trace, k`store, k`routes
      modifies k`asyncInterruptsAllowed, k`msiViaIrqfdAllowed, k`gsiRoutingAllowed
      // the three checks, in order, before anything is touched
      ensures parentErr.Some? ==> r == Failed(parentErr.value)
      ensures parentErr.None? && numCpu == 0 ==> r == Failed("num-cpu must be at least 1")
      ensures parentErr.None? && numCpu != 0 && old(klass.isCreated) ==> r == Failed("extioi had be created")
      ensures RealizeRefused(parentErr, numCpu, old(klass.isCreated)) ==>
                features == old(features) && unchanged(klass)
                && k.creates == old(k.creates) && k.trace == old(k.trace) && k.store == old(k.store)
      // past the checks: the features are derived and the device is requested
      ensures !RealizeRefused(parentErr, numCpu, old(klass.isCreated)) ==>
                features == AsWord(DeriveFeatures(AsBits(old(features)))) && k.creates == old(k.creates) + [ExtioiDevice]
      ensures !RealizeRefused(parentErr, numCpu, old(klass.isCreated)) && ExtioiDevice !in k.fdFor ==>
                r == Failed("Creating the KVM extioi device failed") && unchanged(klass)
                && k.trace == old(k.trace) && k.store == old(k.store)
      ensures !RealizeRefused(parentErr, numCpu, old(klass.isCreated)) && ExtioiDevice in k.fdFor ==>
                klass.isCreated && klass.devFd == k.fdFor[ExtioiDevice]
      // the configuration pushes: num-cpu, then features; a refusal ends the process
      ensures !RealizeRefused(parentErr, numCpu, old(klass.isCreated)) && ExtioiDevice in k.fdFor
              && ExtioiInitNumCpu in k.refused ==>
                r == Fatal("KVM EXTIOI: failed to set the num-cpu of EXTIOI") && k.store == old(k.store)
                && k.trace == old(k.trace) + [Access(klass.devFd, Ctrl(ExtioiInitNumCpu), true)]
      ensures !RealizeRefused(parentErr, numCpu, old(klass.isCreated)) && ExtioiDevice in k.fdFor
              && ExtioiInitNumCpu !in k.refused && ExtioiInitFeature in k.refused ==>
                r == Fatal("KVM EXTIOI: failed to set the feature of EXTIOI")
                && k.store == old(k.store)[Ctrl(ExtioiInitNumCpu) := numCpu as u64]
                && k.trace == old(k.trace) + [Access(klass.devFd, Ctrl(ExtioiInitNumCpu), true),
                                              Access(klass.devFd, Ctrl(ExtioiInitFeature), true)]
      ensures !RealizeRefused(parentErr, numCpu, old(klass.isCreated)) && ExtioiDevice in k.fdFor
              && ExtioiInitNumCpu !in k.refused && ExtioiInitFeature !in k.refused ==>
                r == Realized
                && k.store == old(k.store)[Ctrl(ExtioiInitNumCpu) := numCpu as u64]
                                          [Ctrl(ExtioiInitFeature) := features as u64]
                && k.trace == old(k.trace) + [Access(klass.devFd, Ctrl(ExtioiInitNumCpu), true),
                                              Access(klass.devFd, Ctrl(ExtioiInitFeature), true)]
      // the accelerator globals, set only by a realize that completes
      ensures r == Realized ==>
                k.asyncInterruptsAllowed && k.msiViaIrqfdAllowed == k.irqfdsEnabled
                && k.routes == old(k.routes) + (if k.hasGsiRouting then IdentityRoutes(64) else [])
                && k.gsiRoutingAllowed == (k.hasGsiRouting || old(k.gsiRoutingAllowed))
      ensures r != Realized ==>
                k.routes == old(k.routes) && k.asyncInterruptsAllowed == old(k.asyncInterruptsAllowed)
                && k.msiViaIrqfdAllowed == old(k.msiViaIrqfdAllowed) && k.gsiRoutingAllowed == old(k.gsiRoutingAllowed)
    {
      if parentErr.Some? {
        return Failed(parentErr.value);
      }
      if numCpu == 0 {
        return Failed("num-cpu must be at least 1");
      }
      if klass.isCreated {
        return Failed("extioi had be created");
      }
      features := AsWord(DeriveFeatures(AsBits(features)));
      var fd := k.CreateDevice(ExtioiDevice);
      if fd.None? {
        return Failed("Creating the KVM extioi device failed");
      }
      klass.isCreated := true;
      klass.devFd := fd.value;
      r := PushInitConfig(k, fd.value, numCpu, features);
      if r.Realized? {
        AllowInterrupts(k);
      }
    }
  }

  /** The two configuration pushes of realize: `num_cpu`, then `features`;
      the kernel refusing either one ends the process. */
  method PushInitConfig(k: Kvm, fd: nat, numCpu: u32, features: u32) returns (r: Outcome)
    modifies k`trace, k`store
    ensures ExtioiInitNumCpu in k.refused ==>
              r == Fatal("KVM EXTIOI: failed to set the num-cpu of EXTIOI") && k.store == old(k.store)
              && k.trace == old(k.trace) + [Access(fd, Ctrl(ExtioiInitNumCpu), true)]
    ensures ExtioiInitNumCpu !in k.refused && ExtioiInitFeature in k.refused ==>
              r == Fatal("KVM EXTIOI: failed to set the feature of EXTIOI")
              && k.store == old(k.store)[Ctrl(ExtioiInitNumCpu) := numCpu as u64]
              && k.trace == old(k.trace) + [Access(fd, Ctrl(ExtioiInitNumCpu), true),
                                            Access(fd, Ctrl(ExtioiInitFeature), true)]
    ensures ExtioiInitNumCpu !in k.refused && ExtioiInitFeature !in k.refused ==>
              r == Realized
              && k.store == old(k.store)[Ctrl(ExtioiInitNumCpu) := numCpu as u64]
                                        [Ctrl(ExtioiInitFeature) := features as u64]
              && k.trace == old(k.trace) + [Access(fd, Ctrl(ExtioiInitNumCpu), true),
                                            Access(fd, Ctrl(ExtioiInitFeature), true)]
  {
    var ok := k.TryControl(fd, ExtioiInitNumCpu, numCpu as u64);
    if !ok {
      return Fatal("KVM EXTIOI: failed to set the num-cpu of EXTIOI");
    }
    ok := k.TryControl(fd, ExtioiInitFeature, features as u64);
    if !ok {
      return Fatal("KVM EXTIOI: failed to set the feature of EXTIOI");
    }
    r := Realized;
  }

  /** The accelerator globals a completed realize sets, with the 64 identity
      routes `gsi i -> pin i` of chip 0 when the kernel supports GSI routing. */
  method AllowInterrupts(k: Kvm)
    modifies k`asyncInterruptsAllowed, k`msiViaIrqfdAllowed, k`gsiRoutingAllowed, k`routes
    ensures k.asyncInterruptsAllowed && k.msiViaIrqfdAllowed == k.irqfdsEnabled
    ensures k.routes == old(k.routes) + (if k.hasGsiRouting then IdentityRoutes(64) else [])
    ensures k.gsiRoutingAllowed == (k.hasGsiRouting || old(k.gsiRoutingAllowed))
  {
    k.asyncInterruptsAllowed := true;
    k.msiViaIrqfdAllowed := k.irqfdsEnabled;
    if k.hasGsiRouting {
      var i := 0;
      while i < 64
        invariant 0 <= i <= 64 && k.routes == old(k.routes) + IdentityRoutes(i)
        invariant k.asyncInterruptsAllowed && k.msiViaIrqfdAllowed == k.irqfdsEnabled
        invariant k.gsiRoutingAllowed == old(k.gsiRoutingAllowed)
      {
        k.AddIrqRoute(i, 0, i);
        i := i + 1;
      }
      k.gsiRoutingAllowed := true;
    }
  }

  /** Whether realize stops at one of its three checks. */
  predicate RealizeRefused(parentErr: Option<string>, numCpu: u32, isCreated: bool) {
    parentErr.Some? || numCpu == 0 || isCreated
  }

  /** The flat part of a register pass, window by window. */
  lemma FlatAccessesSplit(fd: int, w: bool)
    ensures Accesses(fd, Regs(ExtioiRegs, FlatAddrs()), w)
            == Accesses(fd, Regs(ExtioiRegs, WindowAddrs(NODETYPE)), w)
               + Accesses(fd, Regs(ExtioiRegs, WindowAddrs(IPMAP)), w)
               + Accesses(fd, Regs(ExtioiRegs, WindowAddrs(ENABLE)), w)
               + Accesses(fd, Regs(ExtioiRegs, WindowAddrs(BOUNCE)), w)
               + Accesses(fd, Regs(ExtioiRegs, WindowAddrs(ISR)), w)
               + Accesses(fd, Regs(ExtioiRegs, WindowAddrs(COREMAP)), w)
  {
    var a1, a2, a3 := WindowAddrs(NODETYPE), WindowAddrs(IPMAP), WindowAddrs(ENABLE);
    var a4, a5, a6 := WindowAddrs(BOUNCE), WindowAddrs(ISR), WindowAddrs(COREMAP);
    RegsAppend(ExtioiRegs, a1, a2);
    RegsAppend(ExtioiRegs, a1 + a2, a3);
    RegsAppend(ExtioiRegs, a1 + a2 + a3, a4);
    RegsAppend(ExtioiRegs, a1 + a2 + a3 + a4, a5);
    RegsAppend(ExtioiRegs, a1 + a2 + a3 + a4 + a5, a6);
    var r1, r2, r3 := Regs(ExtioiRegs, a1), Regs(ExtioiRegs, a2), Regs(ExtioiRegs, a3);
    var r4, r5, r6 := Regs(ExtioiRegs, a4), Regs(ExtioiRegs, a5), Regs(ExtioiRegs, a6);
    AccessesAppend(fd, r1, r2, w);
    AccessesAppend(fd, r1 + r2, r3, w);
    AccessesAppend(fd, r1 + r2 + r3, r4, w);
    AccessesAppend(fd, r1 + r2 + r3 + r4, r5, w);
    AccessesAppend(fd, r1 + r2 + r3 + r4 + r5, r6, w);
  }
}
