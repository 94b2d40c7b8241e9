/** The accelerated IPI device: the per-core register transfer between its
    shadow and the kernel, its realization and its unrealization. */
module Ipi {
  import opened Kvm

  /** Words in a core's mailbox buffer (four 64-bit mailboxes, of which the
      model transfers the low word only: each mailbox access is a 32-bit copy). */
  const BUF_LEN := 8

  /** The per-core register offsets `CORE_STATUS_OFF`, `CORE_EN_OFF`,
      `CORE_SET_OFF`, `CORE_CLEAR_OFF`, `CORE_BUF_20`, `CORE_BUF_28`,
      `CORE_BUF_30`, `CORE_BUF_38`.  Their values come from a header this
      model does not include, so they are parameters. */
  datatype IpiOffsets = IpiOffsets(status: nat, en: nat, setReg: nat, clear: nat,
                                   buf20: nat, buf28: nat, buf30: nat, buf38: nat)
  {
    /** The eight offsets in pass order. */
    function All(): seq<nat> {
      [status, en, setReg, clear, buf20, buf28, buf30, buf38]
    }

    /** Each offset fits the low 16 bits of an attribute. */
    predicate Below() {
      status < 0x10000 && en < 0x10000 && setReg < 0x10000 && clear < 0x10000
      && buf20 < 0x10000 && buf28 < 0x10000 && buf30 < 0x10000 && buf38 < 0x10000
    }

    ghost predicate DistinctOffsets() {
      Distinct(All())
    }
  }

  /** A core's mailbox buffer. */
  type Buf = b: seq<u32> | |b| == BUF_LEN witness [0, 0, 0, 0, 0, 0, 0, 0]

  /** The transferred part of a core's IPI state. */
  datatype IpiCore = IpiCore(status: u32, en: u32, setReg: u32, clear: u32, buf: Buf)

  /** The buffer words the mailbox accesses touch, in pass order. */
  const MAILBOX_WORDS: seq<nat> := [0, 2, 4, 6]

  /** The eight addresses of the per-core turn for core `c`. */
  function CoreAddrs(c: nat, o: IpiOffsets): (r: seq<int>)
    requires o.Below()
    ensures |r| == 8 && forall k :: 0 <= k < 8 ==> r[k] == Compose(c, o.All()[k])
  {
    [Compose(c, o.status), Compose(c, o.en), Compose(c, o.setReg), Compose(c, o.clear),
     Compose(c, o.buf20), Compose(c, o.buf28), Compose(c, o.buf30), Compose(c, o.buf38)]
  }

  /** Each address of core `c`'s turn splits back into the core and the
      register: the bits above the low 16 are `c`, the low 16 bits the offset. */
  lemma CoreAddrsDecode(c: nat, o: IpiOffsets)
    requires o.Below()
    ensures forall k :: 0 <= k < 8 ==>
              CoreAddrs(c, o)[k] / 0x10000 == c && CoreAddrs(c, o)[k] % 0x10000 == o.All()[k]
  {
    forall k | 0 <= k < 8
      ensures CoreAddrs(c, o)[k] / 0x10000 == c && CoreAddrs(c, o)[k] % 0x10000 == o.All()[k]
    {
      ComposeDecode(c, o.All()[k]);
    }
  }

  /** Every address of a pass over cores `0 .. n - 1`, in order. */
  function IpiAddrs(n: nat, o: IpiOffsets): seq<int>
    requires o.Below()
  {
    if n == 0 then [] else IpiAddrs(n - 1, o) + CoreAddrs(n - 1, o)
  }

  /** A pass issues 8 accesses per core, core after core: turn `c` is
      positions `8 * c` to `8 * c + 7`. */
  lemma {:induction false} IpiAddrsAt(n: nat, o: IpiOffsets)
    requires o.Below()
    ensures |IpiAddrs(n, o)| == 8 * n
    ensures forall c :: 0 <= c < n ==> IpiAddrs(n, o)[8 * c..8 * c + 8] == CoreAddrs(c, o)
  {
    if n > 0 {
      IpiAddrsAt(n - 1, o);
      var p, q := IpiAddrs(n - 1, o), CoreAddrs(n - 1, o);
      forall c | 0 <= c < n ensures (p + q)[8 * c..8 * c + 8] == CoreAddrs(c, o) {
        if c < n - 1 {
          assert (p + q)[8 * c..8 * c + 8] == p[8 * c..8 * c + 8];
        } else {
          assert (p + q)[8 * c..8 * c + 8] == q;
        }
      }
    }
  }

  /** Every address of a pass over `n` cores lies below core `n`'s addresses. */
  lemma {:induction false} IpiAddrsBelow(n: nat, o: IpiOffsets)
    requires o.Below()
    ensures forall i :: 0 <= i < |IpiAddrs(n, o)| ==> 0 <= IpiAddrs(n, o)[i] < n * 0x10000
  {
    if n > 0 {
      IpiAddrsBelow(n - 1, o);
      var p, q := IpiAddrs(n - 1, o), CoreAddrs(n - 1, o);
      forall i | 0 <= i < |p + q| ensures 0 <= (p + q)[i] < n * 0x10000 {
        if i >= |p| {
          assert (p + q)[i] == q[i - |p|];
        }
      }
    }
  }

  /** A core's register is addressed by the pass exactly when the core's index is below `n`. */
  lemma IpiAddrsCoverage(n: nat, o: IpiOffsets, c: nat, k: nat)
    requires o.Below() && k < 8
    ensures Compose(c, o.All()[k]) in IpiAddrs(n, o) <==> c < n
  {
    IpiAddrsAt(n, o);
    IpiAddrsBelow(n, o);
    var p := IpiAddrs(n, o);
    if c < n {
      assert p[8 * c..8 * c + 8][k] == CoreAddrs(c, o)[k];
      assert p[8 * c + k] == Compose(c, o.All()[k]);
    } else {
      assert n * 0x10000 <= Compose(c, o.All()[k]);
    }
  }

  /** With distinct offsets no address repeats within a pass. */
  lemma {:induction false} IpiAddrsDistinct(n: nat, o: IpiOffsets)
    requires o.Below() && o.DistinctOffsets()
    ensures Distinct(IpiAddrs(n, o))
  {
    if n > 0 {
      IpiAddrsDistinct(n - 1, o);
      IpiAddrsBelow(n - 1, o);
      var p, q := IpiAddrs(n - 1, o), CoreAddrs(n - 1, o);
      forall i, j | 0 <= i < j < |p + q| ensures (p + q)[i] != (p + q)[j] {
        if j < |p| {
          assert (p + q)[i] == p[i] && (p + q)[j] == p[j];
        } else if i < |p| {
          assert (p + q)[j] == q[j - |p|];
        } else {
          var ki, kj := i - |p|, j - |p|;
          assert (p + q)[i] == q[ki] && (p + q)[j] == q[kj];
          assert o.All()[ki] != o.All()[kj];
        }
      }
    }
  }

  /** The eight words a core contributes to a pass, in pass order. */
  function CoreValues(core: IpiCore): (r: seq<u32>)
    ensures |r| == 8 && r[..4] == [core.status, core.en, core.setReg, core.clear]
    ensures forall m :: 0 <= m < 4 ==> r[4 + m] == core.buf[MAILBOX_WORDS[m]]
  {
    [core.status, core.en, core.setReg, core.clear, core.buf[0], core.buf[2], core.buf[4], core.buf[6]]
  }

  /** Two cores contribute the same eight words exactly when they agree on
      the control registers and on buffer words 0, 2, 4 and 6: with 32-bit
      mailbox copies the odd buffer words never reach the kernel. */
  lemma CoreValuesDetermine(a: IpiCore, b: IpiCore)
    ensures CoreValues(a) == CoreValues(b) <==>
              && a.status == b.status && a.en == b.en && a.setReg == b.setReg && a.clear == b.clear
              && forall m :: 0 <= m < 4 ==> a.buf[MAILBOX_WORDS[m]] == b.buf[MAILBOX_WORDS[m]]
  {
    var va, vb := CoreValues(a), CoreValues(b);
    if va == vb {
      assert va[..4] == vb[..4];
      forall m | 0 <= m < 4 ensures a.buf[MAILBOX_WORDS[m]] == b.buf[MAILBOX_WORDS[m]] {
        assert va[4 + m] == vb[4 + m];
      }
    }
    if && a.status == b.status && a.en == b.en && a.setReg == b.setReg && a.clear == b.clear
       && forall m :: 0 <= m < 4 ==> a.buf[MAILBOX_WORDS[m]] == b.buf[MAILBOX_WORDS[m]]
    {
      assert MAILBOX_WORDS[0] == 0 && MAILBOX_WORDS[1] == 2 && MAILBOX_WORDS[2] == 4 && MAILBOX_WORDS[3] == 6;
      assert va == vb;
    }
  }

  function CoreWrites(core: IpiCore, c: nat, o: IpiOffsets): seq<Write>
    requires o.Below()
  {
    Zip(Regs(IpiRegs, CoreAddrs(c, o)), Widen32(CoreValues(core)))
  }

  /** The writes a load pass over `cores` issues, in order. */
  function IpiWrites(cores: seq<IpiCore>, o: IpiOffsets): seq<Write>
    requires o.Below()
  {
    if cores == [] then []
    else IpiWrites(cores[..|cores| - 1], o) + CoreWrites(cores[|cores| - 1], |cores| - 1, o)
  }

  lemma {:induction false} IpiWritesAttrs(cores: seq<IpiCore>, o: IpiOffsets)
    requires o.Below()
    ensures Attrs(IpiWrites(cores, o)) == Regs(IpiRegs, IpiAddrs(|cores|, o))
  {
    if cores != [] {
      var n := |cores| - 1;
      IpiWritesAttrs(cores[..n], o);
      AttrsAppend(IpiWrites(cores[..n], o), CoreWrites(cores[n], n, o));
      RegsAppend(IpiRegs, IpiAddrs(n, o), CoreAddrs(n, o));
    }
  }

  /** What a save turn for core `c` leaves in that core: the four control
      registers and mailbox words 0, 2, 4 and 6 from the kernel, the other
      buffer words as they were. */
  function PullCore(core: IpiCore, s: Store, c: nat, o: IpiOffsets): IpiCore
    requires o.Below()
  {
    IpiCore(Low32(Peek(s, Reg(IpiRegs, Compose(c, o.status)))),
            Low32(Peek(s, Reg(IpiRegs, Compose(c, o.en)))),
            Low32(Peek(s, Reg(IpiRegs, Compose(c, o.setReg)))),
            Low32(Peek(s, Reg(IpiRegs, Compose(c, o.clear)))),
            core.buf[0 := Low32(Peek(s, Reg(IpiRegs, Compose(c, o.buf20))))]
                    [2 := Low32(Peek(s, Reg(IpiRegs, Compose(c, o.buf28))))]
                    [4 := Low32(Peek(s, Reg(IpiRegs, Compose(c, o.buf30))))]
                    [6 := Low32(Peek(s, Reg(IpiRegs, Compose(c, o.buf38))))])
  }

  /** With 32-bit mailbox copies the accesses reach buffer words 0, 2, 4 and 6 only: the odd
      buffer words of the pulled core are the old ones, and
      mailbox `m` lands in word `2 * m` from offset `All()[4 + m]`. */
  lemma PullCoreMailboxes(core: IpiCore, s: Store, c: nat, o: IpiOffsets)
    requires o.Below()
    ensures forall j :: 0 <= j < BUF_LEN && j % 2 == 1 ==> PullCore(core, s, c, o).buf[j] == core.buf[j]
    ensures forall m :: 0 <= m < 4 ==>
              PullCore(core, s, c, o).buf[MAILBOX_WORDS[m]] == Low32(Peek(s, Reg(IpiRegs, Compose(c, o.All()[4 + m]))))
  {
  }

  /** With distinct offsets the eight registers of a core are distinct. */
  lemma CoreAddrsDistinct(c: nat, o: IpiOffsets)
    requires o.Below() && o.DistinctOffsets()
    ensures Distinct(CoreAddrs(c, o))
  {
    var p := CoreAddrs(c, o);
    forall i, j | 0 <= i < j < 8 ensures p[i] != p[j] {
      assert o.All()[i] != o.All()[j];
      ComposeInjective(c, o.All()[i], c, o.All()[j]);
    }
  }

  /** A store holding a core's eight writes gives the core back. */
  lemma HoldsPulled(core: IpiCore, t: Store, c: nat, o: IpiOffsets)
    requires o.Below() && Holds(t, CoreWrites(core, c, o))
    ensures PullCore(core, t, c, o) == core
  {
    var ws, v := CoreWrites(core, c, o), CoreValues(core);
    forall k | 0 <= k < 8 ensures Low32(Peek(t, ws[k].attr)) == v[k] {
      assert ws[k].value as int == v[k] as int;
    }
    var a := CoreAddrs(c, o);
    assert ws[0].attr == Reg(IpiRegs, a[0]) && ws[1].attr == Reg(IpiRegs, a[1]);
    assert ws[2].attr == Reg(IpiRegs, a[2]) && ws[3].attr == Reg(IpiRegs, a[3]);
    assert ws[4].attr == Reg(IpiRegs, a[4]) && ws[5].attr == Reg(IpiRegs, a[5]);
    assert ws[6].attr == Reg(IpiRegs, a[6]) && ws[7].attr == Reg(IpiRegs, a[7]);
    var p := PullCore(core, t, c, o);
    assert p.buf == core.buf;
  }

  /** Pulling a core back from a store that has just received its eight
      writes gives the core, when the offsets are distinct. */
  lemma PullWritten(core: IpiCore, s: Store, c: nat, o: IpiOffsets)
    requires o.Below() && o.DistinctOffsets()
    ensures PullCore(core, ApplyWrites(s, CoreWrites(core, c, o)), c, o) == core
  {
    var ws := CoreWrites(core, c, o);
    CoreAddrsDistinct(c, o);
    DistinctRegs(IpiRegs, CoreAddrs(c, o));
    DistinctWritesHold(s, ws, []);
    assert ApplyWrites(ApplyWrites(s, ws), []) == ApplyWrites(s, ws);
    HoldsPulled(core, ApplyWrites(s, ws), c, o);
  }

  /** Writes to another core's registers leave what is pulled for core `c` unchanged. */
  lemma PullElsewhere(core: IpiCore, s: Store, ws: seq<Write>, c: nat, o: IpiOffsets)
    requires o.Below()
    requires forall i, k :: 0 <= i < |ws| && 0 <= k < 8 ==> ws[i].attr != Reg(IpiRegs, Compose(c, o.All()[k]))
    ensures PullCore(core, ApplyWrites(s, ws), c, o) == PullCore(core, s, c, o)
  {
    forall k | 0 <= k < 8
      ensures Peek(ApplyWrites(s, ws), Reg(IpiRegs, Compose(c, o.All()[k]))) == Peek(s, Reg(IpiRegs, Compose(c, o.All()[k])))
    {
      ApplyWritesElsewhere(s, ws, Reg(IpiRegs, Compose(c, o.All()[k])));
    }
    assert o.All()[0] == o.status && o.All()[1] == o.en && o.All()[2] == o.setReg && o.All()[3] == o.clear;
    assert o.All()[4] == o.buf20 && o.All()[5] == o.buf28 && o.All()[6] == o.buf30 && o.All()[7] == o.buf38;
  }

  /** A core's writes miss every register of another core. */
  lemma OtherCoreWrites(core: IpiCore, n: nat, c: nat, o: IpiOffsets)
    requires o.Below() && c != n
    ensures forall i, k :: 0 <= i < |CoreWrites(core, n, o)| && 0 <= k < 8 ==>
              CoreWrites(core, n, o)[i].attr != Reg(IpiRegs, Compose(c, o.All()[k]))
  {
    var ws := CoreWrites(core, n, o);
    forall i, k | 0 <= i < |ws| && 0 <= k < 8 ensures ws[i].attr != Reg(IpiRegs, Compose(c, o.All()[k])) {
      ComposeInjective(n, o.All()[i], c, o.All()[k]);
    }
  }

  /** After a load pass over cores with distinct offsets, pulling every core
      back gives the cores that were pushed. */
  lemma {:induction false} LoadedCores(cores: seq<IpiCore>, s: Store, o: IpiOffsets)
    requires o.Below() && o.DistinctOffsets()
    ensures forall c :: 0 <= c < |cores| ==> PullCore(cores[c], ApplyWrites(s, IpiWrites(cores, o)), c, o) == cores[c]
  {
    if cores != [] {
      var n := |cores| - 1;
      var init := cores[..n];
      LoadedCores(init, s, o);
      var s1 := ApplyWrites(s, IpiWrites(init, o));
      var last := CoreWrites(cores[n], n, o);
      ApplyWritesAppend(s, IpiWrites(init, o), last);
      PullWritten(cores[n], s1, n, o);
      forall c | 0 <= c < n
        ensures PullCore(cores[c], ApplyWrites(s1, last), c, o) == cores[c]
      {
        assert init[c] == cores[c];
        OtherCoreWrites(cores[n], n, c, o);
        PullElsewhere(cores[c], s1, last, c, o);
      }
    }
  }

  /** The cores after a save pass: each pulled from the store. */
  function PullAll(cores: seq<IpiCore>, s: Store, o: IpiOffsets): (r: seq<IpiCore>)
    requires o.Below()
  {
    seq(|cores|, c requires 0 <= c < |cores| => PullCore(cores[c], s, c, o))
  }

  /** An accelerated IPI instance: its cores and its own device handle.  The
      parent realize is a parameter of `Realize`; the parent unrealize is
      counted. */
  class KvmLoongarchIpi {
    const offsets: IpiOffsets
    const numCpu: nat
    const cpu: array<IpiCore>
    var devFd: int
    /** Number of parent unrealize calls. */
    var parentUnrealized: nat

    ghost predicate Valid() {
      && offsets.Below() && cpu.Length == numCpu && numCpu <= 0x8000
    }

    constructor (offsets: IpiOffsets, numCpu: nat)
      requires offsets.Below() && numCpu <= 0x8000
      ensures Valid() && this.offsets == offsets && this.numCpu == numCpu && fresh(cpu)
      ensures devFd == 0 && parentUnrealized == 0
      ensures forall c :: 0 <= c < numCpu ==> cpu[c] == IpiCore(0, 0, 0, 0, seq(BUF_LEN, _ => 0))
    {
      this.offsets, this.numCpu := offsets, numCpu;
      cpu := new IpiCore[numCpu](_ => IpiCore(0, 0, 0, 0, seq(BUF_LEN, _ => 0)));
      devFd, parentUnrealized := 0, 0;
    }

    /** One access of a per-core turn: the field passed by pointer holds
        `val` and is `r` afterwards. */
    static method Exchange(k: Kvm, fd: int, addr: int, val: u32, isWrite: bool) returns (r: u32)
      modifies k`trace, k`store
      ensures k.trace == old(k.trace) + [Access(fd, Reg(IpiRegs, addr), isWrite)]
      ensures isWrite ==> r == val && k.store == old(k.store)[Reg(IpiRegs, addr) := val as u64]
      ensures !isWrite ==> k.store == old(k.store) && r == Low32(Peek(k.store, Reg(IpiRegs, addr)))
    {
      var v := k.DeviceAccess(fd, Reg(IpiRegs, addr), val as u64, isWrite);
      r := Low32(v);
    }

    /** One turn of the `cpu_id` loop: eight accesses for core `c`. */
    method TransferCore(k: Kvm, fd: int, c: nat, isWrite: bool)
      requires Valid() && c < numCpu
      modifies k`trace, k`store, cpu
      ensures k.trace == old(k.trace) + Accesses(fd, Regs(IpiRegs, CoreAddrs(c, offsets)), isWrite)
      ensures isWrite ==> unchanged(cpu) && k.store == ApplyWrites(old(k.store), CoreWrites(cpu[c], c, offsets))
      ensures !isWrite ==> k.store == old(k.store) && cpu[c] == PullCore(old(cpu[c]), k.store, c, offsets)
      ensures !isWrite ==> forall i :: 0 <= i < cpu.Length && i != c ==> cpu[i] == old(cpu[i])
    {
      ghost var t0, s0 := k.trace, k.store;
      var core := cpu[c];
      ghost var ws := CoreWrites(core, c, offsets);
      ghost var a := Regs(IpiRegs, CoreAddrs(c, offsets));
      var status, en, setReg, clear := TransferControl(k, fd, c, offsets, core, isWrite);
      ghost var s1 := k.store;
      var b0, b2, b4, b6 := TransferMailboxes(k, fd, c, offsets, core, isWrite);
      assert a == a[..4] + a[4..];
      AccessesAppend(fd, a[..4], a[4..], isWrite);
      AppendAssoc(t0, Accesses(fd, a[..4], isWrite), Accesses(fd, a[4..], isWrite));
      if isWrite {
        assert ws == ws[..4] + ws[4..];
        ApplyWritesAppend(s0, ws[..4], ws[4..]);
      } else {
        // the eight fields are distinct, so assigning them together is
        // assigning each through its pointer
        cpu[c] := IpiCore(status, en, setReg, clear, core.buf[0 := b0][2 := b2][4 := b4][6 := b6]);
      }
    }

    /** The status, enable, set and clear accesses of a turn. */
    static method TransferControl(k: Kvm, fd: int, c: nat, o: IpiOffsets, core: IpiCore, isWrite: bool)
      returns (status: u32, en: u32, setReg: u32, clear: u32)
      requires o.Below()
      modifies k`trace, k`store
      ensures k.trace == old(k.trace) + Accesses(fd, Regs(IpiRegs, CoreAddrs(c, o))[..4], isWrite)
      ensures isWrite ==> k.store == ApplyWrites(old(k.store), CoreWrites(core, c, o)[..4])
      ensures !isWrite ==> k.store == old(k.store)
      ensures !isWrite ==> status == Low32(Peek(k.store, Reg(IpiRegs, Compose(c, o.status))))
                           && en == Low32(Peek(k.store, Reg(IpiRegs, Compose(c, o.en))))
                           && setReg == Low32(Peek(k.store, Reg(IpiRegs, Compose(c, o.setReg))))
                           && clear == Low32(Peek(k.store, Reg(IpiRegs, Compose(c, o.clear))))
    {
      ghost var ws := CoreWrites(core, c, o)[..4];
      ghost var s0 := k.store;
      status := Exchange(k, fd, Compose(c, o.status), core.status, isWrite);
      en := Exchange(k, fd, Compose(c, o.en), core.en, isWrite);
      setReg := Exchange(k, fd, Compose(c, o.setReg), core.setReg, isWrite);
      clear := Exchange(k, fd, Compose(c, o.clear), core.clear, isWrite);
      if isWrite {
        ApplyFourWrites(s0, ws);
      }
    }

    /** The four mailbox accesses of a turn, into buffer words 0, 2, 4 and 6. */
    static method TransferMailboxes(k: Kvm, fd: int, c: nat, o: IpiOffsets, core: IpiCore, isWrite: bool)
      returns (b0: u32, b2: u32, b4: u32, b6: u32)
      requires o.Below()
      modifies k`trace, k`store
      ensures k.trace == old(k.trace) + Accesses(fd, Regs(IpiRegs, CoreAddrs(c, o))[4..], isWrite)
      ensures isWrite ==> k.store == ApplyWrites(old(k.store), CoreWrites(core, c, o)[4..])
      ensures !isWrite ==> k.store == old(k.store)
      ensures !isWrite ==> b0 == Low32(Peek(k.store, Reg(IpiRegs, Compose(c, o.buf20))))
                           && b2 == Low32(Peek(k.store, Reg(IpiRegs, Compose(c, o.buf28))))
                           && b4 == Low32(Peek(k.store, Reg(IpiRegs, Compose(c, o.buf30))))
                           && b6 == Low32(Peek(k.store, Reg(IpiRegs, Compose(c, o.buf38))))
    {
      ghost var ws := CoreWrites(core, c, o)[4..];
      ghost var s0 := k.store;
      b0 := Exchange(k, fd, Compose(c, o.buf20), core.buf[0], isWrite);
      b2 := Exchange(k, fd, Compose(c, o.buf28), core.buf[2], isWrite);
      b4 := Exchange(k, fd, Compose(c, o.buf30), core.buf[4], isWrite);
      b6 := Exchange(k, fd, Compose(c, o.buf38), core.buf[6], isWrite);
      if isWrite {
        ApplyFourWrites(s0, ws);
      }
    }

    /** `kvm_loongarch_ipi_save_load_regs`. */
    method SaveLoadRegs(k: Kvm, isWrite: bool)
      requires Valid()
      modifies k`trace, k`store, cpu
      ensures k.trace == old(k.trace) + Accesses(devFd, Regs(IpiRegs, IpiAddrs(numCpu, offsets)), isWrite)
      ensures isWrite ==> cpu[..] == old(cpu[..]) && k.store == ApplyWrites(old(k.store), IpiWrites(old(cpu[..]), offsets))
      ensures !isWrite ==> k.store == old(k.store) && cpu[..] == PullAll(old(cpu[..]), k.store, offsets)
    {
      var fd := devFd;
      ghost var t0, s0, cores := k.trace, k.store, cpu[..];
      var cpuId := 0;
      while cpuId < numCpu
        invariant 0 <= cpuId <= numCpu
        invariant k.trace == t0 + Accesses(fd, Regs(IpiRegs, IpiAddrs(cpuId, offsets)), isWrite)
        invariant isWrite ==> cpu[..] == cores && k.store == ApplyWrites(s0, IpiWrites(cores[..cpuId], offsets))
        invariant !isWrite ==> k.store == s0 && cpu[..] == PullAll(cores[..cpuId], s0, offsets) + cores[cpuId..]
      {
        Turn(k, fd, cpuId, isWrite, t0, s0, cores);
        cpuId := cpuId + 1;
      }
      if isWrite {
        assert cores[..numCpu] == cores == cpu[..];
      } else {
        assert cores[..numCpu] == cores;
        assert cores[numCpu..] == [];
      }
    }

    /** One turn of the `cpu_id` loop, stated as the step it makes in the pass. */
    method Turn(k: Kvm, fd: int, cpuId: nat, isWrite: bool, ghost t0: seq<Access>, ghost s0: Store, ghost cores: seq<IpiCore>)
      requires Valid() && cpuId < numCpu && |cores| == numCpu
      requires k.trace == t0 + Accesses(fd, Regs(IpiRegs, IpiAddrs(cpuId, offsets)), isWrite)
      requires isWrite ==> cpu[..] == cores && k.store == ApplyWrites(s0, IpiWrites(cores[..cpuId], offsets))
      requires !isWrite ==> k.store == s0 && cpu[..] == PullAll(cores[..cpuId], s0, offsets) + cores[cpuId..]
      modifies k`trace, k`store, cpu
      ensures k.trace == t0 + Accesses(fd, Regs(IpiRegs, IpiAddrs(cpuId + 1, offsets)), isWrite)
      ensures isWrite ==> cpu[..] == cores && k.store == ApplyWrites(s0, IpiWrites(cores[..cpuId + 1], offsets))
      ensures !isWrite ==> k.store == s0 && cpu[..] == PullAll(cores[..cpuId + 1], s0, offsets) + cores[cpuId + 1..]
    {
      ghost var before := cpu[..];
      TransferCore(k, fd, cpuId, isWrite);
      PassStep(fd, offsets, isWrite, cores, cpuId);
      AppendAssoc(t0, Accesses(fd, Regs(IpiRegs, IpiAddrs(cpuId, offsets)), isWrite),
                  Accesses(fd, Regs(IpiRegs, CoreAddrs(cpuId, offsets)), isWrite));
      if isWrite {
        assert cpu[..] == before;
        ApplyWritesAppend(s0, IpiWrites(cores[..cpuId], offsets), CoreWrites(cores[cpuId], cpuId, offsets));
      } else {
        assert before[cpuId] == cores[cpuId];
        assert cpu[..] == before[cpuId := PullCore(cores[cpuId], s0, cpuId, offsets)];
        PullAllStep(cores, s0, offsets, cpuId);
      }
    }

    /** The snapshot hook before saving. */
    method PreSave(k: Kvm)
      requires Valid()
      modifies k`trace, k`store, cpu
      ensures k.trace == old(k.trace) + Accesses(devFd, Regs(IpiRegs, IpiAddrs(numCpu, offsets)), false)
      ensures k.store == old(k.store) && cpu[..] == PullAll(old(cpu[..]), k.store, offsets)
    {
      SaveLoadRegs(k, false);
    }

    /** The snapshot hook after loading. */
    method PostLoad(k: Kvm, versionId: int)
      requires Valid()
      modifies k`trace, k`store, cpu
      ensures k.trace == old(k.trace) + Accesses(devFd, Regs(IpiRegs, IpiAddrs(numCpu, offsets)), true)
      ensures cpu[..] == old(cpu[..]) && k.store == ApplyWrites(old(k.store), IpiWrites(old(cpu[..]), offsets))
    {
      SaveLoadRegs(k, true);
    }

    /** Loading a snapshot into the kernel and saving it back restores every
        core's control registers and mailbox buffer. */
    method LoadThenSave(k: Kvm)
      requires Valid() && offsets.DistinctOffsets()
      modifies k`trace, k`store, cpu
      ensures cpu[..] == old(cpu[..])
    {
      ghost var cores := cpu[..];
      LoadedCores(cores, k.store, offsets);
      ghost var s0 := k.store;
      PostLoad(k, 1);
      assert k.store == ApplyWrites(s0, IpiWrites(cores, offsets));
      PreSave(k);
      assert forall c :: 0 <= c < |cores| ==> PullAll(cores, k.store, offsets)[c] == cores[c];
      assert cpu[..] == cores;
    }

    /** `kvm_loongarch_ipi_realize`.  `parentErr` is what the parent realize
        reported.  There is no already-created guard: every call past the
        parent creates a device. */
    method Realize(k: Kvm, parentErr: Option<string>) returns (r: Outcome)
      modifies this`devFd, k`creates
      ensures parentErr.Some? ==> r == Failed(parentErr.value) && devFd == old(devFd) && k.creates == old(k.creates)
      ensures parentErr.None? ==> k.creates == old(k.creates) + [IpiDevice]
      ensures parentErr.None? && IpiDevice !in k.fdFor ==>
                r == Failed("Creating the KVM device failed") && devFd == old(devFd)
      ensures parentErr.None? && IpiDevice in k.fdFor ==> r == Realized && devFd == k.fdFor[IpiDevice]
    {
      if parentErr.Some? {
        return Failed(parentErr.value);
      }
      var fd := k.CreateDevice(IpiDevice);
      if fd.None? {
        return Failed("Creating the KVM device failed");
      }
      devFd := fd.value;
      r := Realized;
    }

    /** `kvm_loongarch_ipi_unrealize`: only the parent unrealize runs. */
    method Unrealize()
      modifies this`parentUnrealized
      ensures parentUnrealized == old(parentUnrealized) + 1
    {
      parentUnrealized := parentUnrealized + 1;
    }
  }

  /** Pulling one more core: the pulled prefix grows by that core and the untouched suffix shrinks. */
  lemma PullAllStep(cores: seq<IpiCore>, s: Store, o: IpiOffsets, i: nat)
    requires o.Below() && i < |cores|
    ensures (PullAll(cores[..i], s, o) + cores[i..])[i := PullCore(cores[i], s, i, o)]
            == PullAll(cores[..i + 1], s, o) + cores[i + 1..]
  {
    var lhs := (PullAll(cores[..i], s, o) + cores[i..])[i := PullCore(cores[i], s, i, o)];
    var rhs := PullAll(cores[..i + 1], s, o) + cores[i + 1..];
    assert |lhs| == |rhs|;
    forall j | 0 <= j < |lhs| ensures lhs[j] == rhs[j] {
      if j < i {
        assert lhs[j] == PullAll(cores[..i], s, o)[j] == PullCore(cores[j], s, j, o);
      } else if j > i {
        assert lhs[j] == cores[j];
      }
    }
  }

  /** One more turn of the pass: its accesses and its writes follow the earlier turns'. */
  lemma PassStep(fd: int, o: IpiOffsets, w: bool, cores: seq<IpiCore>, i: nat)
    requires o.Below() && i < |cores|
    ensures Accesses(fd, Regs(IpiRegs, IpiAddrs(i + 1, o)), w)
            == Accesses(fd, Regs(IpiRegs, IpiAddrs(i, o)), w) + Accesses(fd, Regs(IpiRegs, CoreAddrs(i, o)), w)
    ensures IpiWrites(cores[..i + 1], o) == IpiWrites(cores[..i], o) + CoreWrites(cores[i], i, o)
  {
    RegsAppend(IpiRegs, IpiAddrs(i, o), CoreAddrs(i, o));
    AccessesAppend(fd, Regs(IpiRegs, IpiAddrs(i, o)), Regs(IpiRegs, CoreAddrs(i, o)), w);
    assert cores[..i + 1][..i] == cores[..i];
  }

  lemma ApplyFourWrites(s: Store, ws: seq<Write>)
    requires |ws| == 4
    ensures ApplyWrites(s, ws) == s[ws[0].attr := ws[0].value][ws[1].attr := ws[1].value]
                                   [ws[2].attr := ws[2].value][ws[3].attr := ws[3].value]
  {
    ApplyThreeWrites(s, ws[0], ws[1], ws[2]);
    assert ws[..3] == [ws[0], ws[1], ws[2]];
    ApplyWritesStep(s, ws, 3);
    assert ws[..4] == ws;
  }
}
