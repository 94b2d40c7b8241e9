/** The host kernel as the three accelerated interrupt controllers see it.

    Every kernel-side device exposes attribute groups; a user-space shim reads
    or writes one attribute at a time.  The kernel is modelled as an abstract
    attribute store (a map from attribute to its 64-bit value) together with a
    trace of every attribute access issued, a log of device-creation requests,
    the GSI routes installed and the interrupt levels injected.  What the kernel
    answers to a creation request or to a configuration push is fixed when the
    object is built: those answers stand for code this model cannot see. */
module Kvm {

  newtype u8 = x: int | 0 <= x < 0x100
  newtype u32 = x: int | 0 <= x < 0x1_0000_0000
  newtype u64 = x: int | 0 <= x < 0x1_0000_0000_0000_0000

  datatype Option<T> = None | Some(value: T)

  /** How a realize call ends: normally, with an error returned to the caller,
      or with a failure the source answers by ending the process. */
  datatype Outcome = Realized | Failed(msg: string) | Fatal(msg: string)

  /** The low bytes of an attribute value: what lands in a field of that width. */
  function Low8(v: u64): u8 { (v as int % 0x100) as u8 }
  function Low32(v: u64): u32 { (v as int % 0x1_0000_0000) as u32 }

  /** `(cpu << 16) | off` for an offset that fits in the low 16 bits. */
  function Compose(cpu: nat, off: nat): nat
    requires off < 0x10000
  {
    cpu * 0x10000 + off
  }

  /** A composite attribute splits back into its parts: the bits above the
      low 16 are the cpu, the low 16 bits are the offset. */
  lemma ComposeDecode(cpu: nat, off: nat)
    requires off < 0x10000
    ensures Compose(cpu, off) / 0x10000 == cpu && Compose(cpu, off) % 0x10000 == off
  {
  }

  lemma ComposeInjective(c1: nat, o1: nat, c2: nat, o2: nat)
    requires o1 < 0x10000 && o2 < 0x10000
    ensures Compose(c1, o1) == Compose(c2, o2) <==> c1 == c2 && o1 == o2
  {
    if c1 < c2 {
      assert Compose(c1, o1) < (c1 + 1) * 0x10000 <= Compose(c2, o2);
    } else if c2 < c1 {
      assert Compose(c2, o2) < (c2 + 1) * 0x10000 <= Compose(c1, o1);
    }
  }

  /** The register groups addressed by a byte offset. */
  datatype RegGroup = ExtioiRegs | PchPicRegs | IpiRegs

  /** Items of the EXTIOI software-status group. */
  datatype SwStatus = SwNumCpu | SwFeature | SwState

  /** Items of the control groups. */
  datatype Control = ExtioiInitNumCpu | ExtioiInitFeature | ExtioiLoadFinished | PchPicInit

  /** One kernel attribute: a group together with its address in the group. */
  datatype Attr = Reg(group: RegGroup, addr: int) | Sw(item: SwStatus) | Ctrl(op: Control)

  /** One attribute access as issued: device handle, attribute, direction. */
  datatype Access = Access(fd: int, attr: Attr, write: bool)

  /** One write of a pass, with the value it carries. */
  datatype Write = Write(attr: Attr, value: u64)

  datatype DeviceType = ExtioiDevice | PchPicDevice | IpiDevice

  /** A GSI route: global interrupt `gsi` delivered to pin `pin` of chip `irqchip`. */
  datatype Route = Route(gsi: nat, irqchip: nat, pin: nat)

  /** One call of the level-set primitive. */
  datatype IrqLevel = IrqLevel(irq: bv32, level: int)

  type Store = map<Attr, u64>

  /** The value of an attribute; one the kernel never received reads as zero. */
  function Peek(s: Store, a: Attr): u64 {
    if a in s then s[a] else 0
  }

  /** The store after a sequence of writes, applied in order. */
  function ApplyWrites(s: Store, ws: seq<Write>): Store
    decreases |ws|
  {
    if ws == [] then s
    else ApplyWrites(s, ws[..|ws| - 1])[ws[|ws| - 1].attr := ws[|ws| - 1].value]
  }

  function Attrs(ws: seq<Write>): (r: seq<Attr>)
    ensures |r| == |ws| && forall i :: 0 <= i < |ws| ==> r[i] == ws[i].attr
  {
    seq(|ws|, i requires 0 <= i < |ws| => ws[i].attr)
  }

  /** The register attributes of a group at the given addresses. */
  function Regs(g: RegGroup, addrs: seq<int>): (r: seq<Attr>)
    ensures |r| == |addrs| && forall i :: 0 <= i < |addrs| ==> r[i] == Reg(g, addrs[i])
  {
    seq(|addrs|, i requires 0 <= i < |addrs| => Reg(g, addrs[i]))
  }

  /** The writes that push `values` to `attrs`, position by position. */
  function Zip(attrs: seq<Attr>, values: seq<u64>): (r: seq<Write>)
    requires |attrs| == |values|
    ensures |r| == |attrs| && Attrs(r) == attrs
    ensures forall i :: 0 <= i < |r| ==> r[i] == Write(attrs[i], values[i])
  {
    seq(|attrs|, i requires 0 <= i < |attrs| => Write(attrs[i], values[i]))
  }

  /** The accesses one pass over `attrs` issues in the given direction. */
  function Accesses(fd: int, attrs: seq<Attr>, write: bool): (r: seq<Access>)
    ensures |r| == |attrs| && forall i :: 0 <= i < |attrs| ==> r[i] == Access(fd, attrs[i], write)
  {
    seq(|attrs|, i requires 0 <= i < |attrs| => Access(fd, attrs[i], write))
  }

  ghost predicate Distinct<T>(s: seq<T>) {
    forall i, j :: 0 <= i < j < |s| ==> s[i] != s[j]
  }

  function Widen8(s: seq<u8>): (r: seq<u64>)
    ensures |r| == |s| && forall i :: 0 <= i < |s| ==> r[i] as int == s[i] as int
  {
    seq(|s|, i requires 0 <= i < |s| => s[i] as u64)
  }

  function Widen32(s: seq<u32>): (r: seq<u64>)
    ensures |r| == |s| && forall i :: 0 <= i < |s| ==> r[i] as int == s[i] as int
  {
    seq(|s|, i requires 0 <= i < |s| => s[i] as u64)
  }

  lemma AppendAssoc<T>(a: seq<T>, b: seq<T>, c: seq<T>)
    ensures a + b + c == a + (b + c)
  {
  }

  lemma AccessesAppend(fd: int, a: seq<Attr>, b: seq<Attr>, write: bool)
    ensures Accesses(fd, a + b, write) == Accesses(fd, a, write) + Accesses(fd, b, write)
  {
  }

  lemma AttrsAppend(a: seq<Write>, b: seq<Write>)
    ensures Attrs(a + b) == Attrs(a) + Attrs(b)
  {
  }

  lemma RegsAppend(g: RegGroup, a: seq<int>, b: seq<int>)
    ensures Regs(g, a + b) == Regs(g, a) + Regs(g, b)
  {
  }

  /** Distinct addresses in one group give distinct attributes. */
  lemma DistinctRegs(g: RegGroup, addrs: seq<int>)
    requires Distinct(addrs)
    ensures Distinct(Regs(g, addrs))
  {
  }

  /** Applying two batches of writes one after the other is applying their concatenation. */
  lemma {:induction false} ApplyWritesAppend(s: Store, a: seq<Write>, b: seq<Write>)
    ensures ApplyWrites(s, a + b) == ApplyWrites(ApplyWrites(s, a), b)
    decreases |b|
  {
    if b == [] {
      assert a + b == a;
    } else {
      var b' := b[..|b| - 1];
      assert (a + b)[..|a + b| - 1] == a + b';
      ApplyWritesAppend(s, a, b');
    }
  }

  /** One more write of a batch, applied on top of the ones before it. */
  lemma ApplyWritesStep(s: Store, ws: seq<Write>, i: nat)
    requires i < |ws|
    ensures ApplyWrites(s, ws[..i + 1]) == ApplyWrites(s, ws[..i])[ws[i].attr := ws[i].value]
  {
    assert ws[..i + 1][..i] == ws[..i];
  }

  lemma ApplyThreeWrites(s: Store, w0: Write, w1: Write, w2: Write)
    ensures ApplyWrites(s, [w0, w1, w2]) == s[w0.attr := w0.value][w1.attr := w1.value][w2.attr := w2.value]
  {
    assert ApplyWrites(s, [w0]) == s[w0.attr := w0.value] by {
      assert [w0][..0] == [];
    }
    assert ApplyWrites(s, [w0, w1]) == ApplyWrites(s, [w0])[w1.attr := w1.value] by {
      assert [w0, w1][..1] == [w0];
    }
    assert ApplyWrites(s, [w0, w1, w2]) == ApplyWrites(s, [w0, w1])[w2.attr := w2.value] by {
      assert [w0, w1, w2][..2] == [w0, w1];
    }
  }

  /** Whether store `t` holds the value of every write of `ws`. */
  ghost predicate Holds(t: Store, ws: seq<Write>) {
    forall i :: 0 <= i < |ws| ==> Peek(t, ws[i].attr) == ws[i].value
  }

  lemma HoldsSplit(t: Store, a: seq<Write>, b: seq<Write>)
    requires Holds(t, a + b)
    ensures Holds(t, a) && Holds(t, b)
  {
    forall i | 0 <= i < |a| ensures Peek(t, a[i].attr) == a[i].value {
      assert a[i] == (a + b)[i];
    }
    forall i | 0 <= i < |b| ensures Peek(t, b[i].attr) == b[i].value {
      assert b[i] == (a + b)[|a| + i];
    }
  }

  /** An attribute no write of the batch addresses keeps its value. */
  lemma {:induction false} ApplyWritesElsewhere(s: Store, ws: seq<Write>, a: Attr)
    requires forall i :: 0 <= i < |ws| ==> ws[i].attr != a
    ensures Peek(ApplyWrites(s, ws), a) == Peek(s, a)
    decreases |ws|
  {
    if ws != [] {
      ApplyWritesElsewhere(s, ws[..|ws| - 1], a);
    }
  }

  /** Against a last-write-wins store, a write no later write overrides is what the attribute holds. */
  lemma {:induction false} LastWriteWins(s: Store, ws: seq<Write>, i: nat)
    requires i < |ws|
    requires forall j :: i < j < |ws| ==> ws[j].attr != ws[i].attr
    ensures Peek(ApplyWrites(s, ws), ws[i].attr) == ws[i].value
    decreases |ws|
  {
    if i < |ws| - 1 {
      LastWriteWins(s, ws[..|ws| - 1], i);
    }
  }

  /** A batch with distinct attributes, followed by writes elsewhere, leaves
      every one of its values in the store. */
  lemma DistinctWritesHold(s: Store, ws: seq<Write>, later: seq<Write>)
    requires Distinct(Attrs(ws))
    requires forall i, j :: 0 <= i < |ws| && 0 <= j < |later| ==> later[j].attr != ws[i].attr
    ensures Holds(ApplyWrites(ApplyWrites(s, ws), later), ws)
  {
    forall i | 0 <= i < |ws| ensures Peek(ApplyWrites(ApplyWrites(s, ws), later), ws[i].attr) == ws[i].value {
      DistinctWritesSurvive(s, ws, i);
      ApplyWritesElsewhere(ApplyWrites(s, ws), later, ws[i].attr);
    }
  }

  /** With distinct attributes, every write of a batch survives it. */
  lemma DistinctWritesSurvive(s: Store, ws: seq<Write>, i: nat)
    requires i < |ws| && Distinct(Attrs(ws))
    ensures Peek(ApplyWrites(s, ws), ws[i].attr) == ws[i].value
  {
    forall j | i < j < |ws| ensures ws[j].attr != ws[i].attr {
      assert Attrs(ws)[i] != Attrs(ws)[j];
    }
    LastWriteWins(s, ws, i);
  }

  /** The kernel with its accelerator globals (`kvm_state` and the flags beside it). */
  class Kvm {
    /** Attribute values held by the kernel-side devices. */
    var store: Store
    /** Every attribute access issued, in order. */
    var trace: seq<Access>
    /** Every device-creation request issued, in order. */
    var creates: seq<DeviceType>
    /** The GSI routes added, in order. */
    var routes: seq<Route>
    /** Every call of the level-set primitive, in order. */
    var irqLevels: seq<IrqLevel>
    var asyncInterruptsAllowed: bool
    var msiViaIrqfdAllowed: bool
    var gsiRoutingAllowed: bool

    /** The handle the kernel answers a creation request with; a type absent here fails. */
    const fdFor: map<DeviceType, nat>
    /** The control attributes whose push the kernel answers with an error. */
    const refused: set<Control>
    const hasGsiRouting: bool
    const irqfdsEnabled: bool
    /** Whether hardware acceleration is active (`kvm_enabled()`). */
    const enabled: bool

    constructor (fdFor: map<DeviceType, nat>, refused: set<Control>,
                 hasGsiRouting: bool, irqfdsEnabled: bool, enabled: bool)
      ensures this.fdFor == fdFor && this.refused == refused
      ensures this.hasGsiRouting == hasGsiRouting && this.irqfdsEnabled == irqfdsEnabled
      ensures this.enabled == enabled
      ensures store == map[] && trace == [] && creates == [] && routes == [] && irqLevels == []
      ensures !asyncInterruptsAllowed && !msiViaIrqfdAllowed && !gsiRoutingAllowed
    {
      this.fdFor, this.refused := fdFor, refused;
      this.hasGsiRouting, this.irqfdsEnabled, this.enabled := hasGsiRouting, irqfdsEnabled, enabled;
      store, trace, creates, routes, irqLevels := map[], [], [], [], [];
      asyncInterruptsAllowed, msiViaIrqfdAllowed, gsiRoutingAllowed := false, false, false;
    }

    /** `kvm_device_access` on a field passed by pointer: a write stores the
        field's value, a read returns the attribute's; `out` is the field's value
        afterwards. */
    method DeviceAccess(fd: int, a: Attr, val: u64, isWrite: bool) returns (out: u64)
      modifies `trace, `store
      ensures trace == old(trace) + [Access(fd, a, isWrite)]
      ensures isWrite ==> store == old(store)[a := val] && out == val
      ensures !isWrite ==> store == old(store) && out == Peek(store, a)
    {
      trace := trace + [Access(fd, a, isWrite)];
      if isWrite {
        store := store[a := val];
        out := val;
      } else {
        out := Peek(store, a);
      }
    }

    /** A configuration push whose return code the caller checks. */
    method TryControl(fd: int, c: Control, val: u64) returns (ok: bool)
      modifies `trace, `store
      ensures ok == (c !in refused)
      ensures trace == old(trace) + [Access(fd, Ctrl(c), true)]
      ensures store == if ok then old(store)[Ctrl(c) := val] else old(store)
    {
      trace := trace + [Access(fd, Ctrl(c), true)];
      ok := c !in refused;
      if ok {
        store := store[Ctrl(c) := val];
      }
    }

    /** A control write without a payload. */
    method Signal(fd: int, c: Control)
      modifies `trace
      ensures trace == old(trace) + [Access(fd, Ctrl(c), true)]
    {
      trace := trace + [Access(fd, Ctrl(c), true)];
    }

    /** `KVM_CREATE_DEVICE`: a handle, or a failure. */
    method CreateDevice(t: DeviceType) returns (fd: Option<nat>)
      modifies `creates
      ensures creates == old(creates) + [t]
      ensures fd == if t in fdFor then Some(fdFor[t]) else None
    {
      creates := creates + [t];
      fd := if t in fdFor then Some(fdFor[t]) else None;
    }

    /** `kvm_irqchip_add_irq_route`. */
    method AddIrqRoute(gsi: nat, irqchip: nat, pin: nat)
      modifies `routes
      ensures routes == old(routes) + [Route(gsi, irqchip, pin)]
    {
      routes := routes + [Route(gsi, irqchip, pin)];
    }

    /** `kvm_set_irq`. */
    method SetIrq(irq: bv32, level: int)
      modifies `irqLevels
      ensures irqLevels == old(irqLevels) + [IrqLevel(irq, level)]
    {
      irqLevels := irqLevels + [IrqLevel(irq, level)];
    }
  }
}
