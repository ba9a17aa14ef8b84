/**
 * The destructive memory test `dmtest` of `memoryFit.c`: walking ones
 * through every 32-bit word, 16-bit halfword and byte of a buffer, then a
 * 0xaa fill, an in-place `|= 0x55` and a check for 0xff.
 *
 * The memory under test is an array of byte cells whose hardware may hold
 * some bits stuck at 0 or at 1: a store keeps the stuck bits whatever was
 * written, and a load returns what the cell holds.
 */
module MemoryFit {
  import opened FitTypes

  /** Memory with per-cell stuck-at faults. */
  class Memory {
    const cells: array<bv8>
    /** The bits of each cell stuck at 0 and stuck at 1. */
    const stuck0: seq<bv8>
    const stuck1: seq<bv8>

    ghost predicate Valid()
    {
      |stuck0| == cells.Length && |stuck1| == cells.Length && cells.Length < 0x1_0000_0000
    }

    constructor(size: nat, stuck0: seq<bv8>, stuck1: seq<bv8>)
      requires |stuck0| == size && |stuck1| == size && size < 0x1_0000_0000
      ensures Valid() && fresh(cells) && cells.Length == size
      ensures this.stuck0 == stuck0 && this.stuck1 == stuck1
    {
      cells := new bv8[size](_ => 0);
      this.stuck0 := stuck0;
      this.stuck1 := stuck1;
    }

    /** What cell `a` holds after `v` is stored into it. */
    function Stored(a: nat, v: bv8): (r: bv8)
      requires Valid() && a < cells.Length
      ensures stuck0[a] == 0 && stuck1[a] == 0 ==> r == v
    {
      (v & !stuck0[a]) | stuck1[a]
    }

    /** A store of `v` into cell `a`; no other cell changes. */
    method Store(a: nat, v: bv8)
      requires Valid() && a < cells.Length
      modifies cells
      ensures cells[..] == old(cells[..])[a := Stored(a, v)]
    {
      cells[a] := Stored(a, v);
    }
  }

  /** Memory without stuck bits. */
  predicate Healthy(m: Memory)
    requires m.Valid()
  {
    forall a :: 0 <= a < m.cells.Length ==> m.stuck0[a] == 0 && m.stuck1[a] == 0
  }

  /** Byte `k` in memory of the `n`-byte value `1 << b`. */
  function Pattern(order: ByteOrder, n: nat, b: nat, k: nat): bv8
    requires b < 8 * n && k < n
  {
    var significance := b / 8;
    var position := if order == LittleEndian then significance else n - 1 - significance;
    if k == position then (1 as bv8) << (b % 8) else 0
  }

  /** Whether the `n`-byte access at address `a` reads back `1 << b` after writing it. */
  predicate AccessHolds(m: Memory, order: ByteOrder, n: nat, a: nat, b: nat)
    requires m.Valid() && a + n <= m.cells.Length && b < 8 * n
  {
    forall k :: 0 <= k < n ==> m.Stored(a + k, Pattern(order, n, b, k)) == Pattern(order, n, b, k)
  }

  /**
   * The walking-ones pass over `count` accesses of `n` bytes, from access
   * `w` and bit `b` on: the first bit whose pattern does not read back.
   */
  function FirstFaultFrom(m: Memory, order: ByteOrder, n: nat, count: nat, w: nat, b: nat): (r: Option<nat>)
    requires m.Valid() && n * count <= m.cells.Length && n >= 1 && w <= count && b <= 8 * n
    ensures r.Some? ==> r.value < 8 * n
    decreases count - w, 8 * n - b
  {
    if w == count then None
    else if b == 8 * n then FirstFaultFrom(m, order, n, count, w + 1, 0)
    else
      MulStep(n, w, count);
      if !AccessHolds(m, order, n, n * w, b) then Some(b) else FirstFaultFrom(m, order, n, count, w, b + 1)
  }

  lemma MulStep(n: nat, w: nat, count: nat)
    requires w < count
    ensures n * w + n <= n * count
  {
    MulMono(n, w + 1, count);
    assert n * (w + 1) == n * w + n;
  }

  lemma {:induction false} MulMono(n: nat, x: nat, y: nat)
    requires x <= y
    ensures n * x <= n * y
    decreases y - x
  {
    if x < y {
      MulMono(n, x, y - 1);
      assert n * y == n * (y - 1) + n;
    }
  }

  /** One access of the walking-ones pass: write `1 << b` as `n` bytes at address `a`, read it back. */
  method Access(m: Memory, order: ByteOrder, n: nat, a: nat, b: nat) returns (ok: bool)
    requires m.Valid() && a + n <= m.cells.Length && b < 8 * n
    modifies m.cells
    ensures ok <==> AccessHolds(m, order, n, a, b)
    ensures forall j :: 0 <= j < m.cells.Length && !(a <= j < a + n) ==> m.cells[j] == old(m.cells[j])
  {
    var k := 0;
    while k < n
      invariant 0 <= k <= n
      invariant forall j :: 0 <= j < k ==> m.cells[a + j] == m.Stored(a + j, Pattern(order, n, b, j))
      invariant forall j :: 0 <= j < m.cells.Length && !(a <= j < a + n) ==> m.cells[j] == old(m.cells[j])
    {
      m.Store(a + k, Pattern(order, n, b, k));
      k := k + 1;
    }
    ok := true;
    k := 0;
    while k < n
      invariant 0 <= k <= n
      invariant ok <==> forall j :: 0 <= j < k ==> m.cells[a + j] == Pattern(order, n, b, j)
    {
      if m.cells[a + k] != Pattern(order, n, b, k) {
        ok := false;
      }
      k := k + 1;
    }
  }

  /** The walking-ones pass over `count` accesses of `n` bytes from the start of the buffer. */
  method WalkingOnes(m: Memory, order: ByteOrder, n: nat, count: nat) returns (fault: Option<nat>)
    requires m.Valid() && n >= 1 && n * count <= m.cells.Length
    modifies m.cells
    ensures fault == FirstFaultFrom(m, order, n, count, 0, 0)
    ensures forall j :: n * count <= j < m.cells.Length ==> m.cells[j] == old(m.cells[j])
  {
    var w := 0;
    while w < count
      invariant w <= count
      invariant FirstFaultFrom(m, order, n, count, w, 0) == FirstFaultFrom(m, order, n, count, 0, 0)
      invariant forall j :: n * count <= j < m.cells.Length ==> m.cells[j] == old(m.cells[j])
    {
      MulStep(n, w, count);
      var b := 0;
      while b < 8 * n
        invariant b <= 8 * n
        invariant FirstFaultFrom(m, order, n, count, w, b) == FirstFaultFrom(m, order, n, count, 0, 0)
        invariant forall j :: n * count <= j < m.cells.Length ==> m.cells[j] == old(m.cells[j])
      {
        var ok := Access(m, order, n, n * w, b);
        if !ok {
          return Some(b);
        }
        b := b + 1;
      }
      w := w + 1;
    }
    return None;
  }

  /** What cell `a` holds after the 0xaa fill and the `|= 0x55` pass. */
  function Filled(m: Memory, a: nat): bv8
    requires m.Valid() && a < m.cells.Length
  {
    m.Stored(a, m.Stored(a, 0xaa) | 0x55)
  }

  /** The first cell from `a` below `sz` that does not end up 0xff. */
  function FirstFillFault(m: Memory, a: nat, sz: nat): (r: Option<nat>)
    requires m.Valid() && a <= sz <= m.cells.Length
    ensures r.Some? ==> a <= r.value < sz && Filled(m, r.value) != 0xff
    ensures r.Some? ==> forall j :: a <= j < r.value ==> Filled(m, j) == 0xff
    ensures r.None? ==> forall j :: a <= j < sz ==> Filled(m, j) == 0xff
    decreases sz - a
  {
    if a == sz then None
    else if Filled(m, a) != 0xff then Some(a)
    else FirstFillFault(m, a + 1, sz)
  }

  /** The 0xaa fill, the `|= 0x55` pass and the check for 0xff over the first `sz` cells. */
  method FillCheck(m: Memory, sz: nat) returns (bad: Option<nat>)
    requires m.Valid() && sz <= m.cells.Length
    modifies m.cells
    ensures bad == FirstFillFault(m, 0, sz)
    ensures forall j :: 0 <= j < sz ==> m.cells[j] == Filled(m, j)
    ensures forall j :: sz <= j < m.cells.Length ==> m.cells[j] == old(m.cells[j])
  {
    var a := 0;
    while a < sz
      invariant a <= sz
      invariant forall j :: 0 <= j < a ==> m.cells[j] == m.Stored(j, 0xaa)
      invariant forall j :: a <= j < m.cells.Length ==> m.cells[j] == old(m.cells[j])
    {
      m.Store(a, 0xaa);
      a := a + 1;
    }
    a := 0;
    while a < sz
      invariant a <= sz
      invariant forall j :: 0 <= j < a ==> m.cells[j] == Filled(m, j)
      invariant forall j :: a <= j < sz ==> m.cells[j] == m.Stored(j, 0xaa)
      invariant forall j :: sz <= j < m.cells.Length ==> m.cells[j] == old(m.cells[j])
    {
      m.Store(a, m.cells[a] | 0x55);
      a := a + 1;
    }
    a := 0;
    while a < sz
      invariant a <= sz
      invariant FirstFillFault(m, a, sz) == FirstFillFault(m, 0, sz)
    {
      if m.cells[a] != 0xff {
        return Some(a);
      }
      a := a + 1;
    }
    return None;
  }

  /** The walking pattern `1 << b` as the `u_int32` `dmtest` returns. */
  function Bit(b: nat): (r: bv32)
    requires b < 32
    ensures r != 0 && r & (r - 1) == 0
  {
    (1 as bv32) << b
  }

  /** `(u_int32)cp` for the cell `a` of a buffer at address `base`. */
  function Address(base: bv32, a: nat): bv32
  {
    ((base as int + a) % 0x1_0000_0000) as bv32
  }

  lemma DivFloor(sz: nat, n: nat)
    requires n > 0
    ensures n * (sz / n) <= sz
  {
  }

  /** Whether every pass of `dmtest` finds the memory as written. */
  predicate Passes(m: Memory, order: ByteOrder, sz: nat)
    requires m.Valid() && sz <= m.cells.Length
  {
    && FirstFaultFrom(m, order, 4, sz / 4, 0, 0).None?
    && FirstFaultFrom(m, order, 2, sz / 2, 0, 0).None?
    && FirstFaultFrom(m, order, 1, sz, 0, 0).None?
    && FirstFillFault(m, 0, sz).None?
  }

  /** What `dmtest` returns: the failing walking pattern, else the address of the first cell not 0xff, else 0. */
  function DmtestResult(m: Memory, order: ByteOrder, sz: nat, base: bv32): bv32
    requires m.Valid() && sz <= m.cells.Length
  {
    var words := FirstFaultFrom(m, order, 4, sz / 4, 0, 0);
    var halves := FirstFaultFrom(m, order, 2, sz / 2, 0, 0);
    var bytes := FirstFaultFrom(m, order, 1, sz, 0, 0);
    var fill := FirstFillFault(m, 0, sz);
    if words.Some? then Bit(words.value)
    else if halves.Some? then Bit(halves.value)
    else if bytes.Some? then Bit(bytes.value)
    else if fill.Some? then Address(base, fill.value)
    else 0
  }

  /**
   * `dmtest(vp, sz)` over the buffer at address `base`: it touches only the
   * first `sz` cells and, when every pass succeeds, leaves every one of
   * them 0xff.
   */
  method Dmtest(m: Memory, order: ByteOrder, sz: nat, base: bv32) returns (ret: bv32)
    requires m.Valid() && sz <= m.cells.Length
    modifies m.cells
    ensures ret == DmtestResult(m, order, sz, base)
    ensures forall j :: sz <= j < m.cells.Length ==> m.cells[j] == old(m.cells[j])
    ensures Passes(m, order, sz) ==> forall j :: 0 <= j < sz ==> m.cells[j] == 0xff
  {
    DivFloor(sz, 4);
    DivFloor(sz, 2);
    var fault := WalkingOnes(m, order, 4, sz / 4);
    if fault.Some? {
      return Bit(fault.value);
    }
    fault := WalkingOnes(m, order, 2, sz / 2);
    if fault.Some? {
      return Bit(fault.value);
    }
    fault := WalkingOnes(m, order, 1, sz);
    if fault.Some? {
      return Bit(fault.value);
    }
    var bad := FillCheck(m, sz);
    if bad.Some? {
      return Address(base, bad.value);
    }
    return 0;
  }

  // ---------------------------------------------------------------------
  // What the test detects
  // ---------------------------------------------------------------------

  /** Healthy memory reads back every walking pattern. */
  lemma {:induction false} HealthyNoFault(m: Memory, order: ByteOrder, n: nat, count: nat, w: nat, b: nat)
    requires m.Valid() && Healthy(m) && n * count <= m.cells.Length && n >= 1 && w <= count && b <= 8 * n
    ensures FirstFaultFrom(m, order, n, count, w, b).None?
    decreases count - w, 8 * n - b
  {
    if w < count {
      if b == 8 * n {
        HealthyNoFault(m, order, n, count, w + 1, 0);
      } else {
        MulStep(n, w, count);
        HealthyNoFault(m, order, n, count, w, b + 1);
      }
    }
  }

  /** A cell without stuck bits, filled with 0xaa and then OR-ed with 0x55, holds 0xff. */
  lemma HealthyFill(m: Memory, a: nat)
    requires m.Valid() && Healthy(m) && a < m.cells.Length
    ensures Filled(m, a) == 0xff
  {
    assert m.Stored(a, 0xaa) == 0xaa;
  }

  /** Over healthy memory every pass succeeds and `dmtest` returns 0. */
  lemma HealthyPasses(m: Memory, order: ByteOrder, sz: nat, base: bv32)
    requires m.Valid() && Healthy(m) && sz <= m.cells.Length
    ensures Passes(m, order, sz) && DmtestResult(m, order, sz, base) == 0
  {
    DivFloor(sz, 4);
    DivFloor(sz, 2);
    HealthyNoFault(m, order, 4, sz / 4, 0, 0);
    HealthyNoFault(m, order, 2, sz / 2, 0, 0);
    HealthyNoFault(m, order, 1, sz, 0, 0);
    assert forall a :: 0 <= a < sz ==> Filled(m, a) == 0xff by {
      forall a | 0 <= a < sz ensures Filled(m, a) == 0xff {
        HealthyFill(m, a);
      }
    }
  }

  /** An access that does not read back its pattern, at or after (`w`, `b`), is found by the walking pass. */
  lemma {:induction false} FaultFound(m: Memory, order: ByteOrder, n: nat, count: nat, w: nat, b: nat, w1: nat, b1: nat)
    requires m.Valid() && n * count <= m.cells.Length && n >= 1 && w <= count && b <= 8 * n
    requires w <= w1 < count && b1 < 8 * n && (w1 == w ==> b <= b1)
    requires n * w1 + n <= m.cells.Length && !AccessHolds(m, order, n, n * w1, b1)
    ensures FirstFaultFrom(m, order, n, count, w, b).Some?
    decreases count - w, 8 * n - b
  {
    if b == 8 * n {
      FaultFound(m, order, n, count, w + 1, 0, w1, b1);
    } else {
      MulStep(n, w, count);
      if AccessHolds(m, order, n, n * w, b) {
        FaultFound(m, order, n, count, w, b + 1, w1, b1);
      }
    }
  }

  /** The lowest set bit of a non-zero cell mask. */
  function LowestBit(x: bv8): (i: nat)
    ensures i < 8
  {
    if x & 1 != 0 then 0 else if x & 2 != 0 then 1 else if x & 4 != 0 then 2 else if x & 8 != 0 then 3
    else if x & 16 != 0 then 4 else if x & 32 != 0 then 5 else if x & 64 != 0 then 6 else 7
  }

  /** A walking pattern that a cell with these stuck bits does not read back. */
  function FailingBit(s0: bv8, s1: bv8): (i: nat)
    ensures i < 8
  {
    if s1 != 0 then (LowestBit(s1) + 1) % 8 else LowestBit(s0)
  }

  lemma FailingBitFails(s0: bv8, s1: bv8)
    requires s0 != 0 || s1 != 0
    ensures ((((1 as bv8) << FailingBit(s0, s1)) & !s0) | s1) != (1 as bv8) << FailingBit(s0, s1)
  {
  }

  /** A byte access writes its pattern as it is, in either byte order. */
  lemma BytePattern(order: ByteOrder, c: nat)
    requires c < 8
    ensures Pattern(order, 1, c, 0) == (1 as bv8) << c
  {
  }

  /** A cell with a stuck bit fails the byte access of its failing bit. */
  lemma StuckCellFails(m: Memory, order: ByteOrder, a: nat)
    requires m.Valid() && a < m.cells.Length
    requires m.stuck0[a] != 0 || m.stuck1[a] != 0
    ensures !AccessHolds(m, order, 1, a, FailingBit(m.stuck0[a], m.stuck1[a]))
  {
    var c := FailingBit(m.stuck0[a], m.stuck1[a]);
    FailingBitFails(m.stuck0[a], m.stuck1[a]);
    BytePattern(order, c);
    assert m.Stored(a + 0, Pattern(order, 1, c, 0)) != Pattern(order, 1, c, 0);
  }

  /** Every stuck bit within the first `sz` cells makes some pass of `dmtest` fail. */
  lemma StuckBitDetected(m: Memory, order: ByteOrder, sz: nat, a: nat)
    requires m.Valid() && sz <= m.cells.Length && a < sz
    requires m.stuck0[a] != 0 || m.stuck1[a] != 0
    ensures !Passes(m, order, sz)
  {
    StuckCellFails(m, order, a);
    FaultFound(m, order, 1, sz, 0, 0, a, FailingBit(m.stuck0[a], m.stuck1[a]));
  }

  lemma AddressNonzero(base: bv32, a: nat)
    requires base != 0 && base as int + a < 0x1_0000_0000
    ensures Address(base, a) != 0
  {
    PositiveWord(base);
    var x := base as int + a;
    assert x % 0x1_0000_0000 == x;
    NonzeroWord(x);
  }

  lemma PositiveWord(x: bv32)
    requires x != 0
    ensures x as int > 0
  {
  }

  lemma NonzeroWord(x: nat)
    requires 0 < x < 0x1_0000_0000
    ensures x as bv32 != 0
  {
  }

  /**
   * For a buffer that does not start at address 0 and does not wrap the
   * 32-bit address space, `dmtest` returns 0 exactly when every pass succeeds.
   */
  lemma ZeroMeansPasses(m: Memory, order: ByteOrder, sz: nat, base: bv32)
    requires m.Valid() && sz <= m.cells.Length && base != 0 && base as int + sz <= 0x1_0000_0000
    ensures DmtestResult(m, order, sz, base) == 0 <==> Passes(m, order, sz)
  {
    var fill := FirstFillFault(m, 0, sz);
    if fill.Some? {
      AddressNonzero(base, fill.value);
    }
  }
}
