/** Over-aligned storage for handlers: a larger block is taken from the byte allocator, the pointer is rounded up inside
    it, and the distance moved is stored just past the object so that the block can be given back.
 */
module AlignedBlock {

  import opened Bytes

  const OFFSET_BYTES: nat := 8

  /** How far `address` is below the next multiple of `align`. */
  function Shift(address: nat, align: nat): (shift: nat)
    requires align > 0
    ensures shift < align
  {
    if address % align == 0 then 0 else align - address % align
  }

  /** Moving up by that much gives the least multiple of `align` that is not below `address`. */
  lemma ShiftAligns(address: nat, align: nat)
    requires align > 0
    ensures var p := address + Shift(address, align);
            p % align == 0 && forall q: nat :: address <= q && q % align == 0 ==> p <= q
  {
    var quotient, rest := address / align, address % align;
    assert address == align * quotient + rest;
    var p := address + Shift(address, align);
    var top := if rest == 0 then quotient else quotient + 1;
    assert p == align * top;
    MultipleMod(align, top);
    forall q: nat | address <= q && q % align == 0 ensures p <= q {
      assert q == align * (q / align);
      if q / align < top {
        MultipleOrder(align, q / align, top - 1);
      } else {
        MultipleOrder(align, top, q / align);
      }
    }
  }

  lemma MultipleMod(align: nat, k: nat)
    requires align > 0
    ensures (align * k) % align == 0
  {
    var quotient, rest := (align * k) / align, (align * k) % align;
    assert align * k == align * quotient + rest;
    if quotient < k {
      MultipleOrder(align, quotient + 1, k);
    } else if k < quotient {
      MultipleOrder(align, k + 1, quotient);
    }
  }

  lemma MultipleOrder(align: nat, j: nat, k: nat)
    requires j <= k
    ensures align * j <= align * k
  {
  }

  // ---------------------------------------------------------------- memory as a value

  type Bytemap = map<nat, Byte>

  /** Room for the object wherever the rounding puts it, and for the stored distance. */
  function BlockLength(size: nat, align: nat): nat
    requires align > 0
  {
    size + align - 1 + OFFSET_BYTES
  }

  /** A block as the byte allocator knows it. */
  datatype Block = Block(base: nat, length: nat)

  /** A live object: what was asked for, the base of its block, and how far its pointer is from it. */
  datatype Object = Object(size: nat, align: nat, base: nat, shift: nat) {
    predicate Sane() {
      base > 0 && shift < align <= MAX_ALIGN
    }

    function Pointer(): nat {
      base + shift
    }

    function End(): nat {
      base + size + align + OFFSET_BYTES - 1
    }
  }

  /** Bytes by address, the lengths of the blocks handed out by their bases, and the live objects by their pointers. */
  datatype Heap = Heap(bytes: Bytemap, blocks: map<nat, nat>, live: map<nat, Object>)

  function Written(bytes: Bytemap, address: nat, data: seq<Byte>): Bytemap {
    if data == [] then bytes
    else Written(bytes, address, data[..|data| - 1])[address + |data| - 1 := data[|data| - 1]]
  }

  /** The eight bytes at `address`; what was never written reads as zero. */
  function ReadAt(bytes: Bytemap, address: nat): (read: seq<Byte>)
    ensures |read| == OFFSET_BYTES
  {
    seq(OFFSET_BYTES, i requires 0 <= i < OFFSET_BYTES => if address + i in bytes then bytes[address + i] else 0)
  }

  /** The distance stored behind an object. */
  function StoredShift(bytes: Bytemap, address: nat): nat {
    FromLittle(ReadAt(bytes, address))
  }

  /** The object that an allocation makes. */
  function Made(size: nat, align: nat, base: nat): Object
    requires align > 0
  {
    Object(size, align, base, Shift(base, align))
  }

  function Allocated(h: Heap, o: Object): Heap
    requires o.align > 0
  {
    Heap(Written(h.bytes, o.Pointer() + o.size, Little(o.shift, OFFSET_BYTES)), h.blocks[o.base := BlockLength(o.size, o.align)],
         h.live[o.Pointer() := o])
  }

  /** The owner of an object writes one of its bytes. */
  function Used(h: Heap, p: nat, offset: nat, b: Byte): Heap {
    h.(bytes := h.bytes[p + offset := b])
  }

  function Freed(h: Heap, p: nat): Heap
    requires p in h.live
  {
    h.(blocks := h.blocks - {h.live[p].base}, live := h.live - {p})
  }

  // ---------------------------------------------------------------- what holds of every live object

  /** Its block is live with the length it was taken with, and the distance is still stored behind the object. */
  ghost predicate Intact(h: Heap, p: nat, o: Object) {
    && o.Sane() && p == o.Pointer()
    && o.base in h.blocks && h.blocks[o.base] == BlockLength(o.size, o.align)
    && StoredShift(h.bytes, p + o.size) == o.shift
  }

  /** The blocks do not overlap. */
  predicate Apart(o: Object, u: Object) {
    o.End() <= u.base || u.End() <= o.base
  }

  ghost predicate AllIntact(h: Heap) {
    forall p :: p in h.live ==> Intact(h, p, h.live[p])
  }

  ghost predicate AllApart(live: map<nat, Object>) {
    forall p, q :: p in live && q in live && p != q ==> Apart(live[p], live[q])
  }

  ghost predicate NoStray(h: Heap) {
    forall b :: b in h.blocks ==> exists p :: p in h.live && h.live[p].base == b
  }

  ghost predicate Valid(h: Heap) {
    AllIntact(h) && AllApart(h.live) && NoStray(h)
  }

  /** Outside the block of `o` the bytes are the same. */
  ghost predicate SameOutside(o: Object, before: Bytemap, after: Bytemap) {
    forall a :: a < o.base || o.End() <= a ==> (a in before <==> a in after) && (a in before ==> before[a] == after[a])
  }

  lemma {:induction false} WrittenAt(bytes: Bytemap, address: nat, data: seq<Byte>, a: nat)
    ensures var w := Written(bytes, address, data);
            if address <= a < address + |data| then a in w && w[a] == data[a - address]
            else (a in w <==> a in bytes) && (a in bytes ==> w[a] == bytes[a])
  {
    if data != [] {
      WrittenAt(bytes, address, data[..|data| - 1], a);
    }
  }

  lemma StoredRead(bytes: Bytemap, address: nat, shift: nat)
    requires shift < MAX_ALIGN
    ensures StoredShift(Written(bytes, address, Little(shift, OFFSET_BYTES)), address) == shift
  {
    var data := Little(shift, OFFSET_BYTES);
    var w := Written(bytes, address, data);
    forall i | 0 <= i < OFFSET_BYTES ensures ReadAt(w, address)[i] == data[i] {
      WrittenAt(bytes, address, data, address + i);
    }
    assert ReadAt(w, address) == data;
    LittleRoundTrip(shift, OFFSET_BYTES);
  }

  lemma ReadKept(before: Bytemap, after: Bytemap, address: nat)
    requires forall a :: address <= a < address + OFFSET_BYTES ==> (a in before <==> a in after) && (a in before ==> before[a] == after[a])
    ensures StoredShift(before, address) == StoredShift(after, address)
  {
    assert ReadAt(before, address) == ReadAt(after, address);
  }

  /** A change of bytes that stays inside one block keeps every object of another block intact. */
  lemma IntactElsewhere(h: Heap, k: Heap, p: nat, o: Object, u: Object)
    requires Intact(h, p, o) && u.Sane() && Apart(o, u) && SameOutside(u, h.bytes, k.bytes)
    requires o.base in k.blocks && k.blocks[o.base] == h.blocks[o.base]
    ensures Intact(k, p, o)
  {
    ReadKept(h.bytes, k.bytes, p + o.size);
  }

  const MAX_ALIGN: nat := 0x8000_0000_0000_0000

  datatype Op = New(size: nat, align: nat, base: nat) | Use(p: nat, offset: nat, b: Byte) | Delete(p: nat)

  /** The byte allocator returns a block apart from all live ones, and never at address zero; owners write only inside their objects and delete only
      live ones. Alignments are at most the largest power of two that a size can hold. */
  ghost predicate Enabled(h: Heap, op: Op) {
    match op
    case New(size, align, base) => base > 0 && 0 < align <= MAX_ALIGN && forall p :: p in h.live ==> Apart(h.live[p], Made(size, align, base))
    case Use(p, offset, b) => p in h.live && offset < h.live[p].size
    case Delete(p) => p in h.live
  }

  ghost function After(h: Heap, op: Op): Heap
    requires Enabled(h, op)
  {
    match op
    case New(size, align, base) => Allocated(h, Made(size, align, base))
    case Use(p, offset, b) => Used(h, p, offset, b)
    case Delete(p) => Freed(h, p)
  }

  lemma WrittenInside(h: Heap, o: Object)
    requires o.Sane()
    ensures SameOutside(o, h.bytes, Allocated(h, o).bytes)
  {
    forall a: nat | a < o.base || o.End() <= a
      ensures (a in h.bytes <==> a in Allocated(h, o).bytes) && (a in h.bytes ==> h.bytes[a] == Allocated(h, o).bytes[a])
    {
      WrittenAt(h.bytes, o.Pointer() + o.size, Little(o.shift, OFFSET_BYTES), a);
    }
  }

  lemma NewIntact(h: Heap, o: Object)
    requires AllIntact(h) && o.Sane() && forall p :: p in h.live ==> Apart(h.live[p], o)
    ensures AllIntact(Allocated(h, o)) && o.Pointer() !in h.live
  {
    var k := Allocated(h, o);
    WrittenInside(h, o);
    StoredRead(h.bytes, o.Pointer() + o.size, o.shift);
    assert Intact(k, o.Pointer(), o);
    forall q | q in h.live ensures q != o.Pointer() && Intact(k, q, h.live[q]) {
      assert Intact(h, q, h.live[q]) && Apart(h.live[q], o);
      IntactElsewhere(h, k, q, h.live[q], o);
    }
  }

  lemma NewStray(h: Heap, o: Object)
    requires NoStray(h) && o.align > 0 && o.Pointer() !in h.live
    ensures NoStray(Allocated(h, o))
  {
    var k := Allocated(h, o);
    forall b | b in k.blocks ensures exists q :: q in k.live && k.live[q].base == b {
      if b != o.base {
        var q :| q in h.live && h.live[q].base == b;
        assert k.live[q].base == b;
      } else {
        assert k.live[o.Pointer()].base == b;
      }
    }
  }

  lemma UseOne(h: Heap, p: nat, o: Object, offset: nat, b: Byte)
    requires Intact(h, p, o) && offset < o.size
    ensures Intact(Used(h, p, offset, b), p, o) && SameOutside(o, h.bytes, Used(h, p, offset, b).bytes)
  {
    ReadKept(h.bytes, Used(h, p, offset, b).bytes, p + o.size);
  }

  lemma UseIntact(h: Heap, p: nat, offset: nat, b: Byte)
    requires AllIntact(h) && AllApart(h.live) && p in h.live && offset < h.live[p].size
    ensures AllIntact(Used(h, p, offset, b))
  {
    var k, o := Used(h, p, offset, b), h.live[p];
    UseOne(h, p, o, offset, b);
    forall q | q in h.live && q != p ensures Intact(k, q, h.live[q]) {
      IntactElsewhere(h, k, q, h.live[q], o);
    }
  }

  lemma DeleteIntact(h: Heap, p: nat)
    requires AllIntact(h) && AllApart(h.live) && p in h.live
    ensures AllIntact(Freed(h, p)) && AllApart(Freed(h, p).live)
  {
    var k, o := Freed(h, p), h.live[p];
    forall q | q in k.live ensures Intact(k, q, k.live[q]) {
      DifferentBase(h, p, q);
    }
  }

  lemma DifferentBase(h: Heap, p: nat, q: nat)
    requires AllIntact(h) && AllApart(h.live) && p in h.live && q in h.live && p != q
    ensures h.live[p].base != h.live[q].base
  {
    assert Intact(h, p, h.live[p]) && Intact(h, q, h.live[q]) && Apart(h.live[p], h.live[q]);
  }

  lemma DeleteStray(h: Heap, p: nat)
    requires NoStray(h) && p in h.live
    ensures NoStray(Freed(h, p))
  {
    var k := Freed(h, p);
    forall b | b in k.blocks ensures exists q :: q in k.live && k.live[q].base == b {
      var q :| q in h.live && h.live[q].base == b;
      assert q in k.live && k.live[q].base == b;
    }
  }

  lemma AfterValid(h: Heap, op: Op)
    requires Valid(h) && Enabled(h, op)
    ensures Valid(After(h, op))
  {
    match op
    case New(size, align, base) =>
      NewIntact(h, Made(size, align, base));
      NewStray(h, Made(size, align, base));
      ApartSymmetric(h.live, Made(size, align, base));
    case Use(p, offset, b) =>
      UseIntact(h, p, offset, b);
      assert NoStray(Used(h, p, offset, b));
    case Delete(p) =>
      DeleteIntact(h, p);
      DeleteStray(h, p);
  }

  lemma ApartSymmetric(live: map<nat, Object>, o: Object)
    requires AllApart(live) && forall p :: p in live ==> Apart(live[p], o)
    ensures AllApart(live[o.Pointer() := o])
  {
  }

  // ---------------------------------------------------------------- any sequence of operations

  ghost predicate AllEnabled(ops: seq<Op>)
    decreases |ops|, 0
  {
    ops == [] || (AllEnabled(ops[..|ops| - 1]) && Enabled(Run(ops[..|ops| - 1]), ops[|ops| - 1]))
  }

  ghost function Run(ops: seq<Op>): Heap
    requires AllEnabled(ops)
    decreases |ops|, 1
  {
    if ops == [] then Heap(map[], map[], map[]) else After(Run(ops[..|ops| - 1]), ops[|ops| - 1])
  }

  lemma {:induction false} RunValid(ops: seq<Op>)
    requires AllEnabled(ops)
    ensures Valid(Run(ops))
  {
    if ops != [] {
      RunValid(ops[..|ops| - 1]);
      AfterValid(Run(ops[..|ops| - 1]), ops[|ops| - 1]);
    }
  }

  /** What the code gives back for a pointer: the base it computes from the stored distance, and the length. */
  function GivenBack(bytes: Bytemap, p: nat, size: nat, align: nat): Block
    requires align > 0 && StoredShift(bytes, p + size) <= p
  {
    Block(p - StoredShift(bytes, p + size), BlockLength(size, align))
  }

  /** Giving back the object recovers exactly the base and the length of its block. */
  ghost predicate Recovered(h: Heap, p: nat, o: Object) {
    && o.base in h.blocks && o.align > 0 && StoredShift(h.bytes, p + o.size) <= p
    && GivenBack(h.bytes, p, o.size, o.align) == Block(o.base, h.blocks[o.base])
  }

  lemma IntactRecovered(h: Heap, p: nat, o: Object)
    requires Intact(h, p, o)
    ensures Recovered(h, p, o)
  {
  }

  /** After any sequence of allocations, uses and deallocations of any sizes and alignments, giving back any live object
      recovers its block, and when no object is left, no block is. */
  lemma EveryBlockRecovered(ops: seq<Op>, p: nat)
    requires AllEnabled(ops)
    ensures var h := Run(ops);
            && (p in h.live ==> p != 0 && Recovered(h, p, h.live[p]))
            && (h.live == map[] ==> h.blocks == map[])
  {
    RunValid(ops);
    var h := Run(ops);
    if p in h.live {
      IntactRecovered(h, p, h.live[p]);
    }
    if h.live == map[] {
      NothingLeft(h);
    }
  }

  lemma NothingLeft(h: Heap)
    requires NoStray(h) && h.live == map[]
    ensures h.blocks == map[]
  {
    assert forall b :: b !in h.blocks;
  }

  /** No operation on one object changes a byte of another live object. */
  lemma OthersUntouched(h: Heap, op: Op, q: nat, a: nat)
    requires Valid(h) && Enabled(h, op) && q in h.live && q in After(h, op).live
    requires op.Use? ==> op.p != q
    requires q <= a < q + h.live[q].size
    ensures var k := After(h, op);
            (a in k.bytes <==> a in h.bytes) && (a in h.bytes ==> k.bytes[a] == h.bytes[a])
  {
    assert Intact(h, q, h.live[q]);
    if op.New? {
      var o := Made(op.size, op.align, op.base);
      assert Apart(h.live[q], o);
      WrittenInside(h, o);
    } else if op.Use? {
      assert Intact(h, op.p, h.live[op.p]) && Apart(h.live[q], h.live[op.p]);
    }
  }

  // ---------------------------------------------------------------- the code, in place

  class Memory {
    var bytes: Bytemap
    var blocks: map<nat, nat>
    ghost var live: map<nat, Object>

    ghost function Value(): Heap
      reads this
    {
      Heap(bytes, blocks, live)
    }

    constructor ()
      ensures Value() == Heap(map[], map[], map[])
    {
      bytes, blocks, live := map[], map[], map[];
    }

    /** `memcpy` of the distance, byte by byte. */
    method Store(address: nat, data: seq<Byte>)
      modifies this`bytes
      ensures bytes == Written(old(bytes), address, data)
    {
      for i := 0 to |data|
        invariant bytes == Written(old(bytes), address, data[..i])
      {
        bytes := bytes[address + i := data[i]];
        assert data[..i + 1][..i] == data[..i];
      }
      assert data[..|data|] == data;
    }

    method Load(address: nat) returns (read: seq<Byte>)
      ensures read == ReadAt(bytes, address)
    {
      read := [];
      for i := 0 to OFFSET_BYTES
        invariant read == ReadAt(bytes, address)[..i]
      {
        read := read + [if address + i in bytes then bytes[address + i] else 0];
      }
    }

    /** Allocation: `base` is what the byte allocator returns for the enlarged length. The object lies at the least
        aligned address of the block, it and the stored distance stay inside the block, and the branch for a block that
        turns out too small is never taken. */
    method Allocate(size: nat, align: nat, base: nat) returns (p: nat)
      requires Enabled(Value(), New(size, align, base))
      modifies this
      ensures p % align == 0 && base <= p && p + size + 8 <= base + (size + align - 1 + 8)
      ensures blocks == old(blocks)[base := size + align - 1 + 8]
      ensures forall q: nat :: base <= q && q % align == 0 ==> p <= q
      ensures Value() == After(old(Value()), New(size, align, base))
    {
      var space := size + align - 1;
      blocks := blocks[base := space + OFFSET_BYTES];
      p := base + Shift(base, align);
      ShiftAligns(base, align);
      assert size + (p - base) <= space;
      var off := p - base;
      Store(p + size, Little(off, OFFSET_BYTES));
      live := live[p := Made(size, align, base)];
    }

    /** Deallocation: the distance is read back, and the block is given back at the base and with the length it was taken
        with. A null pointer is ignored. */
    method Deallocate(p: nat, size: nat, align: nat) returns (given: Block)
      requires p != 0 ==> p in live && Intact(Value(), p, live[p]) && live[p].size == size && live[p].align == align
      modifies this
      ensures p == 0 ==> Value() == old(Value())
      ensures p != 0 ==> given == Block(old(live)[p].base, old(blocks)[old(live)[p].base])
      ensures p != 0 ==> Value() == After(old(Value()), Delete(p))
    {
      given := Block(0, 0);
      if p != 0 {
        var read := Load(p + size);
        var off := FromLittle(read);
        assert off == StoredShift(bytes, p + size);
        given := Block(p - off, size + align - 1 + OFFSET_BYTES);
        blocks := blocks - {given.base};
        live := live - {p};
      }
    }
  }
}
