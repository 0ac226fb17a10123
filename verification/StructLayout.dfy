/** Struct layout: one loop computes the size of a struct, another the offset of a member. */
module StructLayout {
  import opened Words

  datatype Primitive = VOID | BOOL | I8 | U8 | I16 | U16 | I32 | U32 | F32 | I64 | U64 | F64 | ISIZE | USIZE

  function PrimitiveSize(p: Primitive): (size: nat)
    ensures size == 1 || size == 2 || size == 4 || size == 8
  {
    match p
    case VOID => 1
    case BOOL => 1
    case I8 => 1
    case U8 => 1
    case I16 => 2
    case U16 => 2
    case I32 => 4
    case U32 => 4
    case F32 => 4
    case _ => 8
  }

  /** A member: its element type (USIZE for pointers) and its number of elements, 0 for no array. */
  datatype Member = Member(name: string, element: Primitive, arraySize: nat)

  function MemberSize(m: Member): nat {
    PrimitiveSize(m.element) * if m.arraySize == 0 then 1 else m.arraySize
  }

  /** The sizes elements come in. */
  predicate Granule(size: nat) {
    size == 1 || size == 2 || size == 4 || size == 8
  }

  /** The first multiple of a size that is not below a position. */
  function NextMultiple(position: nat, size: nat): (at: nat)
    requires Granule(size)
    ensures position <= at < position + size && at % size == 0
  {
    var at := (position + size - 1) / size * size;
    Multiples(position, size, position);
    at
  }

  lemma Multiples(position: nat, size: nat, at: nat)
    requires Granule(size)
    ensures var next := (position + size - 1) / size * size;
      && position <= next < position + size && next % size == 0
      && (position <= at < position + size && at % size == 0 ==> at == next)
  {
    if size == 1 {
    } else if size == 2 {
    } else if size == 4 {
    } else {
      assert size == 8;
    }
  }

  method AlignUp(position: nat, size: nat) returns (at: nat)
    requires Granule(size)
    ensures at == NextMultiple(position, size)
  {
    at := position;
    while at % size != 0
      invariant position <= at <= NextMultiple(position, size)
      decreases NextMultiple(position, size) - at
    {
      at := at + 1;
    }
    Multiples(position, size, at);
  }

  // ----- The layout both loops compute -----

  /** Where member i starts, given where the one before it ends. */
  function Offset(ms: seq<Member>, packed: bool, i: nat): nat
    requires i < |ms|
    decreases i, 0
  {
    var end := if i == 0 then 0 else End(ms, packed, i - 1);
    if packed then end else NextMultiple(end, PrimitiveSize(ms[i].element))
  }

  function End(ms: seq<Member>, packed: bool, i: nat): nat
    requires i < |ms|
    decreases i, 1
  {
    Offset(ms, packed, i) + MemberSize(ms[i])
  }

  function Size(ms: seq<Member>, packed: bool): nat {
    var end := if ms == [] then 0 else End(ms, packed, |ms| - 1);
    if packed then end else NextMultiple(end, 4)
  }

  method StructSize(ms: seq<Member>, packed: bool) returns (size: nat)
    ensures size == Size(ms, packed)
  {
    size := 0;
    for i := 0 to |ms|
      invariant size == if i == 0 then 0 else End(ms, packed, i - 1)
    {
      if !packed {
        size := AlignUp(size, PrimitiveSize(ms[i].element));
      }
      size := size + MemberSize(ms[i]);
    }
    if !packed {
      size := AlignUp(size, 4);
    }
  }

  /** The member with the name is reached before its own size is added. */
  method MemberOffset(ms: seq<Member>, packed: bool, name: string) returns (offset: nat)
    ensures forall i :: 0 <= i < |ms| && ms[i].name == name && Unnamed(ms, i, name) ==> offset == Offset(ms, packed, i)
  {
    offset := 0;
    for i := 0 to |ms|
      invariant offset == if i == 0 then 0 else End(ms, packed, i - 1)
      invariant Unnamed(ms, i, name)
    {
      if !packed {
        offset := AlignUp(offset, PrimitiveSize(ms[i].element));
      }
      if ms[i].name == name {
        return;
      }
      offset := offset + MemberSize(ms[i]);
    }
  }

  /** None of the first k members has the name. */
  predicate Unnamed(ms: seq<Member>, k: nat, name: string)
    requires k <= |ms|
  {
    forall j :: 0 <= j < k ==> ms[j].name != name
  }

  // ----- What the two computations agree on -----

  lemma {:induction false} OffsetsGrow(ms: seq<Member>, packed: bool, i: nat, j: nat)
    requires i < j < |ms|
    ensures End(ms, packed, i) <= Offset(ms, packed, j)
    decreases j
  {
    if i < j - 1 {
      OffsetsGrow(ms, packed, i, j - 1);
    }
  }

  /** Members lie one after the other inside the struct, each on a multiple of its element size
      unless the struct is packed. */
  lemma MembersFit(ms: seq<Member>, packed: bool)
    ensures forall i, j :: 0 <= i < j < |ms| ==> Offset(ms, packed, i) + MemberSize(ms[i]) <= Offset(ms, packed, j)
    ensures forall i :: 0 <= i < |ms| ==> Offset(ms, packed, i) + MemberSize(ms[i]) <= Size(ms, packed)
    ensures !packed ==> forall i :: 0 <= i < |ms| ==> Offset(ms, packed, i) % PrimitiveSize(ms[i].element) == 0
  {
    hide PrimitiveSize, NextMultiple, MemberSize;
    forall i, j | 0 <= i < j < |ms|
      ensures Offset(ms, packed, i) + MemberSize(ms[i]) <= Offset(ms, packed, j)
    {
      OffsetsGrow(ms, packed, i, j);
    }
    forall i | 0 <= i < |ms|
      ensures Offset(ms, packed, i) + MemberSize(ms[i]) <= Size(ms, packed)
    {
      if i < |ms| - 1 {
        OffsetsGrow(ms, packed, i, |ms| - 1);
      }
    }
  }

  function EndBefore(ms: seq<Member>, packed: bool, i: nat): nat
    requires i <= |ms|
  {
    if i == 0 then 0 else Offset(ms, packed, i - 1) + MemberSize(ms[i - 1])
  }

  /** No more is left out than alignment needs: every member starts at the first multiple of its element
      size behind the one before, or right behind it in a packed struct, and the struct ends at the first
      multiple of 4. */
  lemma NoMorePadding(ms: seq<Member>, packed: bool, i: nat, at: nat)
    ensures i < |ms| && packed ==> Offset(ms, packed, i) == EndBefore(ms, packed, i)
    ensures i < |ms| && !packed && at >= EndBefore(ms, packed, i) && at % PrimitiveSize(ms[i].element) == 0 ==>
      Offset(ms, packed, i) <= at
    ensures packed ==> Size(ms, packed) == EndBefore(ms, packed, |ms|)
    ensures !packed && at >= EndBefore(ms, packed, |ms|) && at % 4 == 0 ==> Size(ms, packed) <= at
    ensures !packed ==> Size(ms, packed) % 4 == 0
  {
    hide PrimitiveSize, NextMultiple, MemberSize;
    if i < |ms| && !packed {
      NextIsLeast(EndBefore(ms, packed, i), PrimitiveSize(ms[i].element), at);
    }
    NextIsLeast(EndBefore(ms, packed, |ms|), 4, at);
  }

  lemma NextIsLeast(position: nat, size: nat, at: nat)
    requires Granule(size)
    ensures at >= position && at % size == 0 ==> NextMultiple(position, size) <= at
  {
    if at >= position && at % size == 0 && at < position + size {
      Multiples(position, size, at);
    }
  }

  /** All elements of a member, one when it is no array, lie before what follows. */
  lemma ElementsFit(ms: seq<Member>, packed: bool, i: nat, k: nat)
    requires i < |ms| && (k == 0 || k < ms[i].arraySize)
    ensures Offset(ms, packed, i) + (k + 1) * PrimitiveSize(ms[i].element)
      <= if i + 1 < |ms| then Offset(ms, packed, i + 1) else Size(ms, packed)
  {
    hide Offset, Size, PrimitiveSize, MemberSize;
    MembersFit(ms, packed);
    ElementsInMember(ms[i], k);
  }

  lemma ElementsInMember(m: Member, k: nat)
    requires k == 0 || k < m.arraySize
    ensures (k + 1) * PrimitiveSize(m.element) <= MemberSize(m)
  {
    hide PrimitiveSize;
    var s := PrimitiveSize(m.element);
    var n := if m.arraySize == 0 then 1 else m.arraySize;
    assert (n - (k + 1)) * s >= 0;
    assert n * s == (k + 1) * s + (n - (k + 1)) * s;
  }

  /** The least and the greatest value of an integer type. */
  function Range(p: Primitive): (int, int) {
    match p
    case I8 => (-128, 127)
    case U8 => (0, 255)
    case I16 => (-32768, 32767)
    case U16 => (0, 65535)
    case I32 => (-0x8000_0000, 0x7fff_ffff)
    case U32 => (0, 0xffff_ffff)
    case I64 => (-TWO63, TWO63 - 1)
    case ISIZE => (-TWO63, TWO63 - 1)
    case U64 => (0, TWO64 - 1)
    case USIZE => (0, TWO64 - 1)
    case _ => (0, -1)
  }

  /** An integer type takes as many bytes as its values need, a float 4 or 8, and the others one. */
  lemma SizeHoldsValues(p: Primitive)
    ensures if p.VOID? || p.BOOL? then PrimitiveSize(p) == 1
            else if p.F32? then PrimitiveSize(p) == 4
            else if p.F64? then PrimitiveSize(p) == 8
            else Range(p).1 - Range(p).0 + 1 == Pow2(8 * PrimitiveSize(p))
  {
    hide Pow2;
    PowersOfBytes();
  }

  lemma PowersOfBytes()
    ensures Pow2(8) == 0x100 && Pow2(16) == 0x1_0000 && Pow2(32) == 0x1_0000_0000 && Pow2(64) == TWO64
  {
    assert Pow2(8) == 0x100;
    assert Pow2(16) == 0x1_0000;
    assert Pow2(24) == 0x100_0000;
    assert Pow2(32) == 0x1_0000_0000;
    assert Pow2(40) == 0x100_0000_0000;
    assert Pow2(48) == 0x1_0000_0000_0000;
    assert Pow2(56) == 0x100_0000_0000_0000;
  }

  predicate Aligned(x: nat, unit: nat)
    requires Granule(unit)
  {
    x % unit == 0
  }

  lemma SumAligned2(x: nat, o: nat)
    requires o % 2 == 0
    ensures (x + o) % 2 == 0 <==> x % 2 == 0
  {
  }

  lemma SumAligned4(x: nat, o: nat)
    requires o % 4 == 0
    ensures (x + o) % 4 == 0 <==> x % 4 == 0
  {
  }

  lemma SumAligned8(x: nat, o: nat)
    requires o % 8 == 0
    ensures (x + o) % 8 == 0 <==> x % 8 == 0
  {
  }

  lemma SumAligned(x: nat, o: nat, unit: nat)
    requires Granule(unit) && Aligned(o, unit)
    ensures Aligned(x + o, unit) <==> Aligned(x, unit)
  {
    match unit
    case 1 =>
    case 2 => SumAligned2(x, o);
    case 4 => SumAligned4(x, o);
    case _ => SumAligned8(x, o);
  }

  /** Where element k of an array of structs starts. */
  function ElementStart(ms: seq<Member>, k: nat): nat {
    if k == 0 then 0 else ElementStart(ms, k - 1) + Size(ms, false)
  }

  lemma {:induction false} ElementsAligned(ms: seq<Member>, k: nat, unit: nat)
    requires Granule(unit) && Aligned(Size(ms, false), unit)
    ensures Aligned(ElementStart(ms, k), unit)
    decreases k
  {
    hide Size, Aligned;
    if k > 0 {
      ElementsAligned(ms, k - 1, unit);
      SumAligned(ElementStart(ms, k - 1), Size(ms, false), unit);
    } else {
      ZeroAligned(unit);
    }
  }

  lemma ZeroAligned(unit: nat)
    requires Granule(unit)
    ensures Aligned(0, unit)
  {
  }

  /** The size of a struct is a multiple of 4 and of nothing larger in general, so the elements of an
      array of structs are all aligned exactly when the size happens to suffice. */
  lemma ArrayElementsAligned(ms: seq<Member>, i: nat)
    requires i < |ms|
    ensures var unit := PrimitiveSize(ms[i].element);
      (forall k :: Aligned(ElementStart(ms, k) + Offset(ms, false, i), unit)) <==> Aligned(Size(ms, false), unit)
  {
    hide Size, Offset, Aligned, PrimitiveSize;
    var unit := PrimitiveSize(ms[i].element);
    MemberAligned(ms, i);
    forall k: nat
      ensures Aligned(Size(ms, false), unit) ==> Aligned(ElementStart(ms, k) + Offset(ms, false, i), unit)
    {
      if Aligned(Size(ms, false), unit) {
        ElementsAligned(ms, k, unit);
        SumAligned(ElementStart(ms, k), Offset(ms, false, i), unit);
      }
    }
    assert ElementStart(ms, 1) == Size(ms, false);
    SumAligned(ElementStart(ms, 1), Offset(ms, false, i), unit);
  }

  lemma MemberAligned(ms: seq<Member>, i: nat)
    requires i < |ms|
    ensures Aligned(Offset(ms, false, i), PrimitiveSize(ms[i].element))
  {
    MembersFit(ms, false);
  }

  // ----- Initialising and reading members -----

  type Byte = x: int | 0 <= x < 256

  /** Bytes written from an address on. */
  function Write(memory: map<int, Byte>, address: int, bytes: seq<Byte>): map<int, Byte>
    decreases |bytes|
  {
    if bytes == [] then memory else Write(memory[address := bytes[0]], address + 1, bytes[1..])
  }

  predicate Holds(memory: map<int, Byte>, address: int, bytes: seq<Byte>) {
    forall k :: 0 <= k < |bytes| ==> ByteAt(memory, address + k, bytes[k])
  }

  predicate ByteAt(memory: map<int, Byte>, address: int, b: Byte) {
    address in memory && memory[address] == b
  }

  lemma {:induction false} WriteHolds(memory: map<int, Byte>, address: int, bytes: seq<Byte>)
    ensures Holds(Write(memory, address, bytes), address, bytes)
    ensures forall a :: !(address <= a < address + |bytes|) ==> SameAt(memory, Write(memory, address, bytes), a)
    decreases |bytes|
  {
    if bytes != [] {
      var next := memory[address := bytes[0]];
      WriteHolds(next, address + 1, bytes[1..]);
      var after := Write(memory, address, bytes);
      assert SameAt(next, after, address);
      forall k | 0 <= k < |bytes|
        ensures ByteAt(after, address + k, bytes[k])
      {
        if k > 0 {
          assert ByteAt(after, address + 1 + (k - 1), bytes[1..][k - 1]);
        }
      }
      forall a | !(address <= a < address + |bytes|)
        ensures SameAt(memory, after, a)
      {
        assert SameAt(next, after, a);
      }
    }
  }

  predicate SameAt(before: map<int, Byte>, after: map<int, Byte>, a: int) {
    (a in after <==> a in before) && (a in before ==> after[a] == before[a])
  }

  lemma HoldsElsewhere(before: map<int, Byte>, after: map<int, Byte>, address: int, bytes: seq<Byte>)
    requires Holds(before, address, bytes)
    requires forall a :: address <= a < address + |bytes| ==> SameAt(before, after, a)
    ensures Holds(after, address, bytes)
  {
    forall k | 0 <= k < |bytes|
      ensures ByteAt(after, address + k, bytes[k])
    {
      assert ByteAt(before, address + k, bytes[k]) && SameAt(before, after, address + k);
    }
  }

  /** An initialiser: the members it names in its own order, with the bytes of their values. */
  datatype Initial = Initial(index: nat, bytes: seq<Byte>)

  predicate Fitting(ms: seq<Member>, inits: seq<Initial>) {
    forall k :: 0 <= k < |inits| ==> inits[k].index < |ms| && |inits[k].bytes| == MemberSize(ms[inits[k].index])
  }

  /** The memory after every member of an initialiser was assigned, in the order given. */
  function Initialised(memory: map<int, Byte>, base: int, ms: seq<Member>, packed: bool,
                       inits: seq<Initial>): map<int, Byte>
    requires Fitting(ms, inits)
    decreases |inits|
  {
    if inits == [] then memory
    else
      var k := |inits| - 1;
      Write(Initialised(memory, base, ms, packed, inits[..k]), base + Offset(ms, packed, inits[k].index),
            inits[k].bytes)
  }

  /** Reading a member gives what was last assigned to it, whatever was assigned to the others; and
      nothing outside the struct changes. */
  lemma {:induction false} InitialisedReads(memory: map<int, Byte>, base: int, ms: seq<Member>, packed: bool,
                                            inits: seq<Initial>, k: nat)
    requires Fitting(ms, inits) && k < |inits|
    requires forall j :: k < j < |inits| ==> inits[j].index != inits[k].index
    ensures Holds(Initialised(memory, base, ms, packed, inits), base + Offset(ms, packed, inits[k].index),
                  inits[k].bytes)
    decreases |inits|
  {
    hide Offset, MemberSize;
    var last := |inits| - 1;
    var before := Initialised(memory, base, ms, packed, inits[..last]);
    var at := base + Offset(ms, packed, inits[last].index);
    WriteHolds(before, at, inits[last].bytes);
    if k < last {
      InitialisedReads(memory, base, ms, packed, inits[..last], k);
      Apart(ms, packed, inits[k].index, inits[last].index);
      HoldsElsewhere(before, Initialised(memory, base, ms, packed, inits), base + Offset(ms, packed, inits[k].index),
                     inits[k].bytes);
    }
  }

  lemma Apart(ms: seq<Member>, packed: bool, i: nat, j: nat)
    requires i < |ms| && j < |ms| && i != j
    ensures Offset(ms, packed, i) + MemberSize(ms[i]) <= Offset(ms, packed, j)
      || Offset(ms, packed, j) + MemberSize(ms[j]) <= Offset(ms, packed, i)
  {
    hide Offset, MemberSize;
    MembersFit(ms, packed);
  }

  lemma {:induction false} InitialisedOutside(memory: map<int, Byte>, base: int, ms: seq<Member>, packed: bool,
                                              inits: seq<Initial>, a: int)
    requires Fitting(ms, inits) && !(base <= a < base + Size(ms, packed))
    ensures SameAt(memory, Initialised(memory, base, ms, packed, inits), a)
    decreases |inits|
  {
    hide Offset, MemberSize, Size;
    if inits != [] {
      var last := |inits| - 1;
      var before := Initialised(memory, base, ms, packed, inits[..last]);
      var i := inits[last].index;
      InitialisedOutside(memory, base, ms, packed, inits[..last], a);
      WriteHolds(before, base + Offset(ms, packed, i), inits[last].bytes);
      MembersFit(ms, packed);
      assert Offset(ms, packed, i) + MemberSize(ms[i]) <= Size(ms, packed);
      assert SameAt(before, Initialised(memory, base, ms, packed, inits), a);
    }
  }
}
