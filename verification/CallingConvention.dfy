/** Passing arguments between two functions on the machine itself: the caller's loop fills registers
    and pushes, right to left; the callee reads registers and the caller's frame. */
module CallingConvention {
  import opened Words
  import opened Environment
  import L = Lir
  import F = FrameTracking

  datatype Hardware = RAX | RBX | RCX | RDX | RSI | RDI | R8 | R9

  const WORD: nat := 8

  /** The register of an integer argument, in the order of section 3.2.3 of the System V AMD64 psABI. */
  function RegisterArgument(number: nat): Hardware
    requires number < L.MAX_REGISTER_ARGUMENTS
  {
    match number
    case 0 => RDI
    case 1 => RSI
    case 2 => RDX
    case 3 => RCX
    case 4 => R8
    case _ => R9
  }

  /** The registers of section 3.2.3 in their order. No two arguments share one, and only the second
      temporary shares one with an argument; remainders go to the third argument's. */
  lemma RegistersDistinct(a: nat, b: nat)
    requires a < L.MAX_REGISTER_ARGUMENTS && b < L.MAX_REGISTER_ARGUMENTS
    ensures RegisterArgument(a) == [RDI, RSI, RDX, RCX, R8, R9][a] && RegisterArgument(L.REMAINDER_SLOT) == RDX
    ensures RegisterArgument(a) == RegisterArgument(b) ==> a == b
    ensures RegisterArgument(a) == TemporaryRegister(1) <==> a == L.T2_SLOT
    ensures RegisterArgument(a) != TemporaryRegister(0) && RegisterArgument(a) != TemporaryRegister(2)
  {
  }

  /** The registers of the temporaries; the third is the backend's own. */
  function TemporaryRegister(number: nat): Hardware
    requires number < 3
  {
    match number
    case 0 => RAX
    case 1 => RCX
    case _ => RBX
  }

  function StackArguments(n: nat): nat {
    if n <= L.MAX_REGISTER_ARGUMENTS then 0 else n - L.MAX_REGISTER_ARGUMENTS
  }

  predicate Holds(memory: map<int, Word>, a: int, v: Word) {
    a in memory && memory[a] == v
  }

  class Machine {
    var registers: map<Hardware, Word>
    var memory: map<int, Word>
    var rsp: int
    var rbp: int

    constructor (rsp: int, rbp: int)
      ensures this.rsp == rsp && this.rbp == rbp
    {
      registers, memory := map[], map[];
      this.rsp, this.rbp := rsp, rbp;
    }

    method Push(v: Word)
      modifies this
      ensures rsp == old(rsp) - WORD && memory == old(memory)[rsp := v]
      ensures rbp == old(rbp) && registers == old(registers)
    {
      rsp := rsp - WORD;
      memory := memory[rsp := v];
    }

    /** Everything at and above an address is as it was. */
    twostate predicate Keeps(bottom: int)
      reads this
    {
      forall a :: a >= bottom ==> (a in memory <==> a in old(memory)) && (a in memory ==> memory[a] == old(memory[a]))
    }

    /** The caller: arguments from the last to the first, each into its register or onto the stack. */
    method PassArguments(values: seq<Word>)
      modifies this
      ensures rsp == old(rsp) - WORD * StackArguments(|values|) && rbp == old(rbp) && Keeps(old(rsp))
      ensures forall i :: 0 <= i < |values| && i < L.MAX_REGISTER_ARGUMENTS ==>
        RegisterArgument(i) in registers && registers[RegisterArgument(i)] == values[i]
      ensures forall i :: L.MAX_REGISTER_ARGUMENTS <= i < |values| ==>
        Holds(memory, rsp + WORD * (i - L.MAX_REGISTER_ARGUMENTS), values[i])
    {
      var i := |values|;
      var ints := i;
      while i > 0
        invariant 0 <= i == ints <= |values|
        invariant rbp == old(rbp) && Keeps(old(rsp))
        invariant rsp == old(rsp) - WORD * (StackArguments(|values|) - StackArguments(i))
        invariant forall j :: i <= j < |values| && j < L.MAX_REGISTER_ARGUMENTS ==>
          RegisterArgument(j) in registers && registers[RegisterArgument(j)] == values[j]
        invariant forall j :: i <= j < |values| && j >= L.MAX_REGISTER_ARGUMENTS ==>
          Holds(memory, old(rsp) - WORD * (|values| - j), values[j])
      {
        i := i - 1;
        if ints - 1 < L.MAX_REGISTER_ARGUMENTS {
          forall j | i < j < |values| && j < L.MAX_REGISTER_ARGUMENTS
            ensures RegisterArgument(j) != RegisterArgument(i)
          {
            RegistersDistinct(i, j);
          }
          registers := registers[RegisterArgument(i) := values[i]];
        } else {
          Push(values[i]);
        }
        ints := ints - 1;
      }
      forall j | L.MAX_REGISTER_ARGUMENTS <= j < |values|
        ensures Holds(memory, rsp + WORD * (j - L.MAX_REGISTER_ARGUMENTS), values[j])
      {
        assert Holds(memory, old(rsp) - WORD * (|values| - j), values[j]);
      }
    }

    /** The call pushes the return address, the callee saves rbp and makes its frame there. */
    method Enter(address: Word)
      modifies this
      ensures rbp == rsp == old(rsp) - 2 * WORD && registers == old(registers)
      ensures memory == old(memory)[old(rsp) - WORD := address][old(rsp) - 2 * WORD := old(rbp) as Word]
      requires -0x8000_0000_0000_0000 <= rbp < 0x8000_0000_0000_0000
    {
      Push(address);
      Push(rbp);
      rbp := rsp;
    }

    /** A parameter as the callee reads it: from its register, or above the saved rbp and the return
        address. */
    function Parameter(i: nat): Option<Word>
      reads this
    {
      if i < L.MAX_REGISTER_ARGUMENTS then
        if RegisterArgument(i) in registers then Some(registers[RegisterArgument(i)]) else None
      else
        var a := rbp + F.StackParameterOffset(i);
        if a in memory then Some(memory[a]) else None
    }

    /** The callee's return with any frame of its own below rbp: leave, and ret. */
    method Leave()
      requires rbp in memory
      modifies this
      ensures rsp == old(rbp) + 2 * WORD && rbp == old(memory[rbp])
      ensures memory == old(memory) && registers == old(registers)
    {
      rsp := rbp;
      rbp := memory[rsp];
      rsp := rsp + WORD;
      rsp := rsp + WORD;
    }

    /** The whole way: every parameter the callee reads is the caller's argument, and afterwards the
        caller finds its stack pointers and its frame as they were. */
    method CallAndReturn(values: seq<Word>, address: Word) returns (received: seq<Option<Word>>)
      requires -0x8000_0000_0000_0000 <= rbp < 0x8000_0000_0000_0000
      modifies this
      ensures received == seq(|values|, i requires 0 <= i < |values| => Some(values[i]))
      ensures rsp == old(rsp) && rbp == old(rbp) && Keeps(old(rsp))
    {
      PassArguments(values);
      Enter(address);
      received := [];
      for i := 0 to |values|
        invariant received == seq(i, j requires 0 <= j < i => Some(values[j]))
        modifies {}
      {
        assert Parameter(i) == Some(values[i]);
        received := received + [Parameter(i)];
      }
      Leave();
      rsp := rsp + F.StackArgumentBytes(|values|);
    }
  }
}
