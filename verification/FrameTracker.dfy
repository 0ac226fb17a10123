/** The compile-time model of the stack frame: how much of it is reserved and used, a cache of both
    for every open block, and the place of every local variable. */
module FrameTracking {
  import opened Words

  const ALIGNMENT: nat := 16
  const PUSH_SIZE: nat := 8

  /** What the tracker remembers for an open block: the sizes at its start. */
  datatype Saved = Saved(reserved: int, used: int)

  /** The tracked frame. `cache` holds the saved sizes of every open block, the innermost last;
      `offsets` holds the places of the locals relative to rbp. */
  datatype Frame = Frame(reserved: int, used: int, cache: seq<Saved>, offsets: map<nat, int>)

  const EMPTY: Frame := Frame(0, 0, [], map[])

  /** The smallest multiple of the alignment that is not below a size. */
  function RoundUp(size: int): (r: int)
    ensures size <= r < size + ALIGNMENT && r % ALIGNMENT == 0
  {
    (size + ALIGNMENT - 1) / ALIGNMENT * ALIGNMENT
  }

  function Pushed(f: Frame): Frame {
    f.(cache := f.cache + [Saved(f.reserved, f.used)])
  }

  function Innermost(f: Frame): Saved
    requires f.cache != []
  {
    f.cache[|f.cache| - 1]
  }

  function Popped(f: Frame): Frame
    requires f.cache != []
  {
    f.(reserved := Innermost(f).reserved, used := Innermost(f).used, cache := f.cache[..|f.cache| - 1])
  }

  function Altered(f: Frame, bytes: int): Frame {
    f.(reserved := f.reserved + bytes, used := f.used + bytes)
  }

  /** A new local below everything used so far; more of the frame is reserved only when needed. */
  function Allocated(f: Frame, uid: nat, size: nat): Frame {
    var used := f.used + size;
    f.(used := used, offsets := f.offsets[uid := -used],
       reserved := if used <= f.reserved then f.reserved else RoundUp(used))
  }

  /** The frame after the end of a block. A conditional end leaves the block open for the code that
      follows the jump, with everything reserved counted as used. */
  function Ended(f: Frame, conditional: bool): Frame
    requires f.cache != []
  {
    if conditional then f.(used := f.reserved) else Popped(f)
  }

  // ----- The tracker -----

  /** What an emitter method does to rsp: bytes subtracted, or added when negative. */
  class State {
    var stackReserved: int
    var stackUsed: int
    var stackCache: seq<Saved>
    var offsets: map<nat, int>

    constructor ()
      ensures Tracked() == EMPTY
    {
      stackReserved, stackUsed, stackCache, offsets := 0, 0, [], map[];
    }

    function Tracked(): Frame
      reads this
    {
      Frame(stackReserved, stackUsed, stackCache, offsets)
    }

    method PushStackCache()
      modifies this
      ensures Tracked() == Pushed(old(Tracked()))
    {
      stackCache := stackCache + [Saved(stackReserved, stackUsed)];
    }

    method PopStackCache()
      requires stackCache != []
      modifies this
      ensures Tracked() == Popped(old(Tracked()))
    {
      stackUsed := stackCache[|stackCache| - 1].used;
      stackReserved := stackCache[|stackCache| - 1].reserved;
      stackCache := stackCache[..|stackCache| - 1];
    }

    method AlterStack(bytes: int, reserveToo: bool)
      modifies this
      ensures Tracked() == if reserveToo then Altered(old(Tracked()), bytes)
                           else old(Tracked()).(used := old(stackUsed) + bytes)
    {
      stackUsed := stackUsed + bytes;
      if reserveToo {
        stackReserved := stackReserved + bytes;
      }
    }

    /** The loop reserves byte by byte until the new local fits and the frame is aligned. */
    method AllocateLocalVariable(uid: nat, size: nat) returns (lowered: int)
      modifies this
      ensures Tracked() == Allocated(old(Tracked()), uid, size)
      ensures lowered == stackReserved - old(stackReserved)
    {
      stackUsed := stackUsed + size;
      offsets := offsets[uid := -stackUsed];
      if stackUsed <= stackReserved {
        return 0;
      }
      var before := stackReserved;
      while stackUsed > stackReserved || stackReserved % ALIGNMENT != 0
        invariant stackReserved <= RoundUp(stackUsed)
        invariant stackUsed == old(stackUsed) + size && offsets == old(offsets)[uid := -stackUsed]
        invariant stackCache == old(stackCache)
        decreases RoundUp(stackUsed) - stackReserved
      {
        AlignedAtMost(stackUsed, stackReserved);
        stackReserved := stackReserved + 1;
      }
      AlignedAtMost(stackUsed, stackReserved);
      lowered := stackReserved - before;
    }

    /** A parameter passed on the stack already has its place above the frame. */
    method AllocateFromCallArgument(uid: nat, index: nat)
      modifies this
      ensures Tracked() == old(Tracked()).(offsets := old(offsets)[uid := StackParameterOffset(index)])
    {
      offsets := offsets[uid := StackParameterOffset(index)];
    }

    method EmitStartBlock()
      modifies this
      ensures Tracked() == Pushed(old(Tracked()))
    {
      PushStackCache();
    }

    /** Both ends give back what the block reserved; only the unconditional one closes it. */
    method EmitEndBlock(conditional: bool) returns (raised: int)
      requires stackCache != []
      modifies this
      ensures Tracked() == Ended(old(Tracked()), conditional)
      ensures raised == old(stackReserved) - Innermost(old(Tracked())).reserved
    {
      var reserved := stackReserved;
      var used := stackReserved;
      PopStackCache();
      raised := reserved - stackReserved;
      if conditional {
        PushStackCache();
        assert stackCache == old(stackCache);
        stackReserved := reserved;
        stackUsed := used;
      }
    }

    method EmitPush()
      modifies this
      ensures Tracked() == Altered(old(Tracked()), PUSH_SIZE)
    {
      AlterStack(PUSH_SIZE, true);
    }

    method EmitPop()
      modifies this
      ensures Tracked() == Altered(old(Tracked()), 0 - PUSH_SIZE)
    {
      AlterStack(0 - PUSH_SIZE, true);
    }

    /** After a call the arguments that were pushed for it are given back. */
    method EmitCall(total: nat) returns (raised: int)
      modifies this
      ensures Tracked() == Altered(old(Tracked()), 0 - StackArgumentBytes(total)) && raised == StackArgumentBytes(total)
    {
      if total <= REGISTER_ARGUMENTS {
        return 0;
      }
      raised := (total - REGISTER_ARGUMENTS) * PUSH_SIZE;
      AlterStack(-raised, true);
    }
  }

  const REGISTER_ARGUMENTS: nat := 6

  function StackArgumentBytes(total: nat): nat {
    if total <= REGISTER_ARGUMENTS then 0 else (total - REGISTER_ARGUMENTS) * PUSH_SIZE
  }

  /** Above the saved rbp and the return address lie the stack arguments, the seventh first. */
  function StackParameterOffset(index: nat): int {
    (index - REGISTER_ARGUMENTS + 2) * 8
  }

  /** No aligned size lies between a size and its rounding. */
  lemma AlignedAtMost(size: int, r: int)
    requires r <= RoundUp(size)
    ensures size <= r && r % ALIGNMENT == 0 ==> r == RoundUp(size)
    ensures size > r || r % ALIGNMENT != 0 ==> r < RoundUp(size)
  {
  }

  // ----- Frames over sequences of operations -----

  /** What a statement does to the frame. */
  datatype FrameOp =
    | OpenBlock
    | CloseBlock
    | LeaveBlock
    | AllocateLocal(uid: nat, size: nat)
    | PushWord
    | PopWord

  /** The bytes a local occupies, relative to rbp. */
  datatype Place = Place(low: int, size: nat)

  /** A frame with the places of the locals of open blocks, how many of them each open block found,
      and the number of temporaries on top. */
  datatype Layout = Layout(frame: Frame, live: seq<Place>, marks: seq<nat>, temporaries: nat)

  const NO_LAYOUT: Layout := Layout(EMPTY, [], [], 0)

  /** Blocks nest, temporaries are popped before the next statement, and locals have some size. */
  predicate Allowed(l: Layout, op: FrameOp) {
    match op
    case OpenBlock => l.temporaries == 0
    case CloseBlock => l.temporaries == 0 && l.marks != [] && l.frame.cache != []
    case LeaveBlock => l.temporaries == 0 && l.marks != [] && l.frame.cache != []
    case AllocateLocal(_, size) => l.temporaries == 0 && size > 0
    case PushWord => true
    case PopWord => l.temporaries > 0
  }

  function Apply(l: Layout, op: FrameOp): Layout
    requires Allowed(l, op)
  {
    match op
    case OpenBlock => l.(frame := Pushed(l.frame), marks := l.marks + [|l.live|])
    case CloseBlock =>
      var mark := l.marks[|l.marks| - 1];
      l.(frame := Ended(l.frame, false), marks := l.marks[..|l.marks| - 1],
         live := if mark <= |l.live| then l.live[..mark] else l.live)
    case LeaveBlock => l.(frame := Ended(l.frame, true))
    case AllocateLocal(uid, size) =>
      var f := Allocated(l.frame, uid, size);
      l.(frame := f, live := l.live + [Place(f.offsets[uid], size)])
    case PushWord => l.(frame := Altered(l.frame, PUSH_SIZE), temporaries := l.temporaries + 1)
    case PopWord => l.(frame := Altered(l.frame, 0 - PUSH_SIZE), temporaries := l.temporaries - 1)
  }

  /** The sizes reserved and used for locals, without the temporaries. */
  function LocalsReserved(l: Layout): int { l.frame.reserved - PUSH_SIZE * l.temporaries }
  function LocalsUsed(l: Layout): int { l.frame.used - PUSH_SIZE * l.temporaries }

  /** Places lie below one another without overlap, inside a size. */
  predicate Stacked(live: seq<Place>, size: int) {
    && (forall i :: 0 <= i < |live| ==> -size <= live[i].low && live[i].low + live[i].size <= 0)
    && (forall i, j :: 0 <= i < j < |live| ==> live[j].low + live[j].size <= live[i].low)
  }

  predicate FrameFits(l: Layout) {
    && 0 <= LocalsUsed(l) <= LocalsReserved(l) && LocalsReserved(l) % ALIGNMENT == 0
    && Stacked(l.live, LocalsUsed(l))
  }

  /** An open block will find the frame as it was: sizes that fit its locals, and no larger than now. */
  predicate BlockFits(l: Layout, b: nat)
    requires b < |l.marks| && b < |l.frame.cache|
  {
    var s := l.frame.cache[b];
    && l.marks[b] <= |l.live| && 0 <= s.used <= s.reserved <= LocalsReserved(l) && s.reserved % ALIGNMENT == 0
    && Stacked(l.live[..l.marks[b]], s.used)
    && (forall a :: 0 <= a < b ==> l.marks[a] <= l.marks[b] && l.frame.cache[a].reserved <= s.reserved)
  }

  predicate CacheFits(l: Layout) {
    && |l.frame.cache| == |l.marks|
    && forall b :: 0 <= b < |l.marks| ==> BlockFits(l, b)
  }

  predicate Sound(l: Layout) {
    FrameFits(l) && CacheFits(l)
  }

  lemma OpenSound(l: Layout)
    requires Sound(l) && Allowed(l, OpenBlock)
    ensures Sound(Apply(l, OpenBlock))
  {
    hide Stacked;
    var l' := Apply(l, OpenBlock);
    assert l.live[..|l.live|] == l.live;
    forall b | 0 <= b < |l'.marks|
      ensures BlockFits(l', b)
    {
      if b < |l.marks| {
        assert BlockFits(l, b);
      } else {
        assert l'.live[..l'.marks[b]] == l.live && LocalsUsed(l) == l.frame.used;
        assert forall a :: 0 <= a < |l.marks| ==> BlockFits(l, a) && l'.marks[a] == l.marks[a];
      }
    }
  }

  lemma CloseSound(l: Layout)
    requires Sound(l) && Allowed(l, CloseBlock)
    ensures Sound(Apply(l, CloseBlock))
  {
    hide Stacked;
    var l' := Apply(l, CloseBlock);
    var last := |l.marks| - 1;
    assert BlockFits(l, last);
    forall b | 0 <= b < |l'.marks|
      ensures BlockFits(l', b)
    {
      assert BlockFits(l, b);
      assert l.live[..l.marks[last]][..l.marks[b]] == l.live[..l.marks[b]];
    }
  }

  lemma LeaveSound(l: Layout)
    requires Sound(l) && Allowed(l, LeaveBlock)
    ensures Sound(Apply(l, LeaveBlock))
  {
    var l' := Apply(l, LeaveBlock);
    forall b | 0 <= b < |l'.marks|
      ensures BlockFits(l', b)
    {
      assert BlockFits(l, b);
    }
  }

  lemma AllocateSound(l: Layout, uid: nat, size: nat)
    requires Sound(l) && Allowed(l, AllocateLocal(uid, size))
    ensures Sound(Apply(l, AllocateLocal(uid, size)))
  {
    var l' := Apply(l, AllocateLocal(uid, size));
    forall b | 0 <= b < |l'.marks|
      ensures BlockFits(l', b)
    {
      assert BlockFits(l, b);
      assert l'.live[..l.marks[b]] == l.live[..l.marks[b]];
    }
  }

  lemma TemporarySound(l: Layout, op: FrameOp)
    requires Sound(l) && (op.PushWord? || op.PopWord?) && Allowed(l, op)
    ensures Sound(Apply(l, op)) && LocalsReserved(Apply(l, op)) == LocalsReserved(l)
  {
    hide Stacked;
    var l' := Apply(l, op);
    forall b | 0 <= b < |l'.marks|
      ensures BlockFits(l', b)
    {
      assert BlockFits(l, b);
    }
  }

  lemma ApplySound(l: Layout, op: FrameOp)
    requires Sound(l) && Allowed(l, op)
    ensures Sound(Apply(l, op))
  {
    hide Sound, Allowed, Apply;
    match op
    case OpenBlock => OpenSound(l);
    case CloseBlock => CloseSound(l);
    case LeaveBlock => LeaveSound(l);
    case AllocateLocal(uid, size) => AllocateSound(l, uid, size);
    case PushWord => TemporarySound(l, op);
    case PopWord => TemporarySound(l, op);
  }

  predicate AllAllowed(l: Layout, ops: seq<FrameOp>)
    decreases |ops|
  {
    ops == [] || (Allowed(l, ops[0]) && AllAllowed(Apply(l, ops[0]), ops[1..]))
  }

  function ApplyAll(l: Layout, ops: seq<FrameOp>): Layout
    requires AllAllowed(l, ops)
    decreases |ops|
  {
    if ops == [] then l else ApplyAll(Apply(l, ops[0]), ops[1..])
  }

  lemma {:induction false} ApplyAllSound(l: Layout, ops: seq<FrameOp>)
    requires Sound(l) && AllAllowed(l, ops)
    ensures Sound(ApplyAll(l, ops))
    decreases |ops|
  {
    hide Sound, Allowed, Apply;
    if ops != [] {
      ApplySound(l, ops[0]);
      ApplyAllSound(Apply(l, ops[0]), ops[1..]);
    }
  }

  /** After any well-nested sequence of operations: the locals of open blocks occupy pairwise disjoint
      bytes between rbp and the reserved bottom of the frame, the temporaries lie below all of them,
      used is at most reserved, and between statements reserved is a multiple of 16, as section 3.2.2 of the
      System V AMD64 psABI wants it. */
  lemma FramesAreSound(ops: seq<FrameOp>)
    requires AllAllowed(NO_LAYOUT, ops)
    ensures var l := ApplyAll(NO_LAYOUT, ops);
      && 0 <= l.frame.used <= l.frame.reserved
      && (l.temporaries == 0 ==> l.frame.reserved % 16 == 0)
      && (forall i :: 0 <= i < |l.live| ==>
            -(l.frame.reserved - 8 * l.temporaries) <= l.live[i].low && l.live[i].low + l.live[i].size <= 0)
      && (forall i, j :: 0 <= i < j < |l.live| ==> l.live[j].low + l.live[j].size <= l.live[i].low)
  {
    hide ApplyAll, AllAllowed;
    NoLayoutSound();
    ApplyAllSound(NO_LAYOUT, ops);
  }

  lemma NoLayoutSound()
    ensures Sound(NO_LAYOUT)
  {
  }
}
