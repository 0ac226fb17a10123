/** The tagged-byte heap of the runtime: every byte of a block carries the size of the block, free
    bytes carry 0, and a pointer says where the next block goes when no gap before it is found. */
module RuntimeHeap {
  import opened Words

  const HEAP_SIZE: nat := 65536

  /** The tags of the bytes and the heap pointer. */
  datatype State = State(tags: seq<nat>, pointer: nat)

  function Fresh(): State {
    State(seq(HEAP_SIZE, i => 0), 0)
  }

  predicate Valid(s: State) {
    |s.tags| == HEAP_SIZE
  }

  function Tagged(tags: seq<nat>, start: nat, value: nat, count: nat): (r: seq<nat>)
    requires start + count <= |tags|
    ensures |r| == |tags|
    ensures forall i :: 0 <= i < |r| ==> r[i] == if start <= i < start + count then value else tags[i]
  {
    tags[..start] + seq(count, i => value) + tags[start + count..]
  }

  /** What a look at the bytes from a position on finds. */
  datatype Probe = Empty | Occupied | PastTheEnd

  function ProbeFrom(tags: seq<nat>, i: nat, size: nat, j: nat): Probe
    requires j <= size
    decreases size - j
  {
    if j == size then Empty
    else if i + j >= |tags| then PastTheEnd
    else if tags[i + j] > 0 then Occupied
    else ProbeFrom(tags, i, size, j + 1)
  }

  datatype Search = Found(index: nat) | NotFound | Overrun

  /** The search for a gap before the heap pointer; it may run past the end of the tags. */
  function SearchFrom(s: State, size: nat, i: nat): Search
    decreases s.pointer - i
  {
    if i >= s.pointer then NotFound
    else if i >= |s.tags| then Overrun
    else if s.tags[i] > 0 then SearchFrom(s, size, i + 1)
    else match ProbeFrom(s.tags, i, size, 0)
      case Empty => Found(i)
      case Occupied => SearchFrom(s, size, i + 1)
      case PastTheEnd => Overrun
  }

  /** Where a block of the size goes; None when the allocator would touch memory that is not its own. */
  function Place(s: State, size: nat): Option<nat> {
    match SearchFrom(s, size, 0)
    case Found(i) => Some(i)
    case NotFound => if s.pointer + size <= |s.tags| then Some(s.pointer) else None
    case Overrun => None
  }

  function Allocated(s: State, size: nat): State
    requires Valid(s) && Place(s, size).Some?
  {
    var i := Place(s, size).value;
    PlaceFits(s, size);
    State(Tagged(s.tags, i, size, size), i + size)
  }

  predicate CanFree(s: State, index: nat) {
    index < |s.tags| && index + s.tags[index] <= |s.tags|
  }

  function Freed(s: State, index: nat): State
    requires Valid(s) && CanFree(s, index)
  {
    s.(tags := Tagged(s.tags, index, 0, s.tags[index]))
  }

  predicate FreeRun(tags: seq<nat>, i: nat, size: nat) {
    i + size <= |tags| && forall j :: i <= j < i + size ==> tags[j] == 0
  }

  lemma {:induction false} ProbeMeans(tags: seq<nat>, i: nat, size: nat, j: nat)
    requires j <= size && i + j <= |tags| && forall k :: i <= k < i + j ==> tags[k] == 0
    ensures ProbeFrom(tags, i, size, j) == Empty <==> FreeRun(tags, i, size)
    decreases size - j
  {
    if j < size && i + j < |tags| && tags[i + j] == 0 {
      ProbeMeans(tags, i, size, j + 1);
    }
  }

  /** A gap that is found is the lowest run of free bytes that starts before the heap pointer. */
  lemma {:induction false} SearchMeans(s: State, size: nat, i: nat)
    requires size > 0
    ensures var r := SearchFrom(s, size, i);
      && (r.Found? ==> i <= r.index < s.pointer && FreeRun(s.tags, r.index, size))
      && (r.Found? ==> forall k :: i <= k < r.index ==> !FreeRun(s.tags, k, size))
      && (r.NotFound? ==> forall k :: i <= k < s.pointer ==> !FreeRun(s.tags, k, size))
    decreases s.pointer - i
  {
    if i < s.pointer && i < |s.tags| {
      ProbeMeans(s.tags, i, size, 0);
      SearchMeans(s, size, i + 1);
    }
  }

  lemma {:induction false} SearchFits(s: State, size: nat, i: nat)
    ensures var r := SearchFrom(s, size, i); r.Found? ==> r.index + size <= |s.tags|
    decreases s.pointer - i
  {
    if i < s.pointer && i < |s.tags| {
      ProbeMeans(s.tags, i, size, 0);
      SearchFits(s, size, i + 1);
    }
  }

  lemma PlaceFits(s: State, size: nat)
    ensures var p := Place(s, size); p.Some? ==> p.value + size <= |s.tags|
  {
    SearchFits(s, size, 0);
  }

  // ----- The runtime's functions -----

  class Runtime {
    const freeList: array<nat>
    var pointer: nat

    constructor ()
      ensures fresh(freeList) && freeList.Length == HEAP_SIZE && Contents() == Fresh()
    {
      freeList := new nat[HEAP_SIZE](i => 0);
      pointer := 0;
      new;
      assert freeList[..] == Fresh().tags;
    }

    function Contents(): State
      reads this, freeList
    {
      State(freeList[..], pointer)
    }

    method SetSizes(start: nat, value: nat, count: nat)
      requires start + count <= freeList.Length
      modifies freeList
      ensures freeList[..] == Tagged(old(freeList[..]), start, value, count)
    {
      for i := 0 to count
        invariant freeList[..] == Tagged(old(freeList[..]), start, value, i)
      {
        freeList[start + i] := value;
      }
    }

    /** The nested loops of the search, which stop where the tags end. */
    method FindEmptySpace(size: nat) returns (r: Search)
      ensures r == SearchFrom(Contents(), size, 0)
    {
      var i := 0;
      while i < pointer
        invariant 0 <= i && SearchFrom(Contents(), size, i) == SearchFrom(Contents(), size, 0)
        decreases pointer - i
      {
        if i >= freeList.Length {
          return Overrun;
        }
        if freeList[i] > 0 {
          i := i + 1;
          continue;
        }
        var empty := true;
        var j := 0;
        while j < size
          invariant 0 <= j <= size && empty
          invariant ProbeFrom(freeList[..], i, size, j) == ProbeFrom(freeList[..], i, size, 0)
        {
          if i + j >= freeList.Length {
            return Overrun;
          }
          if freeList[i + j] > 0 {
            empty := false;
            break;
          }
          j := j + 1;
        }
        if empty {
          return Found(i);
        }
        i := i + 1;
      }
      return NotFound;
    }

    method Alloc(size: nat) returns (index: nat)
      requires Valid(Contents()) && Place(Contents(), size).Some?
      modifies this, freeList
      ensures index == Place(old(Contents()), size).value
      ensures Contents() == Allocated(old(Contents()), size)
    {
      PlaceFits(Contents(), size);
      var space := FindEmptySpace(size);
      if space.NotFound? {
        index := pointer;
      } else {
        index := space.index;
      }
      pointer := index + size;
      SetSizes(index, size, size);
    }

    method Free(index: nat)
      requires Valid(Contents()) && CanFree(Contents(), index)
      modifies freeList
      ensures Contents() == Freed(old(Contents()), index)
    {
      var size := freeList[index];
      SetSizes(index, 0, size);
    }
  }

  // ----- Last in, first out -----

  function Total(sizes: seq<nat>): nat {
    if sizes == [] then 0 else Total(sizes[..|sizes| - 1]) + sizes[|sizes| - 1]
  }

  /** Live blocks, in the order they were allocated, tile the heap from its start; each byte carries
      the size of its block, everything above is free, and the pointer is not below the top. */
  ghost predicate Tiles(s: State, sizes: seq<nat>) {
    && Valid(s) && Total(sizes) <= HEAP_SIZE && Total(sizes) <= s.pointer
    && (forall b :: 0 <= b < |sizes| ==> BlockTagged(s, sizes, b))
    && (forall i :: Total(sizes) <= i < HEAP_SIZE ==> s.tags[i] == 0)
  }

  ghost predicate BlockTagged(s: State, sizes: seq<nat>, b: nat)
    requires Valid(s) && b < |sizes|
  {
    && sizes[b] > 0
    && forall i :: Total(sizes[..b]) <= i < Total(sizes[..b]) + sizes[b] && i < HEAP_SIZE ==> s.tags[i] == sizes[b]
  }

  lemma {:induction false} TotalGrows(sizes: seq<nat>, b: nat)
    requires b < |sizes|
    ensures Total(sizes[..b]) + sizes[b] <= Total(sizes)
    decreases |sizes|
  {
    var last := |sizes| - 1;
    if b < last {
      TotalGrows(sizes[..last], b);
      assert sizes[..last][..b] == sizes[..b];
    }
  }

  /** Every byte below the top belongs to a block. */
  lemma {:induction false} BlockOf(sizes: seq<nat>, i: nat) returns (b: nat)
    requires i < Total(sizes)
    ensures b < |sizes| && Total(sizes[..b]) <= i < Total(sizes[..b]) + sizes[b]
    decreases |sizes|
  {
    var last := |sizes| - 1;
    if i < Total(sizes[..last]) {
      b := BlockOf(sizes[..last], i);
      assert sizes[..last][..b] == sizes[..b];
    } else {
      b := last;
    }
  }

  lemma BytesTaken(s: State, sizes: seq<nat>, i: nat)
    requires Tiles(s, sizes) && i < Total(sizes)
    ensures s.tags[i] > 0
  {
    var b := BlockOf(sizes, i);
    assert BlockTagged(s, sizes, b);
  }

  lemma {:induction false} SearchSkips(s: State, sizes: seq<nat>, size: nat, i: nat)
    requires Tiles(s, sizes) && i <= Total(sizes)
    ensures SearchFrom(s, size, i) == SearchFrom(s, size, Total(sizes))
    decreases Total(sizes) - i
  {
    if i < Total(sizes) {
      BytesTaken(s, sizes, i);
      SearchSkips(s, sizes, size, i + 1);
    }
  }

  /** The next block goes exactly on top. */
  lemma PlaceIsTop(s: State, sizes: seq<nat>, size: nat)
    requires Tiles(s, sizes) && size > 0 && Total(sizes) + size <= HEAP_SIZE
    ensures Place(s, size) == Some(Total(sizes))
  {
    var top := Total(sizes);
    SearchSkips(s, sizes, size, 0);
    if top < s.pointer {
      ProbeMeans(s.tags, top, size, 0);
    }
  }

  lemma AllocateTiles(s: State, sizes: seq<nat>, size: nat)
    requires Tiles(s, sizes) && size > 0 && Total(sizes) + size <= HEAP_SIZE
    ensures Place(s, size) == Some(Total(sizes)) && Tiles(Allocated(s, size), sizes + [size])
  {
    PlaceIsTop(s, sizes, size);
    var all := sizes + [size];
    var s' := Allocated(s, size);
    assert all[..|sizes|] == sizes;
    forall b | 0 <= b < |all|
      ensures BlockTagged(s', all, b)
    {
      assert all[..b] == if b < |sizes| then sizes[..b] else sizes;
      if b < |sizes| {
        TotalGrows(sizes, b);
        assert BlockTagged(s, sizes, b);
      }
    }
  }

  lemma FreeTiles(s: State, sizes: seq<nat>)
    requires Tiles(s, sizes) && sizes != []
    ensures var rest := sizes[..|sizes| - 1];
      CanFree(s, Total(rest)) && Tiles(Freed(s, Total(rest)), rest)
  {
    var last := |sizes| - 1;
    var rest := sizes[..last];
    assert BlockTagged(s, sizes, last);
    var s' := Freed(s, Total(rest));
    forall b | 0 <= b < |rest|
      ensures BlockTagged(s', rest, b)
    {
      assert rest[..b] == sizes[..b];
      TotalGrows(rest, b);
      assert BlockTagged(s, sizes, b);
    }
  }

  datatype Op = Alloc(size: nat) | FreeLast

  /** The live blocks after a run of allocations of positive sizes that fit and of frees of the latest
      block; None when the run is not of this kind. */
  function Live(ops: seq<Op>): Option<seq<nat>> {
    if ops == [] then Some([])
    else
      var before := Live(ops[..|ops| - 1]);
      if before.None? then None
      else match ops[|ops| - 1]
        case Alloc(size) =>
          if size > 0 && Total(before.value) + size <= HEAP_SIZE then Some(before.value + [size]) else None
        case FreeLast => if before.value == [] then None else Some(before.value[..|before.value| - 1])
  }

  function After(ops: seq<Op>): (s: State)
    requires Live(ops).Some?
    ensures Tiles(s, Live(ops).value)
  {
    if ops == [] then
      FreshTiles();
      Fresh()
    else
      var before := After(ops[..|ops| - 1]);
      var live := Live(ops[..|ops| - 1]).value;
      match ops[|ops| - 1]
      case Alloc(size) => AllocateTiles(before, live, size); Allocated(before, size)
      case FreeLast => FreeTiles(before, live); Freed(before, Total(live[..|live| - 1]))
  }

  lemma FreshTiles()
    ensures Tiles(Fresh(), [])
  {
  }

  /** Over every last-in-first-out run that fits the heap, live blocks never overlap: each byte of a
      live block carries that block's size, and the next allocation lands above all of them. */
  lemma LifoIsSafe(ops: seq<Op>, size: nat)
    requires Live(ops).Some? && size > 0 && Total(Live(ops).value) + size <= HEAP_SIZE
    ensures Tiles(After(ops), Live(ops).value)
    ensures Place(After(ops), size) == Some(Total(Live(ops).value))
  {
    PlaceIsTop(After(ops), Live(ops).value, size);
  }

  // ----- Frees in any order -----

  /** The allocation can only go to free bytes: there is a gap before the heap pointer, or the bytes
      behind the pointer are free. */
  predicate Clean(s: State, size: nat) {
    SearchFrom(s, size, 0).Found? || FreeRun(s.tags, s.pointer, size)
  }

  /** In every state a block covers only free bytes if and only if the allocation is clean. */
  lemma PlaceIsFree(s: State, size: nat)
    requires size > 0 && Place(s, size).Some?
    ensures FreeRun(s.tags, Place(s, size).value, size) <==> Clean(s, size)
  {
    SearchMeans(s, size, 0);
  }

  datatype Block = Block(start: nat, size: nat) {
    predicate Covers(i: nat) {
      start <= i < start + size
    }
  }

  /** The heap and the blocks that have been allocated and not freed. */
  datatype Heap = Heap(state: State, live: seq<Block>)

  datatype Request = Take(size: nat) | Release(which: nat)

  predicate Possible(h: Heap, r: Request) {
    && Valid(h.state)
    && match r
       case Take(size) => size > 0 && Place(h.state, size).Some?
       case Release(which) => which < |h.live| && CanFree(h.state, h.live[which].start)
  }

  function Next(h: Heap, r: Request): (n: Heap)
    requires Possible(h, r)
    ensures Valid(n.state)
  {
    match r
    case Take(size) => Heap(Allocated(h.state, size), h.live + [Block(Place(h.state, size).value, size)])
    case Release(which) => Heap(Freed(h.state, h.live[which].start), h.live[..which] + h.live[which + 1..])
  }

  ghost predicate TaggedBlock(s: State, b: Block)
    requires Valid(s)
  {
    b.size > 0 && b.start + b.size <= HEAP_SIZE && forall i :: b.start <= i < b.start + b.size ==> s.tags[i] == b.size
  }

  ghost predicate Apart(b: Block, c: Block) {
    b.start + b.size <= c.start || c.start + c.size <= b.start
  }

  ghost predicate Taken(live: seq<Block>, i: nat) {
    exists b :: 0 <= b < |live| && live[b].Covers(i)
  }

  /** Live blocks are disjoint, each byte of a block carries its size, and no other byte is taken. */
  ghost predicate Sound(h: Heap) {
    && Valid(h.state)
    && (forall b :: 0 <= b < |h.live| ==> TaggedBlock(h.state, h.live[b]))
    && (forall b, c :: 0 <= b < c < |h.live| ==> Apart(h.live[b], h.live[c]))
    && (forall i :: 0 <= i < HEAP_SIZE && h.state.tags[i] > 0 ==> Taken(h.live, i))
  }

  lemma TakeSound(h: Heap, size: nat)
    requires Sound(h) && Possible(h, Take(size))
    ensures Sound(Next(h, Take(size))) <==> Clean(h.state, size)
  {
    PlaceIsFree(h.state, size);
    PlaceFits(h.state, size);
    if Clean(h.state, size) {
      TakeCleanly(h, size);
    } else {
      TakeOverlaps(h, size);
    }
  }

  lemma TakeCleanly(h: Heap, size: nat)
    requires Sound(h) && Possible(h, Take(size)) && FreeRun(h.state.tags, Place(h.state, size).value, size)
    ensures Sound(Next(h, Take(size)))
  {
    hide Place;
    PlaceFits(h.state, size);
    var n := Next(h, Take(size));
    var mine := Block(Place(h.state, size).value, size);
    forall b | 0 <= b < |h.live|
      ensures Apart(h.live[b], mine) && TaggedBlock(n.state, h.live[b])
    {
      assert TaggedBlock(h.state, h.live[b]);
      FreeIsApart(h.state, h.live[b], mine);
    }
    forall b, c | 0 <= b < c < |n.live|
      ensures Apart(n.live[b], n.live[c])
    {
      if c < |h.live| {
        assert Apart(h.live[b], h.live[c]);
      }
    }
    forall i | 0 <= i < HEAP_SIZE && n.state.tags[i] > 0
      ensures Taken(n.live, i)
    {
      if mine.Covers(i) {
        assert n.live[|h.live|].Covers(i);
      } else {
        var b :| 0 <= b < |h.live| && h.live[b].Covers(i);
        assert n.live[b].Covers(i);
      }
    }
  }

  /** A run of free bytes lies outside every live block. */
  lemma FreeIsApart(s: State, b: Block, mine: Block)
    requires Valid(s) && TaggedBlock(s, b) && FreeRun(s.tags, mine.start, mine.size) && mine.size > 0
    ensures Apart(b, mine)
  {
    var i := if b.start < mine.start then mine.start else b.start;
    if b.Covers(i) {
      assert s.tags[i] == b.size;
    }
  }

  lemma TakeOverlaps(h: Heap, size: nat)
    requires Sound(h) && Possible(h, Take(size)) && !FreeRun(h.state.tags, Place(h.state, size).value, size)
    ensures !Sound(Next(h, Take(size)))
  {
    hide Place;
    PlaceFits(h.state, size);
    var at := Place(h.state, size).value;
    var j: nat :| at <= j < at + size && h.state.tags[j] != 0;
    assert Taken(h.live, j);
    var b :| 0 <= b < |h.live| && h.live[b].Covers(j);
    var n := Next(h, Take(size));
    assert n.live[b] == h.live[b] && n.live[|h.live|] == Block(at, size);
    assert !Apart(n.live[b], n.live[|h.live|]);
  }

  lemma ReleaseTags(h: Heap, which: nat)
    requires Sound(h) && which < |h.live|
    ensures Possible(h, Release(which))
    ensures var n := Next(h, Release(which)); forall b :: 0 <= b < |n.live| ==> TaggedBlock(n.state, n.live[b])
  {
    var gone := h.live[which];
    assert TaggedBlock(h.state, gone);
    var n := Next(h, Release(which));
    forall b | 0 <= b < |n.live|
      ensures TaggedBlock(n.state, n.live[b])
    {
      var before := if b < which then b else b + 1;
      assert n.live[b] == h.live[before] && TaggedBlock(h.state, h.live[before]) && Apart(h.live[before], gone);
    }
  }

  lemma ReleaseTaken(h: Heap, which: nat)
    requires Sound(h) && which < |h.live| && Possible(h, Release(which))
    ensures var n := Next(h, Release(which));
      Valid(n.state) && forall i :: 0 <= i < HEAP_SIZE && n.state.tags[i] > 0 ==> Taken(n.live, i)
  {
    var n := Next(h, Release(which));
    forall i | 0 <= i < HEAP_SIZE && n.state.tags[i] > 0
      ensures Taken(n.live, i)
    {
      assert Taken(h.live, i);
      var b :| 0 <= b < |h.live| && h.live[b].Covers(i);
      assert n.live[if b < which then b else b - 1].Covers(i);
    }
  }

  lemma ReleaseSound(h: Heap, which: nat)
    requires Sound(h) && which < |h.live|
    ensures Possible(h, Release(which)) && Sound(Next(h, Release(which)))
  {
    var gone := h.live[which];
    assert TaggedBlock(h.state, gone);
    var n := Next(h, Release(which));
    ReleaseTags(h, which);
    ReleaseTaken(h, which);
    forall b, c | 0 <= b < c < |n.live|
      ensures Apart(n.live[b], n.live[c])
    {
      assert Apart(h.live[if b < which then b else b + 1], h.live[if c < which then c else c + 1]);
    }
  }

  /** A run of requests none of which makes the allocator leave its memory. */
  ghost predicate Runs(h: Heap, requests: seq<Request>)
    decreases |requests|
  {
    requests == [] || (Possible(h, requests[0]) && Runs(Next(h, requests[0]), requests[1..]))
  }

  ghost predicate AlwaysSound(h: Heap, requests: seq<Request>)
    requires Runs(h, requests)
    decreases |requests|
  {
    Sound(h) && (requests == [] || AlwaysSound(Next(h, requests[0]), requests[1..]))
  }

  ghost predicate AlwaysClean(h: Heap, requests: seq<Request>)
    requires Runs(h, requests)
    decreases |requests|
  {
    requests == [] ||
    ((requests[0].Take? ==> Clean(h.state, requests[0].size)) && AlwaysClean(Next(h, requests[0]), requests[1..]))
  }

  /** Over every run, with frees in any order, live blocks stay disjoint and rightly tagged if and only
      if every allocation made is clean. */
  lemma {:induction false} CleanRunsAreSound(h: Heap, requests: seq<Request>)
    requires Sound(h) && Runs(h, requests)
    ensures AlwaysSound(h, requests) <==> AlwaysClean(h, requests)
    decreases |requests|
  {
    hide Sound, Clean, Next, Possible;
    if requests != [] {
      var r := requests[0];
      match r {
        case Take(size) => TakeSound(h, size);
        case Release(which) => ReleaseSoundHere(h, which);
      }
      if Sound(Next(h, r)) {
        CleanRunsAreSound(Next(h, r), requests[1..]);
      }
    }
  }

  lemma ReleaseSoundHere(h: Heap, which: nat)
    requires Sound(h) && Possible(h, Release(which))
    ensures Sound(Next(h, Release(which)))
  {
    ReleaseSound(h, which);
  }

  lemma FreshIsSound()
    ensures Sound(Heap(Fresh(), [])) && |Fresh().tags| == 0x1_0000
  {
  }

  /** Out of order the blocks do overlap: the pointer follows a small block into a gap, and the next
      block is put where a live one still is. */
  lemma OutOfOrderOverlaps()
    ensures
      var s1 := State(Tagged(Tagged(Fresh().tags, 0, 8, 8), 8, 8, 8), 16);
      && CanFree(s1, 0) && Place(Freed(s1, 0), 4) == Some(0)
      && Place(Allocated(Freed(s1, 0), 4), 6) == Some(4)
      && 4 < 8 < 4 + 6 && s1.tags[8] == 8
  {
    var s1 := State(Tagged(Tagged(Fresh().tags, 0, 8, 8), 8, 8, 8), 16);
    var s2 := Freed(s1, 0);
    ProbeMeans(s2.tags, 0, 4, 0);
    assert SearchFrom(s2, 4, 0) == Found(0);
    var s3 := Allocated(s2, 4);
    assert s3.pointer == 4;
    assert SearchFrom(s3, 6, 4) == NotFound;
    assert SearchFrom(s3, 6, 3) == NotFound;
    assert SearchFrom(s3, 6, 2) == NotFound;
    assert SearchFrom(s3, 6, 1) == NotFound;
  }
}
