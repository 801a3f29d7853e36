/** The fixed-size memory pool of src/memory.c: a free list threaded through the very block it
    manages. */
module MemoryPools {
  import opened Arithmetic
  import opened Collections
  import opened Rounding

  // ---------------------------------------------------------------- what the pool does, on slots

  /** The slots on the free list, first to last, and the slots in the hands of clients. */
  datatype Slots = Slots(chain: seq<nat>, live: set<nat>)

  /** What clients do: allocate, release a slot, or write a word of one. */
  datatype Request = Alloc | Release(slot: nat) | Write(slot: nat, offset: nat, value: int)

  function Fresh(n: nat): Slots {
    Slots(seq(n, i requires 0 <= i < n => n - 1 - i), {})
  }

  /** Every slot below n is free or live, none is both or twice on the list. */
  ghost predicate Sound(s: Slots, n: nat) {
    && Distinct(s.chain)
    && (forall k :: k in s.chain ==> k < n && k !in s.live)
    && (forall k :: 0 <= k < n ==> k in s.chain || k in s.live)
    && (forall k :: k in s.live ==> k < n)
  }

  /** A client may release and write only what it holds; a slot has `words` words. */
  predicate Legal(s: Slots, r: Request, words: nat) {
    match r
    case Alloc => true
    case Release(k) => k in s.live
    case Write(k, offset, _) => k in s.live && offset < words
  }

  function Serve(s: Slots, r: Request): Slots {
    match r
    case Alloc => if s.chain == [] then s else Slots(s.chain[1..], s.live + {s.chain[0]})
    case Release(k) => Slots([k] + s.chain, s.live - {k})
    case Write(_, _, _) => s
  }

  predicate Serves(s: Slots, rs: seq<Request>, s': Slots, words: nat)
    decreases |rs|
  {
    if rs == [] then s == s' else Legal(s, rs[0], words) && Serves(Serve(s, rs[0]), rs[1..], s', words)
  }

  lemma ServeKeepsSound(s: Slots, r: Request, n: nat, words: nat)
    requires Sound(s, n) && Legal(s, r, words)
    ensures Sound(Serve(s, r), n)
  {
    var s' := Serve(s, r);
    if r.Alloc? && s.chain != [] {
      assert forall k :: k in s.chain <==> k == s.chain[0] || k in s'.chain;
    }
  }

  lemma NonemptyHasMember(c: seq<nat>)
    ensures c == [] || exists k :: k in c
  {
    if c != [] {
      assert c[0] in c;
    }
  }

  /** The list without the last slot of the block, which is on it. */
  lemma WithoutLast(s: Slots, n: nat) returns (rest: seq<nat>)
    requires n > 0 && Sound(s, n) && n - 1 !in s.live
    ensures |rest| + 1 == |s.chain| && Sound(Slots(rest, s.live), n - 1)
  {
    var i :| 0 <= i < |s.chain| && s.chain[i] == n - 1;
    rest := s.chain[..i] + s.chain[i + 1..];
    assert forall k :: k in rest <==> k in s.chain && k != n - 1;
  }

  /** The slots number as many as the free ones and the live ones together. */
  lemma {:induction false} SlotsCount(s: Slots, n: nat)
    requires Sound(s, n)
    ensures |s.chain| + |s.live| == n
    decreases n
  {
    if n == 0 {
      assert s.live == {};
      NonemptyHasMember(s.chain);
    } else if n - 1 in s.live {
      SlotsCount(Slots(s.chain, s.live - {n - 1}), n - 1);
    } else {
      var rest := WithoutLast(s, n);
      SlotsCount(Slots(rest, s.live), n - 1);
    }
  }

  /** After any sequence of allocations, legal releases and writes from a fresh pool of n slots, the list has
      no cycle and no repetition, and free and live slots are disjoint and make up the block. */
  lemma {:induction false} AnySequenceKeepsSound(s: Slots, rs: seq<Request>, s': Slots, n: nat, words: nat)
    requires Sound(s, n) && Serves(s, rs, s', words)
    ensures Sound(s', n) && |s'.chain| + |s'.live| == n
    decreases |rs|
  {
    if rs == [] {
      SlotsCount(s, n);
    } else {
      ServeKeepsSound(s, rs[0], n, words);
      AnySequenceKeepsSound(Serve(s, rs[0]), rs[1..], s', n, words);
    }
  }

  lemma FreshIsSound(n: nat)
    ensures Sound(Fresh(n), n)
  {
    forall k | 0 <= k < n
      ensures k in Fresh(n).chain
    {
      assert Fresh(n).chain[n - 1 - k] == k;
    }
  }

  /** Allocating m times from a fresh pool of n hands out the slots n - 1, n - 2, ..., n - m. */
  lemma {:induction false} FreshAllocations(n: nat, m: nat, s: Slots, words: nat)
    requires m <= n && Serves(Fresh(n), seq(m, _ => Alloc), s, words)
    ensures |s.chain| == n - m && (forall i :: 0 <= i < n - m ==> s.chain[i] == n - m - 1 - i)
    ensures forall k :: k in s.live <==> n - m <= k < n
  {
    var rs := seq(m, _ => Alloc);
    FreshAllocationsFrom(n, 0, Fresh(n), rs, s, words);
  }

  lemma {:induction false} FreshAllocationsFrom(n: nat, done: nat, s: Slots, rs: seq<Request>, s': Slots, words: nat)
    requires done + |rs| <= n && (forall i :: 0 <= i < |rs| ==> rs[i] == Alloc)
    requires |s.chain| == n - done && (forall i :: 0 <= i < n - done ==> s.chain[i] == n - done - 1 - i)
    requires forall k :: k in s.live <==> n - done <= k < n
    requires Serves(s, rs, s', words)
    ensures var m := done + |rs|;
            && |s'.chain| == n - m && (forall i :: 0 <= i < n - m ==> s'.chain[i] == n - m - 1 - i)
            && (forall k :: k in s'.live <==> n - m <= k < n)
    decreases |rs|
  {
    if rs != [] {
      FreshAllocationsFrom(n, done + 1, Serve(s, rs[0]), rs[1..], s', words);
    }
  }

  /** What the requests say about word `offset` of slot k: the value last written there since the slot
      was handed out, or the value of before if it has been held all along. */
  function LastWritten(rs: seq<Request>, k: nat, offset: nat, before: Option<int>): Option<int>
    decreases |rs|
  {
    if rs == [] then before
    else After(rs[|rs| - 1], k, offset, LastWritten(rs[..|rs| - 1], k, offset, before))
  }

  function After(r: Request, k: nat, offset: nat, before: Option<int>): Option<int> {
    if r.Release? && r.slot == k then None
    else if r.Write? && r.slot == k && r.offset == offset then Some(r.value)
    else before
  }

  /** Some write to the word is followed by no other, and by no release of the slot: that value is the
      last written. */
  lemma {:induction false} LastWrittenIsWritten(rs: seq<Request>, i: nat, k: nat, offset: nat, before: Option<int>)
    requires i < |rs| && rs[i].Write? && rs[i].slot == k && rs[i].offset == offset
    requires forall j :: i < j < |rs| ==> LeavesWord(rs[j], k, offset)
    ensures LastWritten(rs, k, offset, before) == Some(rs[i].value)
    decreases |rs|
  {
    if i < |rs| - 1 {
      LastWrittenIsWritten(rs[..|rs| - 1], i, k, offset, before);
    }
  }

  /** If there is no such request at all, the word is as it was before. */
  lemma {:induction false} UnwrittenIsKept(rs: seq<Request>, k: nat, offset: nat, before: Option<int>)
    requires forall j :: 0 <= j < |rs| ==> LeavesWord(rs[j], k, offset)
    ensures LastWritten(rs, k, offset, before) == before
    decreases |rs|
  {
    if rs != [] {
      UnwrittenIsKept(rs[..|rs| - 1], k, offset, before);
    }
  }

  predicate LeavesWord(r: Request, k: nat, offset: nat) {
    (r.Release? ==> r.slot != k) && (r.Write? ==> r.slot != k || r.offset != offset)
  }

  // ---------------------------------------------------------------- slot geometry

  const LINK_BITS: nat := 3     // sizeof(void*) is 8
  const LINK_BYTES: nat := 8
  const NULL: int := -1

  /** A size_t of `width` bits; it can hold sizeof(void*). */
  predicate IsSize(x: nat, width: nat) {
    width > LINK_BITS && x < Pow2(width)
  }

  /** The room a slot needs: for the object, or for the link while it is free. */
  function Room(objectSize: nat): nat {
    if objectSize < LINK_BYTES then LINK_BYTES else objectSize
  }

  /** The slot size that memory_pool_create settles on, in bytes. */
  function SlotBytes(objectSize: nat, width: nat): nat
    requires IsSize(objectSize, width)
  {
    LinkIsAWord(width);
    RoundUp(Room(objectSize), LINK_BITS, width)
  }

  lemma LinkIsAWord(width: nat)
    requires width > LINK_BITS
    ensures Pow2(LINK_BITS) == LINK_BYTES < Pow2(width)
  {
    assert Pow2(3) == 8;
    Pow2Monotone(4, width);
  }

  /** What a slot size has to meet: room for the object and for a link, in whole words. */
  ghost predicate HoldsObject(slotBytes: nat, objectSize: nat) {
    objectSize <= slotBytes && LINK_BYTES <= slotBytes && IsMultiple(slotBytes, LINK_BYTES)
  }

  /** Slots are a whole number of words that holds the object and a link, and the least such number, if
      and only if the round-up does not wrap. */
  lemma {:induction false} SlotBytesAligned(objectSize: nat, width: nat)
    requires IsSize(objectSize, width)
    ensures && HoldsObject(SlotBytes(objectSize, width), objectSize)
            && (forall b: nat :: HoldsObject(b, objectSize) ==> SlotBytes(objectSize, width) <= b)
            <==> objectSize + LINK_BYTES <= Pow2(width)
  {
    LinkIsAWord(width);
    Pow2Monotone(4, width);
    if objectSize + LINK_BYTES <= Pow2(width) {
      RoundUpIsLeastMultiple(Room(objectSize), LINK_BITS, width);
    } else {
      WrappedRoundUp(objectSize, LINK_BITS, width);
    }
  }

  /** The size of the block: the product in the arithmetic of size_t. */
  function BlockBytes(objectSize: nat, count: nat, width: nat): nat
    requires IsSize(objectSize, width)
  {
    SlotBytes(objectSize, width) * count % Pow2(width)
  }

  /** Neither the round-up nor the product wraps. */
  predicate SizesFit(objectSize: nat, count: nat, width: nat)
    requires IsSize(objectSize, width)
  {
    && objectSize + LINK_BYTES <= Pow2(width)
    && SlotBytes(objectSize, width) * count < Pow2(width)
  }

  /** Slot k lies inside the block, with the object, or the link, that it is to hold. */
  predicate SlotInBlock(objectSize: nat, count: nat, width: nat, k: nat)
    requires IsSize(objectSize, width)
  {
    var start, end := k * SlotBytes(objectSize, width), BlockBytes(objectSize, count, width);
    start + objectSize <= end && start + LINK_BYTES <= end
  }

  /** A size_t counts so many words. */
  function Words(width: nat): nat
    requires width > LINK_BITS
  {
    Pow2(width - LINK_BITS)
  }

  lemma AllWords(width: nat)
    requires width > LINK_BITS
    ensures Pow2(width) == Words(width) * LINK_BYTES && Words(width) > 0
  {
    assert Pow2(width) == 2 * Pow2(width - 1) && Pow2(width - 1) == 2 * Pow2(width - 2);
  }

  /** The slot size in words; a round-up that wraps leaves slots of no size. */
  lemma SlotInWords(objectSize: nat, width: nat) returns (slot: nat)
    requires IsSize(objectSize, width)
    ensures SlotBytes(objectSize, width) == slot * LINK_BYTES && slot <= Words(width)
    ensures if objectSize + LINK_BYTES <= Pow2(width) then slot > 0 && objectSize <= slot * LINK_BYTES
            else slot == 0
  {
    AllWords(width);
    if objectSize + LINK_BYTES <= Pow2(width) {
      SlotBytesAligned(objectSize, width);
      slot := SlotBytes(objectSize, width) / LINK_BYTES;
      QuotientRemainder(SlotBytes(objectSize, width), LINK_BYTES);
      assert HoldsObject(Pow2(width), objectSize) by {
        QuotientUnique(Pow2(width), LINK_BYTES, Words(width), 0);
      }
    } else {
      LinkIsAWord(width);
      WrappedRoundUp(objectSize, LINK_BITS, width);
      slot := 0;
    }
  }

  /** Reducing a number of bytes is reducing a number of words. */
  lemma ProductInWords(slot: nat, count: nat, limit: nat, unit: nat)
    requires limit > 0 && unit > 0
    ensures slot * unit * count == slot * count * unit
    ensures slot * unit * count % (limit * unit) == slot * count % limit * unit
    ensures slot * unit * count < limit * unit <==> slot * count < limit
  {
    var words := slot * count;
    var q, r := words / limit, words % limit;
    assert slot * unit * count == words * unit;
    QuotientRemainder(words, limit);
    assert words * unit == q * (limit * unit) + r * unit;
    MulStrict(r, limit, unit);
    QuotientUnique(words * unit, limit * unit, q, r * unit);
    MulStrict(words, limit, unit);
    MulMonotone(limit, words, unit);
  }

  /** A block whose size has wrapped ends before its last slot begins. */
  lemma WrappedTooShort(slot: nat, count: nat, limit: nat)
    requires count > 0 && slot <= limit <= slot * count && limit > 0
    ensures slot * count % limit <= (count - 1) * slot
  {
    var q := slot * count / limit;
    QuotientRemainder(slot * count, limit);
    QuotientBounds(slot * count, limit);
    MulMonotone(1, q, limit);
    assert (count - 1) * slot == slot * count - slot;
  }

  /** The block and its slots in words. If the sizes fit, the slots fill the block; if not, the last
      slot begins at the end of the block or beyond it. */
  lemma BlockInWords(objectSize: nat, count: nat, width: nat) returns (slot: nat, block: nat)
    requires IsSize(objectSize, width) && count > 0
    ensures SlotBytes(objectSize, width) == slot * LINK_BYTES
    ensures BlockBytes(objectSize, count, width) == block * LINK_BYTES
    ensures slot == 0 ==> block == 0
    ensures if SizesFit(objectSize, count, width)
            then slot > 0 && objectSize <= slot * LINK_BYTES && block == Address(count, slot)
            else block <= Address(count - 1, slot)
  {
    slot := SlotInWords(objectSize, width);
    AllWords(width);
    ProductInWords(slot, count, Words(width), LINK_BYTES);
    block := slot * count % Words(width);
    if slot * count < Words(width) {
      QuotientUnique(slot * count, Words(width), 0, slot * count);
    } else {
      WrappedTooShort(slot, count, Words(width));
    }
  }

  /** Exactly when the sizes fit, every slot of the pool lies inside the block. */
  lemma {:induction false} SlotsInBlockIff(objectSize: nat, count: nat, width: nat)
    requires objectSize > 0 && IsSize(objectSize, width) && count > 0
    ensures (forall k :: 0 <= k < count ==> SlotInBlock(objectSize, count, width, k)) <==>
              SizesFit(objectSize, count, width)
  {
    var slot, block := BlockInWords(objectSize, count, width);
    if SizesFit(objectSize, count, width) {
      forall k | 0 <= k < count
        ensures SlotInBlock(objectSize, count, width, k)
      {
        SlotEnds(k, slot, count, LINK_BYTES);
      }
    } else {
      SlotEnds(count - 1, slot, count, LINK_BYTES);
      assert !SlotInBlock(objectSize, count, width, count - 1);
    }
  }

  lemma SlotEnds(k: nat, slot: nat, count: nat, unit: nat)
    requires k < count
    ensures k * (slot * unit) == k * slot * unit
    ensures k * (slot * unit) + slot * unit <= count * slot * unit
  {
    MulStrict(k, count, slot * unit);
  }

  /** Sizes that do not fit: as many slots of one word as size_t counts words, 2^61 if it has 64 bits.
      The product is 0, and no slot lies inside. */
  lemma WrappedBlock(width: nat)
    requires width > LINK_BITS
    ensures IsSize(LINK_BYTES, width) && IsSize(Words(width), width)
    ensures BlockBytes(LINK_BYTES, Words(width), width) == 0
    ensures !SlotInBlock(LINK_BYTES, Words(width), width, 0)
  {
    LinkIsAWord(width);
    Pow2Monotone(4, width);
    UnwrappedRoundUp(LINK_BYTES, LINK_BITS, width);
    AllWords(width);
    QuotientUnique(Pow2(width), Pow2(width), 1, 0);
  }

  /** The index of the first word of slot k. */
  function Address(k: nat, size: nat): (p: nat) {
    k * size
  }

  lemma WordsApart(i: nat, j: nat, a: nat, b: nat, size: nat)
    requires i != j && a < size && b < size
    ensures Address(i, size) + a != Address(j, size) + b
  {
    MulStrict(i, j, size);
    MulStrict(j, i, size);
  }

  /** Distinct slots share no word, and every slot lies inside the block. */
  lemma {:induction false} SlotsApart(i: nat, j: nat, a: nat, b: nat, size: nat, n: nat)
    requires i < n && j < n && i != j && a < size && b < size
    ensures Address(i, size) + a != Address(j, size) + b
    ensures Address(i, size) + a < Address(n, size)
  {
    WordsApart(i, j, a, b, size);
    WordInside(i, a, size, n);
  }

  lemma WordInside(k: nat, a: nat, size: nat, n: nat)
    requires k < n && a < size
    ensures Address(k, size) + a < Address(n, size)
  {
    MulStrict(k, n, size);
  }

  /** The link to the first slot of a chain. */
  function First(chain: seq<nat>, size: nat): int {
    if chain == [] then NULL else Address(chain[0], size)
  }

  /** The first word of each slot of the chain links to the next slot. */
  ghost predicate Links(memory: seq<int>, chain: seq<nat>, size: nat) {
    forall i :: 0 <= i < |chain| ==>
      && Address(chain[i], size) < |memory|
      && memory[Address(chain[i], size)] == First(chain[i + 1..], size)
  }

  /** Linking a slot in front disturbs no other link. */
  lemma LinkInFront(memory: seq<int>, chain: seq<nat>, k: nat, size: nat)
    requires Links(memory, chain, size) && size > 0 && k !in chain && Address(k, size) < |memory|
    ensures Links(memory[Address(k, size) := First(chain, size)], [k] + chain, size)
  {
    var longer := [k] + chain;
    var memory' := memory[Address(k, size) := First(chain, size)];
    forall i | 0 <= i < |longer|
      ensures Address(longer[i], size) < |memory'|
      ensures memory'[Address(longer[i], size)] == First(longer[i + 1..], size)
    {
      if i == 0 {
        assert longer[1..] == chain;
      } else {
        assert longer[i] == chain[i - 1] && longer[i + 1..] == chain[i..];
        WordsApart(chain[i - 1], k, 0, 0, size);
      }
    }
  }

  /** Nor does writing a word of a slot that is not on the chain. */
  lemma WriteBeside(memory: seq<int>, chain: seq<nat>, k: nat, offset: nat, value: int, size: nat)
    requires Links(memory, chain, size) && k !in chain && offset < size
    requires Address(k, size) + offset < |memory|
    ensures Links(memory[Address(k, size) + offset := value], chain, size)
  {
    forall i | 0 <= i < |chain|
      ensures Address(chain[i], size) != Address(k, size) + offset
    {
      WordsApart(chain[i], k, 0, offset, size);
    }
  }

  // ---------------------------------------------------------------- the pool object

  datatype Creation = Refused | StoresOutside | Created(pool: MemoryPool)

  class MemoryPool {
    /** The block, as words of sizeof(void*) bytes. A link is the index of the next free slot's first
        word, or NULL. */
    const memory: array<int>
    const slotWords: nat
    const totalCount: nat
    var freeList: int
    var allocatedCount: int
    ghost var slots: Slots

    /** The list that starts in freeList runs through the slots of the chain in order. */
    ghost predicate Linked()
      reads this, memory
    {
      freeList == First(slots.chain, slotWords) && Links(memory[..], slots.chain, slotWords)
    }

    ghost predicate Valid()
      reads this, memory
    {
      && slotWords > 0 && memory.Length == Address(totalCount, slotWords)
      && Sound(slots, totalCount)
      && Linked()
      && allocatedCount == |slots.live|
    }

    /** memory_pool_create, for any sizes. The code checks only for zero; sizes that do not fit make
        its loop store a link outside the block, and that is as far as the model goes. */
    static method Create(objectSize: nat, count: nat, width: nat) returns (outcome: Creation)
      requires IsSize(objectSize, width) && IsSize(count, width)
      ensures outcome.Refused? <==> objectSize == 0 || count == 0
      ensures outcome.StoresOutside? <==> objectSize != 0 && count != 0 && !SizesFit(objectSize, count, width)
      ensures outcome.Created? ==> var pool := outcome.pool;
                && pool.Valid() && fresh(pool) && fresh(pool.memory) && pool.slots == Fresh(count)
                && pool.totalCount == count && pool.slotWords * LINK_BYTES == SlotBytes(objectSize, width)
                && objectSize <= pool.slotWords * LINK_BYTES
                && pool.memory.Length * LINK_BYTES == BlockBytes(objectSize, count, width)
    {
      if objectSize == 0 || count == 0 {
        return Refused;
      }
      ghost var slot, block := BlockInWords(objectSize, count, width);
      var slotBytes, blockBytes := SlotBytes(objectSize, width), BlockBytes(objectSize, count, width);
      QuotientUnique(slotBytes, LINK_BYTES, slot, 0);
      QuotientUnique(blockBytes, LINK_BYTES, block, 0);
      outcome := Build(slotBytes / LINK_BYTES, count, blockBytes / LINK_BYTES);
    }

    /** The part of memory_pool_create after the sizes are settled, in words. */
    static method Build(slotWords: nat, count: nat, blockWords: nat) returns (outcome: Creation)
      requires count > 0 && (slotWords == 0 ==> blockWords == 0)
      requires blockWords == Address(count, slotWords) || blockWords <= Address(count - 1, slotWords)
      ensures outcome.Created? <==> slotWords > 0 && blockWords == Address(count, slotWords)
      ensures outcome.Created? || outcome.StoresOutside?
      ensures outcome.Created? ==> var pool := outcome.pool;
                && pool.Valid() && fresh(pool) && fresh(pool.memory) && pool.slots == Fresh(count)
                && pool.totalCount == count && pool.slotWords == slotWords && pool.memory.Length == blockWords
    {
      var pool := new MemoryPool(slotWords, count, blockWords);
      forall k | 0 <= k < count && slotWords > 0
        ensures Address(k, slotWords) < Address(count, slotWords)
      {
        WordInside(k, 0, slotWords, count);
      }
      var inside := pool.ThreadList();
      if !inside {
        return StoresOutside;
      }
      assert Address(count - 1, slotWords) < blockWords;
      FreshIsSound(count);
      outcome := Created(pool);
    }

    /** The block, before any slot is on the list. */
    constructor (slotWords: nat, count: nat, blockWords: nat)
      ensures fresh(memory) && memory.Length == blockWords
      ensures this.slotWords == slotWords && totalCount == count
      ensures freeList == NULL && allocatedCount == 0 && slots == Fresh(0)
    {
      this.slotWords, totalCount := slotWords, count;
      memory := new int[blockWords];
      allocatedCount, freeList := 0, NULL;
      slots := Fresh(0);
    }

    /** The loop of memory_pool_create, up to the first store outside the block. */
    method ThreadList() returns (inside: bool)
      requires freeList == NULL && slots == Fresh(0)
      requires slotWords == 0 ==> memory.Length == 0
      modifies this`freeList, this`slots, memory
      ensures inside <==> forall k :: 0 <= k < totalCount ==> Address(k, slotWords) < memory.Length
      ensures inside ==> Linked() && slots == Fresh(totalCount)
    {
      for i := 0 to totalCount
        invariant slots == Fresh(i) && Linked()
        invariant forall k :: 0 <= k < i ==> Address(k, slotWords) < memory.Length
      {
        var p := Address(i, slotWords);
        if p >= memory.Length {
          return false;
        }
        LinkInFront(memory[..], slots.chain, i, slotWords);
        assert Fresh(i + 1).chain == [i] + slots.chain;
        memory[p] := freeList;
        freeList := p;
        slots := Fresh(i + 1);
      }
      inside := true;
    }

    /** memory_pool_alloc: never a live slot, and NULL only when all are live. The block itself is
        not touched, so neither is any client's data. */
    method Alloc() returns (p: int)
      requires Valid()
      modifies this`freeList, this`allocatedCount, this`slots
      ensures Valid() && slots == Serve(old(slots), Request.Alloc)
      ensures p == NULL <==> |old(slots.live)| == totalCount
      ensures p != NULL ==>
                && old(slots.chain) != [] && old(slots.chain)[0] < totalCount
                && old(slots.chain)[0] !in old(slots.live) && old(slots.chain)[0] in slots.live
                && p == Address(old(slots.chain)[0], slotWords)
    {
      SlotsCount(slots, totalCount);
      if freeList == NULL {
        return NULL;
      }
      p := freeList;
      freeList := memory[p];
      allocatedCount := allocatedCount + 1;
      ServeKeepsSound(slots, Request.Alloc, totalCount, slotWords);
      assert slots.chain[0] in slots.chain;
      slots := Serve(slots, Request.Alloc);
    }

    /** memory_pool_free of a live slot, or of NULL, which is ignored: the slot becomes the first of
        the list, and no word but its own first is written. */
    method Free(p: int, ghost k: nat)
      requires Valid() && (p == NULL || (k in slots.live && p == Address(k, slotWords)))
      modifies this`freeList, this`allocatedCount, this`slots, memory
      ensures Valid() && slots == (if p == NULL then old(slots) else Serve(old(slots), Release(k)))
      ensures forall j :: 0 <= j < memory.Length && j != p ==> memory[j] == old(memory[j])
    {
      if p == NULL {
        return;
      }
      WordInside(k, 0, slotWords, totalCount);
      LinkInFront(memory[..], slots.chain, k, slotWords);
      ServeKeepsSound(slots, Release(k), totalCount, slotWords);
      memory[p] := freeList;
      freeList := p;
      allocatedCount := allocatedCount - 1;
      slots := Serve(slots, Release(k));
    }

    /** A client writes a word of a slot it holds: whatever it writes, first word included, the
        list survives. */
    method ClientWrite(p: int, offset: nat, value: int, ghost k: nat)
      requires Valid() && k in slots.live && p == Address(k, slotWords) && offset < slotWords
      modifies memory
      ensures Valid() && slots == old(slots)
      ensures 0 <= p + offset < memory.Length && memory[p + offset] == value
      ensures forall j :: 0 <= j < memory.Length && j != p + offset ==> memory[j] == old(memory[j])
    {
      WordInside(k, offset, slotWords, totalCount);
      WriteBeside(memory[..], slots.chain, k, offset, value, slotWords);
      memory[p + offset] := value;
    }

    /** What a client finds in a word of a slot it holds. */
    ghost function ClientData(k: nat, offset: nat): Option<int>
      reads this, memory
    {
      if k in slots.live && offset < slotWords && Address(k, slotWords) + offset < memory.Length
      then Some(memory[Address(k, slotWords) + offset]) else None
    }

    /** One request, carried out on the block. */
    method Perform(r: Request)
      requires Valid() && Legal(slots, r, slotWords)
      modifies this`freeList, this`allocatedCount, this`slots, memory
      ensures Valid() && slots == Serve(old(slots), r)
      ensures forall k, offset :: After(r, k, offset, old(ClientData(k, offset))).Some? ==>
                ClientData(k, offset) == After(r, k, offset, old(ClientData(k, offset)))
    {
      match r {
        case Alloc =>
          var _ := Alloc();
        case Release(j) =>
          Free(Address(j, slotWords), j);
        case Write(j, offset, value) =>
          ClientWrite(Address(j, slotWords), offset, value, j);
      }
      forall k, offset | After(r, k, offset, old(ClientData(k, offset))).Some?
        ensures ClientData(k, offset) == After(r, k, offset, old(ClientData(k, offset)))
      {
        if !r.Alloc? && k != r.slot {
          WordsApart(k, r.slot, offset, if r.Write? then r.offset else 0, slotWords);
        }
      }
    }

    /** Any sequence of allocations, legal releases and writes, carried out on the one block that holds
        both the list and the clients' data: the list survives, and whoever holds a slot finds in each
        word of it what was last written there. */
    method Run(rs: seq<Request>, ghost goal: Slots)
      requires Valid() && Serves(slots, rs, goal, slotWords)
      modifies this`freeList, this`allocatedCount, this`slots, memory
      ensures Valid() && slots == goal
      ensures forall k, offset :: LastWritten(rs, k, offset, old(ClientData(k, offset))).Some? ==>
                ClientData(k, offset) == LastWritten(rs, k, offset, old(ClientData(k, offset)))
    {
      for i := 0 to |rs|
        invariant Valid() && Serves(slots, rs[i..], goal, slotWords)
        invariant forall k, offset :: LastWritten(rs[..i], k, offset, old(ClientData(k, offset))).Some? ==>
                    ClientData(k, offset) == LastWritten(rs[..i], k, offset, old(ClientData(k, offset)))
      {
        assert rs[i..][0] == rs[i] && rs[i..][1..] == rs[i + 1..];
        assert rs[..i + 1][i] == rs[i] && rs[..i + 1][..i] == rs[..i];
        Perform(rs[i]);
      }
      assert rs[..|rs|] == rs;
    }

    /** memory_pool_allocated and memory_pool_available. */
    method Allocated() returns (n: int)
      requires Valid()
      ensures n == |slots.live|
    {
      n := allocatedCount;
    }

    method Available() returns (n: int)
      requires Valid()
      ensures n == |slots.chain| && n >= 0
    {
      SlotsCount(slots, totalCount);
      n := totalCount - allocatedCount;
    }
  }
}
