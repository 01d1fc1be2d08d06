// The table values are allocated from: slots handed out in order, released slots kept in a list
// and handed out again last released first.

module SlotAllocator {
  datatype FreeList = Empty | Node(index: nat, next: FreeList)

  /** `capacity` is never 0: it starts at 4096 and doubles. */
  datatype Table = Table(size: nat, capacity: nat, head: FreeList)

  const INITIAL: nat := 4096

  function Indices(l: FreeList): seq<nat> {
    match l
    case Empty => []
    case Node(index, next) => [index] + Indices(next)
  }

  // ---------------------------------------------------------------- Specification

  function Resized(t: Table): Table {
    if t.size < t.capacity - 1 then t else t.(capacity := t.capacity * 2)
  }

  function Alloc(t: Table): (Table, nat) {
    match t.head
    case Node(index, next) => (t.(head := next), index)
    case Empty => (Resized(t).(size := t.size + 1), t.size)
  }

  function Release(t: Table, index: nat): Table {
    t.(head := Node(index, t.head))
  }

  datatype Call = Allocate | Free(index: nat)

  /** A table with the slots its clients hold, and the most they ever held at once. */
  datatype History = History(table: Table, live: set<nat>, peak: nat)

  const START: History := History(Table(0, INITIAL, Empty), {}, 0)

  function Max(a: nat, b: nat): nat {
    if a < b then b else a
  }

  function Called(h: History, c: Call): History {
    match c
    case Allocate =>
      var (t, index) := Alloc(h.table);
      History(t, h.live + {index}, Max(h.peak, |h.live + {index}|))
    case Free(index) => History(Release(h.table, index), h.live - {index}, h.peak)
  }

  function After(h: History, calls: seq<Call>): History
    decreases |calls|
  {
    if calls == [] then h else After(Called(h, calls[0]), calls[1..])
  }

  /** Only held slots are released. */
  predicate Proper(h: History, calls: seq<Call>)
    decreases |calls|
  {
    calls == []
    || ((calls[0].Free? ==> calls[0].index in h.live) && Proper(Called(h, calls[0]), calls[1..]))
  }

  // ---------------------------------------------------------------- What every run keeps

  ghost predicate Distinct(s: seq<nat>) {
    forall i, j :: 0 <= i < j < |s| ==> s[i] != s[j]
  }

  /** The initial capacity, doubled any number of times. */
  predicate Doubled(capacity: nat) {
    capacity == INITIAL || (capacity > INITIAL && capacity % 2 == 0 && Doubled(capacity / 2))
  }

  /**
   * The free list holds every slot below `size` that no client holds, once; together they are all
   * the slots handed out so far; there were never more slots than clients held at some time; and the
   * capacity is the smallest one above their number that doubling reaches.
   */
  ghost predicate Sound(h: History) {
    var free := Indices(h.table.head);
    && Distinct(free)
    && (forall i :: i in free ==> i !in h.live)
    && (forall i: nat :: i in h.live || i in free <==> i < h.table.size)
    && |h.live| + |free| == h.table.size
    && h.table.size < h.table.capacity
    && Doubled(h.table.capacity) && (h.table.capacity == INITIAL || h.table.capacity <= 2 * h.table.size)
    && h.table.size == h.peak
  }

  lemma AllocKeeps(h: History)
    requires Sound(h)
    ensures Sound(Called(h, Allocate))
    ensures Alloc(h.table).1 !in h.live
  {
    var l := h.table.head;
    var index := Alloc(h.table).1;
    var free := Indices(l);
    match l {
      case Node(_, next) =>
        assert free[0] == index && free[1..] == Indices(next);
        assert forall i :: i in free <==> i == index || i in Indices(next);
      case Empty =>
    }
  }

  lemma FreeKeeps(h: History, index: nat)
    requires Sound(h) && index in h.live
    ensures Sound(Called(h, Free(index)))
  {
    var free, after := Indices(h.table.head), Indices(Release(h.table, index).head);
    assert after == [index] + free;
    assert forall i :: i in after <==> i == index || i in free;
  }

  /** Releasing a slot keeps the table sound exactly when a client holds the slot. */
  lemma FreeKeepsExactlyWhenHeld(h: History, index: nat)
    requires Sound(h)
    ensures Sound(Called(h, Free(index))) <==> index in h.live
  {
    if index in h.live {
      FreeKeeps(h, index);
    } else {
      var after := Indices(Release(h.table, index).head);
      assert after == [index] + Indices(h.table.head);
      assert h.live - {index} == h.live;
    }
  }

  ghost predicate AlwaysSound(h: History, calls: seq<Call>)
    decreases |calls|
  {
    Sound(h) && (calls == [] || AlwaysSound(Called(h, calls[0]), calls[1..]))
  }

  lemma {:induction false} RunSoundExactlyWhen(h: History, calls: seq<Call>)
    requires Sound(h)
    ensures AlwaysSound(h, calls) <==> Proper(h, calls)
    decreases |calls|
  {
    hide Sound;
    if calls != [] {
      match calls[0] {
        case Allocate => AllocKeeps(h);
        case Free(index) => FreeKeepsExactlyWhenHeld(h, index);
      }
      if Sound(Called(h, calls[0])) {
        RunSoundExactlyWhen(Called(h, calls[0]), calls[1..]);
      }
    }
  }

  /** A run keeps the table sound throughout exactly when it releases only held slots. */
  lemma EveryRun(calls: seq<Call>)
    ensures AlwaysSound(START, calls) <==> Proper(START, calls)
    ensures Proper(START, calls) ==> Sound(After(START, calls))
  {
    var free := Indices(START.table.head);
    assert free == [] && Distinct(free);
    assert START.live == {} && |START.live| + |free| == 0;
    assert forall i: nat :: i in START.live || i in free <==> i < START.table.size;
    RunSoundExactlyWhen(START, calls);
    if Proper(START, calls) { EndsSound(START, calls); }
  }

  lemma {:induction false} EndsSound(h: History, calls: seq<Call>)
    requires AlwaysSound(h, calls)
    ensures Sound(After(h, calls))
    decreases |calls|
  {
    hide Sound;
    if calls != [] { EndsSound(Called(h, calls[0]), calls[1..]); }
  }

  /** A slot that was just released is the next to be handed out, and the list is as before. */
  lemma AllocUndoesRelease(t: Table, index: nat)
    ensures Alloc(Release(t, index)) == (t, index)
  {
  }

  /** Slots released one after the other come back in the opposite order. */
  lemma {:induction false} LastReleasedFirst(t: Table, s: seq<nat>)
    ensures Indices(ReleasedAll(t, s).head) == Backwards(s) + Indices(t.head)
    ensures AllocatedAll(ReleasedAll(t, s), |s|) == (t, Backwards(s))
  {
    if s != [] {
      var last := |s| - 1;
      LastReleasedFirst(t, s[..last]);
    }
  }

  function ReleasedAll(t: Table, s: seq<nat>): Table {
    if s == [] then t else Release(ReleasedAll(t, s[..|s| - 1]), s[|s| - 1])
  }

  function AllocatedAll(t: Table, n: nat): (Table, seq<nat>)
    decreases n
  {
    if n == 0 then (t, [])
    else
      var (first, index) := Alloc(t);
      var (rest, indices) := AllocatedAll(first, n - 1);
      (rest, [index] + indices)
  }

  function Backwards(s: seq<nat>): seq<nat> {
    if s == [] then [] else [s[|s| - 1]] + Backwards(s[..|s| - 1])
  }

  // ---------------------------------------------------------------- The table itself

  class ValueTable {
    var size: nat
    var capacity: nat
    var nofree: array<bool>
    var head: FreeList

    ghost predicate Valid()
      reads this
    {
      nofree.Length == capacity && size < capacity && forall i :: i in Indices(head) ==> i < size
    }

    function Value(): Table
      reads this
    {
      Table(size, capacity, head)
    }

    constructor ()
      ensures Valid() && fresh(nofree) && Value() == START.table
    {
      size, capacity, head := 0, INITIAL, Empty;
      nofree := new bool[INITIAL](i => false);
    }

    method Resize() returns (resized: bool)
      requires Valid()
      modifies this`capacity, this`nofree
      ensures Valid() && (nofree == old(nofree) || fresh(nofree))
      ensures Value() == Resized(old(Value())) && nofree[..size] == old(nofree[..size])
      ensures resized == (old(size) >= old(capacity) - 1) && size + 1 < capacity
    {
      if size < capacity - 1 { return false; }
      var bigger := new bool[capacity * 2](i => false);
      forall i | 0 <= i < capacity { bigger[i] := nofree[i]; }
      assert bigger[..size] == nofree[..size];
      nofree := bigger;
      capacity := capacity * 2;
      resized := true;
    }

    /** A released slot comes back as it was left; a new one may be freed with its scope. */
    method Allocate() returns (index: nat)
      requires Valid()
      modifies this, nofree
      ensures Valid() && (nofree == old(nofree) || fresh(nofree))
      ensures (Value(), index) == Alloc(old(Value()))
      ensures nofree[..size] == old(nofree[..size]) + if old(head).Empty? then [false] else []
    {
      if head.Node? {
        assert forall i :: i in Indices(head.next) ==> i in Indices(head);
        index := head.index;
        head := head.next;
      } else {
        var _ := Resize();
        index := size;
        nofree[index] := false;
        size := size + 1;
        assert nofree[..size] == old(nofree[..size]) + [false];
      }
    }

    method Free(index: nat)
      requires Valid() && index < size
      modifies this`head, nofree
      ensures Valid()
      ensures Value() == Release(old(Value()), index)
      ensures nofree[..size] == old(nofree[..size])[index := true]
    {
      head := Node(index, head);
      nofree[index] := true;
    }
  }
}
