/**
  The open-addressing, linear-probing hash table of src/valmap.c and its meaning as a finite map
  from names to bindings.
*/
module ValueMap {
  import opened Ast
  import opened Hash

  const VALMAP_DEFAULT_SIZE: nat := 20

  datatype Binding = Binding(value: Val, isConst: bool)

  type Bindings = map<string, Binding>

  // A slot whose key pointer is NULL is Vacant.
  datatype Slot = Vacant | Used(key: string, value: Val, isConst: bool)

  datatype Mode = NoOverwrite | NoCreate | Default

  datatype Status = SetOk | SetExists | SetNotFound | SetIsConst

  // What one write does to the map. Without a status pointer (checked is false) the mode and the
  // const flag of an existing entry are ignored; in no case does an entry's const flag change.
  function Write(m: Bindings, key: string, value: Val, isConst: bool, mode: Mode, checked: bool): (Bindings, Status) {
    if key in m then
      if checked && mode == NoOverwrite then (m, SetExists)
      else if checked && m[key].isConst then (m, SetIsConst)
      else (m[key := Binding(value, m[key].isConst)], SetOk)
    else if checked && mode == NoCreate then (m, SetNotFound)
    else (m[key := Binding(value, isConst)], SetOk)
  }

  // A table as large as the next write finds it: 1.25 * elements >= capacity, then double. The
  // check comes before every write, also before one that adds or changes nothing.
  predicate Due(elements: nat, capacity: nat) { 5 * elements >= 4 * capacity }

  function Room(elements: nat, capacity: nat): nat {
    if Due(elements, capacity) then 2 * capacity else capacity
  }

  lemma RoomGrows(elements: nat, capacity: nat)
    ensures Room(elements, capacity) >= capacity
  {
  }

  // The sizes of the tables that always keep a vacant slot; FreeSlotForever says why.
  type Capacity = c: nat | c >= 5 witness 5

  function Get(m: Bindings, key: string): Option<Val> {
    if key in m then Some(m[key].value) else None
  }

  // ----- the probing order -----

  // How many steps the probe takes from one slot to another, wrapping at the end of the array.
  function Dist(capacity: nat, from: nat, to: nat): nat
    requires from < capacity && to < capacity
  {
    if from <= to then to - from else to + capacity - from
  }

  function Following(capacity: nat, slot: nat): nat {
    if slot + 1 >= capacity then 0 else slot + 1
  }

  // Every slot that a probe starting at home visits before it reaches p is in use.
  ghost predicate Clustered(s: seq<Slot>, home: nat, p: nat)
    requires home < |s| && p < |s|
  {
    forall j :: 0 <= j < |s| && Dist(|s|, home, j) < Dist(|s|, home, p) ==> s[j].Used?
  }

  // ... and none of them holds the key.
  ghost predicate Passed(s: seq<Slot>, key: string, home: nat, p: nat)
    requires home < |s| && p < |s|
  {
    forall j :: 0 <= j < |s| && Dist(|s|, home, j) < Dist(|s|, home, p) ==> s[j].Used? && s[j].key != key
  }

  // The array s stores exactly the bindings m, the key k in slot at[k].
  ghost predicate Stores(s: seq<Slot>, m: Bindings, at: map<string, nat>) {
    && m.Keys == at.Keys
    && (forall k :: k in m ==> at[k] < |s| && s[at[k]] == Used(k, m[k].value, m[k].isConst))
    && (forall i :: 0 <= i < |s| && s[i].Used? ==> s[i].key in m && at[s[i].key] == i)
  }

  // The probe for every stored key reaches its slot.
  ghost predicate Reachable(s: seq<Slot>, at: map<string, nat>) {
    forall k :: k in at ==> at[k] < |s| && Clustered(s, Home(|s|, k), at[k])
  }

  ghost predicate Represents(s: seq<Slot>, m: Bindings, at: map<string, nat>) {
    Stores(s, m, at) && Reachable(s, at)
  }

  // ----- a table with fewer elements than slots has a vacant slot -----

  ghost function KeysBelow(s: seq<Slot>, n: nat): set<string>
    requires n <= |s|
  {
    set i | 0 <= i < n && s[i].Used? :: s[i].key
  }

  lemma {:induction false} FullPrefix(s: seq<Slot>, m: Bindings, at: map<string, nat>, n: nat)
    requires Stores(s, m, at) && n <= |s|
    requires forall i :: 0 <= i < n ==> s[i].Used?
    ensures |KeysBelow(s, n)| == n
  {
    if n == 0 {
    } else {
      FullPrefix(s, m, at, n - 1);
      assert KeysBelow(s, n) == KeysBelow(s, n - 1) + {s[n - 1].key};
    }
  }

  lemma {:induction false} Subset<T>(a: set<T>, b: set<T>)
    requires a <= b
    ensures |a| <= |b|
  {
    assert b == a + (b - a);
  }

  lemma SomeVacancy(s: seq<Slot>, m: Bindings, at: map<string, nat>)
    requires Represents(s, m, at) && |m| < |s|
    ensures exists free :: 0 <= free < |s| && s[free].Vacant?
  {
    hide Home;
    if forall i :: 0 <= i < |s| ==> s[i].Used? {
      FullPrefix(s, m, at, |s|);
      Subset(KeysBelow(s, |s|), m.Keys);
    }
  }

  // A probe that stops at p has found the key, or has shown that it is not stored.
  lemma ProbeDecides(s: seq<Slot>, m: Bindings, at: map<string, nat>, key: string, p: nat)
    requires Represents(s, m, at) && p < |s|
    requires Passed(s, key, Home(|s|, key), p)
    requires s[p].Used? ==> s[p].key == key
    ensures (s[p].Used? <==> key in m) && (key in at <==> key in m)
    ensures key in m ==> p == at[key] && s[p] == Used(key, m[key].value, m[key].isConst)
  {
    hide Home;
    if key in m {
      var home, q := Home(|s|, key), at[key];
      assert Clustered(s, home, q);
      assert Dist(|s|, home, q) == Dist(|s|, home, p);
    }
  }

  // ----- one array -----

  // The probe loop of valmap_get and valmap_set_entry.
  method Probe(slots: array<Slot>, key: string) returns (index: nat)
    requires slots.Length > 0
    requires exists free :: 0 <= free < slots.Length && slots[free].Vacant?
    ensures index < slots.Length
    ensures slots[index].Used? ==> slots[index].key == key
    ensures Passed(slots[..], key, Home(slots.Length, key), index)
  {
    hide Home;
    ghost var free :| 0 <= free < slots.Length && slots[free].Vacant?;
    index := HashKey(slots.Length, key);
    ghost var home := index;
    while slots[index].Used?
      invariant index < slots.Length
      invariant Dist(slots.Length, home, index) <= Dist(slots.Length, home, free)
      invariant Passed(slots[..], key, home, index)
      decreases Dist(slots.Length, home, free) - Dist(slots.Length, home, index)
    {
      if slots[index].key == key {
        return;
      }
      index := index + 1;
      if index >= slots.Length {
        index := 0;
      }
    }
  }

  lemma StoredSlots(s: seq<Slot>, m: Bindings, at: map<string, nat>, key: string, b: Binding, p: nat)
    requires Stores(s, m, at) && p < |s|
    requires key in m ==> p == at[key]
    requires s[p].Used? ==> key in m
    ensures Stores(s[p := Used(key, b.value, b.isConst)], m[key := b], at[key := p])
  {
  }

  // Writing the slot at which the probe for a key stopped keeps the representation.
  lemma StoredBinding(s: seq<Slot>, m: Bindings, at: map<string, nat>, key: string, b: Binding, p: nat)
    requires Represents(s, m, at) && p < |s|
    requires Passed(s, key, Home(|s|, key), p)
    requires s[p].Used? ==> s[p].key == key
    ensures Represents(s[p := Used(key, b.value, b.isConst)], m[key := b], at[key := p])
  {
    hide Home, Stores;
    ProbeDecides(s, m, at, key, p);
    var s' := s[p := Used(key, b.value, b.isConst)];
    var m', at' := m[key := b], at[key := p];
    StoredSlots(s, m, at, key, b, p);
    forall k | k in at'
      ensures at'[k] < |s'| && Clustered(s', Home(|s'|, k), at'[k])
    {
      if k != key {
        assert Clustered(s, Home(|s|, k), at[k]);
      }
    }
  }

  method SetEntry(slots: array<Slot>, key: string, value: Val, isConst: bool, mode: Mode, checked: bool,
                  ghost m: Bindings, ghost at: map<string, nat>)
    returns (status: Status, added: bool, ghost m': Bindings, ghost at': map<string, nat>)
    requires Represents(slots[..], m, at) && |m| < slots.Length
    modifies slots
    ensures Represents(slots[..], m', at')
    ensures (m', status) == Write(m, key, value, isConst, mode, checked)
    ensures |m'| == if added then |m| + 1 else |m|
    ensures forall k :: k in at ==> k in at' && at'[k] == at[k]
  {
    hide Represents, Clustered, Passed;
    status, added, m', at' := SetOk, false, m, at;
    SomeVacancy(slots[..], m, at);
    var index := Probe(slots, key);
    ProbeDecides(slots[..], m, at, key, index);
    if slots[index].Used? {
      if mode == NoOverwrite && checked {
        status := SetExists;
        return;
      }
      if slots[index].isConst && checked {
        status := SetIsConst;
        return;
      }
      m', at' := m[key := Binding(value, m[key].isConst)], at[key := index];
      StoredBinding(slots[..], m, at, key, m'[key], index);
      ghost var s := slots[..][index := Used(key, value, m[key].isConst)];
      slots[index] := Used(key, value, slots[index].isConst);
      assert slots[..] == s;
      assert m'.Keys == m.Keys;
      return;
    }
    if mode == NoCreate && checked {
      status := SetNotFound;
      return;
    }
    m', at' := m[key := Binding(value, isConst)], at[key := index];
    StoredBinding(slots[..], m, at, key, m'[key], index);
    ghost var s := slots[..][index := Used(key, value, isConst)];
    slots[index] := Used(key, value, isConst);
    assert slots[..] == s;
    added := true;
    assert m'.Keys == m.Keys + {key};
  }

  // ----- rehashing -----

  // The bindings whose slot is one of the first n.
  ghost function StoredBelow(m: Bindings, at: map<string, nat>, n: nat): Bindings {
    map k | k in m && k in at && at[k] < n :: m[k]
  }

  lemma NextStored(s: seq<Slot>, m: Bindings, at: map<string, nat>, n: nat)
    requires Represents(s, m, at) && n < |s|
    ensures s[n].Vacant? ==> StoredBelow(m, at, n + 1) == StoredBelow(m, at, n)
    ensures s[n].Used? ==> s[n].key !in StoredBelow(m, at, n)
    ensures s[n].Used? ==> StoredBelow(m, at, n + 1) == StoredBelow(m, at, n)[s[n].key := Binding(s[n].value, s[n].isConst)]
    ensures |StoredBelow(m, at, n)| <= |m|
  {
    hide Home, Reachable;
    Subset(StoredBelow(m, at, n).Keys, m.Keys);
  }

  lemma AllStored(s: seq<Slot>, m: Bindings, at: map<string, nat>)
    requires Represents(s, m, at)
    ensures StoredBelow(m, at, |s|) == m && StoredBelow(m, at, 0) == map[]
  {
    hide Home;
  }

  lemma EmptyTable(s: seq<Slot>)
    requires forall i :: 0 <= i < |s| ==> s[i].Vacant?
    ensures Represents(s, map[], map[])
  {
  }

  // valmap_realloc: every used slot of the old array is entered again, without status checks.
  method Rehash(oldSlots: array<Slot>, newCapacity: nat, ghost m: Bindings, ghost at: map<string, nat>)
    returns (slots: array<Slot>, ghost at': map<string, nat>)
    requires Represents(oldSlots[..], m, at) && |m| < newCapacity
    ensures fresh(slots) && slots.Length == newCapacity
    ensures Represents(slots[..], m, at')
  {
    hide Represents;
    slots := new Slot[newCapacity](_ => Vacant);
    ghost var done: Bindings := map[];
    at' := map[];
    EmptyTable(slots[..]);
    AllStored(oldSlots[..], m, at);
    for i := 0 to oldSlots.Length
      invariant fresh(slots) && slots.Length == newCapacity
      invariant done == StoredBelow(m, at, i)
      invariant Represents(slots[..], done, at')
    {
      NextStored(oldSlots[..], m, at, i);
      if oldSlots[i].Used? {
        var status, added;
        status, added, done, at' :=
          SetEntry(slots, oldSlots[i].key, oldSlots[i].value, oldSlots[i].isConst, NoCreate, false, done, at');
      }
    }
  }

  // ----- what the representation determines -----

  // An array stands for one map only.
  lemma OneMeaning(s: seq<Slot>, m: Bindings, at: map<string, nat>, m': Bindings, at': map<string, nat>)
    requires Represents(s, m, at) && Represents(s, m', at')
    ensures m == m'
  {
    hide Home;
    forall k | k in m
      ensures k in m' && m'[k] == m[k]
    {
      assert s[at[k]].key == k;
    }
    forall k | k in m'
      ensures k in m
    {
      assert s[at'[k]].key == k;
    }
  }

  // Element count and capacity after n further insertions of new keys, each preceded by the check.
  function Grown(elements: nat, capacity: nat, n: nat): (nat, nat)
    decreases n
  {
    if n == 0 then (elements, capacity) else Grown(elements + 1, Room(elements, capacity), n - 1)
  }

  lemma {:induction false} GrownKeepsRoom(elements: nat, capacity: nat, n: nat)
    requires capacity >= 5 && elements < capacity
    ensures Grown(elements, capacity, n).0 < Grown(elements, capacity, n).1
    decreases n
  {
    if n == 0 {
    } else {
      GrownKeepsRoom(elements + 1, Room(elements, capacity), n - 1);
    }
  }

  predicate Doubled(start: nat, size: nat)
    decreases size
  {
    size == start || (size > start && size % 2 == 0 && Doubled(start, size / 2))
  }

  lemma {:induction false} DoubledFurther(start: nat, size: nat)
    requires start > 0 && Doubled(2 * start, size)
    ensures Doubled(start, size) && size >= 2 * start
    decreases size
  {
    if 2 * start < size {
      DoubledFurther(start, size / 2);
    }
  }

  // The size of a table after n insertions is the smallest that doubling reaches of which the
  // elements that the last of them found fill less than four fifths.
  lemma {:induction false} TableSize(elements: nat, capacity: nat, n: nat)
    requires capacity >= 5 && elements < capacity && n > 0
    ensures var (e, c) := Grown(elements, capacity, n);
      e == elements + n && Doubled(capacity, c) && 5 * (e - 1) < 4 * c && (c > capacity ==> 5 * (e - 1) >= 4 * (c / 2))
    decreases n
  {
    var c := Room(elements, capacity);
    assert Grown(elements + 1, c, 0) == (elements + 1, c);
    if n > 1 {
      TableSize(elements + 1, c, n - 1);
      if c > capacity {
        DoubledFurther(capacity, Grown(elements, capacity, n).1);
      }
    }
  }

  lemma {:induction false} FillsUp(elements: nat, capacity: nat)
    requires elements <= capacity < 5
    ensures Grown(elements, capacity, capacity - elements) == (capacity, capacity)
    decreases capacity - elements
  {
    if elements < capacity {
      FillsUp(elements + 1, capacity);
    }
  }

  // A vacant slot, and with it the end of every probe, is guaranteed exactly for initial sizes
  // of five and more; smaller tables fill up before they are ever doubled.
  lemma FreeSlotForever(capacity: nat)
    ensures (forall n: nat :: Grown(0, capacity, n).0 < Grown(0, capacity, n).1) <==> capacity >= 5
  {
    if capacity >= 5 {
      forall n: nat {
        GrownKeepsRoom(0, capacity, n);
      }
    } else {
      assert Grown(0, capacity, capacity) == (capacity, capacity) by {
        FillsUp(0, capacity);
      }
      assert !(Grown(0, capacity, capacity).0 < Grown(0, capacity, capacity).1);
    }
  }

  // The slot a probe looks at after n steps.
  function Walked(capacity: nat, slot: nat, n: nat): nat {
    if n == 0 then slot else Following(capacity, Walked(capacity, slot, n - 1))
  }

  lemma {:induction false} Walks(capacity: nat, slot: nat, n: nat)
    requires slot < capacity
    ensures Walked(capacity, slot, n) < capacity
  {
    if n > 0 {
      Walks(capacity, slot, n - 1);
    }
  }

  lemma {:induction false} KeysCounted(s: seq<Slot>, n: nat)
    requires n <= |s|
    ensures |KeysBelow(s, n)| <= n && ((exists i :: 0 <= i < n && s[i].Vacant?) ==> |KeysBelow(s, n)| < n)
  {
    if n > 0 {
      KeysCounted(s, n - 1);
      assert KeysBelow(s, n) == KeysBelow(s, n - 1) + if s[n - 1].Used? then {s[n - 1].key} else {};
    }
  }

  // In a full table the probe for a key that is not stored passes slot after slot and never ends:
  // no step finds the key or a vacant slot.
  lemma ProbeNeverEnds(s: seq<Slot>, m: Bindings, at: map<string, nat>, key: string, n: nat)
    requires Stores(s, m, at) && |m| == |s| > 0 && key !in m
    ensures var p := Walked(|s|, Home(|s|, key), n);
      p < |s| && s[p].Used? && s[p].key != key
  {
    hide Home;
    Walks(|s|, Home(|s|, key), n);
    KeysCounted(s, |s|);
    assert KeysBelow(s, |s|) == m.Keys by {
      assert forall k :: k in m ==> s[at[k]].Used? && s[at[k]].key == k;
    }
    assert |m.Keys| == |m|;
  }

  // ----- the table object -----

  class Valmap {
    var slots: array<Slot>
    var capacity: nat
    var elements: nat
    ghost var M: Bindings              // the map this table stands for
    ghost var at: map<string, nat>     // the slot of each key

    ghost predicate Valid()
      reads this, slots
      ensures Valid() ==> slots.Length == capacity >= 5 && at.Keys == M.Keys
    {
      && capacity == slots.Length >= 5
      && elements == |M| < capacity
      && Represents(slots[..], M, at)
    }

    // valmap_init; FreeSlotForever says why a table of a size under 5 is not Valid.
    constructor (size: nat)
      ensures fresh(slots) && slots.Length == capacity == size && elements == 0 && M == map[]
      ensures Represents(slots[..], M, at) && (Valid() <==> size >= 5)
    {
      slots := new Slot[size](_ => Vacant);
      capacity, elements, M, at := size, 0, map[], map[];
      new;
      EmptyTable(slots[..]);
    }

    method GetValue(key: string) returns (r: Option<Val>)
      requires Valid()
      ensures r == Get(M, key)
    {
      hide Home;
      SomeVacancy(slots[..], M, at);
      var index := Probe(slots, key);
      ProbeDecides(slots[..], M, at, key, index);
      r := if slots[index].Used? then Some(slots[index].value) else None;
    }

    // The slot in which a key was found; no slot is a NULL pointer.
    method Locate(key: string) returns (index: Option<nat>)
      requires Valid()
      ensures index == if key in M then Some(at[key]) else None
      ensures key in M ==> at[key] < slots.Length && slots[at[key]] == Used(key, M[key].value, M[key].isConst)
    {
      hide Home;
      SomeVacancy(slots[..], M, at);
      var p := Probe(slots, key);
      ProbeDecides(slots[..], M, at, key, p);
      index := if slots[p].Used? then Some(p) else None;
    }

    // The array moves exactly when the table grows; only then do pointers into it dangle.
    method CheckRealloc()
      requires Valid()
      modifies this
      ensures Valid() && M == old(M) && (slots == old(slots) || fresh(slots))
      ensures capacity == Room(|M|, old(capacity)) && |M| + 1 < capacity
      ensures slots == old(slots) <==> capacity == old(capacity)
      ensures slots == old(slots) ==> at == old(at)
    {
      hide Represents;
      if 5 * elements >= 4 * capacity {
        var newSlots;
        ghost var newAt;
        newSlots, newAt := Rehash(slots, 2 * capacity, M, at);
        ghost var s := newSlots[..];
        slots, at, capacity := newSlots, newAt, 2 * capacity;
        assert slots[..] == s;
      }
    }

    method Set(key: string, value: Val, isConst: bool, mode: Mode, checked: bool) returns (status: Status)
      requires Valid()
      modifies this, slots
      ensures Valid() && (slots == old(slots) || fresh(slots)) && capacity == Room(|old(M)|, old(capacity))
      ensures (M, status) == Write(old(M), key, value, isConst, mode, checked)
      ensures slots == old(slots) <==> capacity == old(capacity)
      ensures slots == old(slots) ==> forall k :: k in old(at) ==> k in at && at[k] == old(at[k])
    {
      hide Represents, Stores;
      CheckRealloc();
      var added;
      ghost var m', at';
      status, added, m', at' := SetEntry(slots, key, value, isConst, mode, checked, M, at);
      ghost var s := slots[..];
      elements := if added then elements + 1 else elements;
      M, at := m', at';
      assert slots[..] == s;
    }

    method SetNoOverwrite(key: string, value: Val, isConst: bool) returns (status: Status)
      requires Valid()
      modifies this, slots
      ensures Valid() && (slots == old(slots) || fresh(slots)) && capacity == Room(|old(M)|, old(capacity))
      ensures (M, status) == Write(old(M), key, value, isConst, NoOverwrite, true)
    {
      status := Set(key, value, isConst, NoOverwrite, true);
    }

    method SetNoCreate(key: string, value: Val, isConst: bool) returns (status: Status)
      requires Valid()
      modifies this, slots
      ensures Valid() && (slots == old(slots) || fresh(slots)) && capacity == Room(|old(M)|, old(capacity))
      ensures (M, status) == Write(old(M), key, value, isConst, NoCreate, true)
      ensures slots == old(slots) <==> capacity == old(capacity)
      ensures at.Keys == old(at.Keys) && (slots == old(slots) ==> at == old(at))
    {
      hide Represents, Valid;
      status := Set(key, value, isConst, NoCreate, true);
      assert M.Keys == old(M.Keys);
    }

    method SetDefault(key: string, value: Val, isConst: bool) returns (status: Status)
      requires Valid()
      modifies this, slots
      ensures Valid() && (slots == old(slots) || fresh(slots)) && capacity == Room(|old(M)|, old(capacity))
      ensures (M, status) == Write(old(M), key, value, isConst, Default, false)
    {
      status := Set(key, value, isConst, Default, false);
    }
  }
}
