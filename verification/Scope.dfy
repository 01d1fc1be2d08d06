/**
  Lexical scopes (src/scope.c): a chain of hash tables, and its meaning as a chain of maps.
*/
module Env {
  import opened Ast
  import opened ValueMap

  // One scope: its bindings, the size of the table that holds them, and the fields that loops use
  // to recognise later iterations.
  datatype Frame = Frame(vars: Bindings, capacity: Capacity, allowRedecl: bool, reuse: bool, uid: nat, prevUid: nat)

  // The innermost scope comes first; the global scope is the last one.
  datatype Env = Nil | Chain(top: Frame, up: Env)

  function Builtins(): (names: seq<string>)
    ensures |names| == 6
  {
    ["println", "print", "vector", "array_filter", "read", "exit"]
  }

  function Resolve(env: Env, name: string): Option<Val> {
    match env
    case Nil => None
    case Chain(top, up) => if name in top.vars then Some(top.vars[name].value) else Resolve(up, name)
  }

  // The size of the table that binds name, or 0. Resolving a name gives a pointer into this table,
  // which dangles as soon as the size changes.
  function Holder(env: Env, name: string): nat {
    match env
    case Nil => 0
    case Chain(top, up) => if name in top.vars then top.capacity else Holder(up, name)
  }

  // One write to the table of a scope.
  function Wrote(f: Frame, name: string, v: Val, isConst: bool, mode: Mode, checked: bool): (Frame, Status) {
    var (vars, status) := Write(f.vars, name, v, isConst, mode, checked);
    (f.(vars := vars, capacity := Room(|f.vars|, f.capacity)), status)
  }

  function Assigned(env: Env, name: string, v: Val): (Env, Status) {
    match env
    case Nil => (Nil, SetNotFound)
    case Chain(top, up) =>
      var (top', status) := Wrote(top, name, v, false, NoCreate, true);
      if status == SetNotFound then
        var (up', status') := Assigned(up, name, v);
        (Chain(top', up'), status')
      else (Chain(top', up), status)
  }

  function Declared(env: Env, name: string, v: Val, isConst: bool): (Env, Status) {
    if env.Nil? then (Nil, SetNotFound) else
    var (top, status) :=
      if env.top.allowRedecl then Wrote(env.top, name, v, isConst, Default, false)
      else Wrote(env.top, name, v, isConst, NoOverwrite, true);
    (Chain(top, env.up), status)
  }

  // A write that bypasses the const flag: valmap_set_default on the innermost scope.
  function Overwritten(env: Env, name: string, v: Val, isConst: bool): Env {
    if env.Nil? then Nil else
    Chain(Wrote(env.top, name, v, isConst, Default, false).0, env.up)
  }

  // The bindings after declaring the first n built-in functions.
  function WithBuiltins(m: Bindings, n: nat): Bindings
    requires n <= |Builtins()|
  {
    if n == 0 then m
    else Write(WithBuiltins(m, n - 1), Builtins()[n - 1], VBuiltin(Builtins()[n - 1]), true, NoOverwrite, true).0
  }

  // Leaving the innermost scope.
  function Popped(env: Env): Env {
    if env.Nil? then Nil else env.up
  }

  function WithIds(env: Env, reuse: bool, uid: nat, prevUid: nat): Env {
    if env.Nil? then Nil else Chain(env.top.(reuse := reuse, uid := uid, prevUid := prevUid), env.up)
  }

  function EmptyFrame(): Frame { Frame(map[], VALMAP_DEFAULT_SIZE, false, false, 0, 0) }

  // scope_init with a parent
  function NewScope(parent: Env): Env {
    Chain(EmptyFrame().(vars := WithBuiltins(map[], |Builtins()|)), parent)
  }

  const LITERALS: Bindings :=
    map["true" := Binding(VBool(true), true), "false" := Binding(VBool(false), true), "null" := Binding(VNull, true)]

  // scope_create_global
  function GlobalEnv(): Env {
    Chain(EmptyFrame().(vars := WithBuiltins(LITERALS, |Builtins()|)), Nil)
  }
}

module Scope {
  import opened Ast
  import opened ValueMap
  import opened Env

  // ----- where bindings live -----

  // The arrays of a chain of tables, and the slot of each name in them.
  datatype Places = Nowhere | Place(slots: array<Slot>, at: map<string, nat>, up: Places)

  // What resolving a name points to.
  type Pointer = (array<Slot>, nat)

  ghost function Where(p: Places, name: string): Option<Pointer> {
    match p
    case Nowhere => None
    case Place(slots, at, up) => if name in at then Some((slots, at[name])) else Where(up, name)
  }

  // Evaluating an expression moves no binding, except to a larger array with all its table.
  ghost predicate PlacesKept(a: Places, b: Places) {
    match a
    case Nowhere => b.Nowhere?
    case Place(slots, at, up) =>
      && b.Place? && b.at.Keys == at.Keys && b.slots.Length >= slots.Length
      && (b.slots.Length == slots.Length ==> b.slots == slots && b.at == at)
      && PlacesKept(up, b.up)
  }

  lemma {:induction false} PlacesReflexive(a: Places)
    ensures PlacesKept(a, a)
  {
    if a.Place? {
      PlacesReflexive(a.up);
    }
  }

  lemma {:induction false} PlacesTransitive(a: Places, b: Places, c: Places)
    requires PlacesKept(a, b) && PlacesKept(b, c)
    ensures PlacesKept(a, c)
  {
    if a.Place? {
      PlacesTransitive(a.up, b.up, c.up);
    }
  }

  lemma PlacesStep(a: Places, slots: array<Slot>, at: map<string, nat>, up: Places)
    requires a.Place? && at.Keys == a.at.Keys && slots.Length >= a.slots.Length
    requires slots.Length == a.slots.Length ==> slots == a.slots && at == a.at
    requires PlacesKept(a.up, up)
    ensures PlacesKept(a, Place(slots, at, up))
  {
  }

  // A pointer that was found before still points to the binding exactly if the array is as large
  // as it was; otherwise it points into an array that was given up.
  lemma {:induction false} PointersKept(a: Places, b: Places, name: string)
    requires PlacesKept(a, b)
    ensures Where(b, name).Some? <==> Where(a, name).Some?
    ensures Where(a, name).Some? ==>
      (Where(b, name).value.0 == Where(a, name).value.0 <==> Where(b, name).value.0.Length == Where(a, name).value.0.Length)
    ensures Where(a, name).Some? && Where(b, name).value.0 == Where(a, name).value.0 ==> Where(b, name) == Where(a, name)
  {
    if a.Place? && name !in a.at {
      PointersKept(a.up, b.up, name);
    }
  }

  // ----- the scope object -----

  class Scope {
    const parent: Scope?
    const valmap: Valmap
    var allowRedecl: bool
    var reuse: bool           // mode == SC_MODE_REUSE
    var uniqueId: nat
    var prevUniqueId: nat
    ghost var value: Env      // the chain of maps this chain of tables stands for
    ghost var places: Places  // where the bindings of the chain are
    ghost var Repr: set<object>

    ghost predicate Valid()
      reads this, Repr
      ensures Valid() ==> this in Repr && valmap in Repr && valmap.slots in Repr && value.Chain? && places.Place?
      decreases Repr
    {
      && this in Repr && valmap in Repr && valmap.slots in Repr
      && valmap.Valid()
      && (parent != null ==>
            parent in Repr && parent.Repr <= Repr && {this, valmap, valmap.slots} !! parent.Repr && parent.Valid())
      && value == Chain(Top(), if parent == null then Nil else parent.value)
      && places == Place(valmap.slots, valmap.at, if parent == null then Nowhere else parent.places)
    }

    lemma Parts()
      requires Valid()
      ensures valmap.Valid()
      ensures parent != null ==> parent.Valid() && parent.Repr <= Repr && Own() !! parent.Repr
      ensures value == Chain(Top(), if parent == null then Nil else parent.value)
      ensures places == Place(valmap.slots, valmap.at, if parent == null then Nowhere else parent.places)
    {
    }

    ghost function Top(): Frame
      reads this, valmap
      requires valmap.capacity >= 5
    {
      Frame(valmap.M, valmap.capacity, allowRedecl, reuse, uniqueId, prevUniqueId)
    }

    // scope_init(NULL)
    constructor Root()
      ensures Valid() && fresh(Repr) && value == Chain(EmptyFrame(), Nil)
    {
      hide Valmap.Valid;
      parent := null;
      valmap := new Valmap(VALMAP_DEFAULT_SIZE);
      allowRedecl, reuse, uniqueId, prevUniqueId := false, false, 0, 0;
      value := Chain(EmptyFrame(), Nil);
      new;
      Repr := {this, valmap, valmap.slots};
      places := Place(valmap.slots, valmap.at, Nowhere);
    }

    // scope_init(parent)
    constructor Child(parent: Scope)
      requires parent.Valid()
      ensures Valid() && fresh(Repr - parent.Repr) && this.parent == parent
      ensures value == NewScope(parent.value)
    {
      hide Valmap.Valid;
      hide WithBuiltins;
      hide Builtins;
      this.parent := parent;
      valmap := new Valmap(VALMAP_DEFAULT_SIZE);
      allowRedecl, reuse, uniqueId, prevUniqueId := false, false, 0, 0;
      value := Chain(EmptyFrame(), parent.value);
      new;
      Repr := {this, valmap, valmap.slots} + parent.Repr;
      places := Place(valmap.slots, valmap.at, parent.places);
      DeclareBuiltins();
    }

    // The objects a write to this scope's own table may touch.
    ghost function Own(): set<object>
      reads this, valmap
    {
      {this, valmap, valmap.slots}
    }

    // The tables of new scopes are large enough for the built-ins.
    method DeclareBuiltins()
      requires Valid() && !value.top.allowRedecl && 5 * (|value.top.vars| + |Builtins()|) < 4 * value.top.capacity
      modifies Own()
      ensures Valid() && fresh(Repr - old(Repr))
      ensures value == Chain(old(value).top.(vars := WithBuiltins(old(value).top.vars, |Builtins()|)), old(value).up)
    {
      hide Valid, Builtins;
      for i := 0 to |Builtins()|
        invariant Valid() && fresh(Repr - old(Repr)) && fresh(Own() - old(Own()))
        invariant value == Chain(old(value).top.(vars := WithBuiltins(old(value).top.vars, i)), old(value).up)
        invariant |value.top.vars| <= |old(value).top.vars| + i
      {
        var _ := Declare(Builtins()[i], VBuiltin(Builtins()[i]), true);
      }
    }

    method Declare(name: string, v: Val, isConst: bool) returns (status: Status)
      requires Valid()
      modifies Own()
      ensures Valid() && fresh(Repr - old(Repr)) && fresh(Own() - old(Own()))
      ensures (value, status) == Declared(old(value), name, v, isConst)
    {
      hide Valid, Valmap.Valid, Write, Room;
      Parts();
      if allowRedecl {
        status := valmap.SetDefault(name, v, isConst);
      } else {
        status := valmap.SetNoOverwrite(name, v, isConst);
      }
      Sync();
    }

    // Declares a constant in a new global scope that has room for it.
    method DeclareFirst(name: string, v: Val, ghost vars: Bindings)
      requires Valid() && value == Chain(EmptyFrame().(vars := vars), Nil) && name !in vars && |vars| < 16
      modifies Own()
      ensures Valid() && fresh(Repr - old(Repr)) && fresh(Own() - old(Own()))
      ensures value == Chain(EmptyFrame().(vars := vars[name := Binding(v, true)]), Nil)
    {
      hide Valid;
      var _ := Declare(name, v, true);
    }

    // Brings the ghost fields up to date after a write to this table or to an enclosing scope.
    ghost method Sync()
      requires valmap.Valid()
      requires parent != null ==> Own() !! parent.Repr && parent.Valid()
      modifies this`value, this`places, this`Repr
      ensures Valid() && Repr == old(Repr) + Own() + (if parent == null then {} else parent.Repr)
      ensures value == Chain(Top(), if parent == null then Nil else parent.value)
      ensures places == Place(valmap.slots, valmap.at, if parent == null then Nowhere else parent.places)
    {
      hide Valmap.Valid;
      places := Place(valmap.slots, valmap.at, if parent == null then Nowhere else parent.places);
      Repr := Repr + Own() + (if parent == null then {} else parent.Repr);
      value := Chain(Top(), if parent == null then Nil else parent.value);
    }

    // valmap_set_default on the table of this scope
    method Overwrite(name: string, v: Val, isConst: bool)
      requires Valid()
      modifies Own()
      ensures Valid() && fresh(Repr - old(Repr)) && fresh(Own() - old(Own()))
      ensures value == Overwritten(old(value), name, v, isConst)
    {
      hide Valid, Valmap.Valid, Write, Room;
      Parts();
      var _ := valmap.SetDefault(name, v, isConst);
      Sync();
    }

    method SetIds(reuse: bool, uniqueId: nat, prevUniqueId: nat)
      requires Valid()
      modifies this
      ensures Valid() && Repr == old(Repr)
      ensures value == WithIds(old(value), reuse, uniqueId, prevUniqueId)
    {
      hide Valid, Valmap.Valid;
      Parts();
      this.reuse, this.uniqueId, this.prevUniqueId := reuse, uniqueId, prevUniqueId;
      Sync();
    }

    // valmap_set_no_create on the table of this scope
    method AssignOwn(name: string, v: Val) returns (status: Status)
      requires Valid()
      modifies Own()
      ensures Valid() && fresh(Repr - old(Repr)) && fresh(Own() - old(Own()))
      ensures value.up == old(value.up)
      ensures (value.top, status) == Wrote(old(value.top), name, v, false, NoCreate, true)
      ensures places.up == old(places.up)
      ensures places.at.Keys == old(places.at.Keys) && places.slots.Length >= old(places).slots.Length
      ensures places.slots.Length == old(places).slots.Length ==> places.slots == old(places.slots) && places.at == old(places.at)
    {
      hide Valid, Valmap.Valid, Write, Room, PlacesKept;
      Parts();
      RoomGrows(|valmap.M|, valmap.capacity);
      status := valmap.SetNoCreate(name, v, false);
      Sync();
    }

    method Assign(name: string, v: Val) returns (status: Status)
      requires Valid()
      modifies Repr
      ensures Valid() && fresh(Repr - old(Repr))
      ensures (value, status) == Assigned(old(value), name, v)
      ensures PlacesKept(old(places), places)
      decreases Repr
    {
      hide Valmap.Valid, Wrote, PlacesKept;
      status := AssignOwn(name, v);
      if status == SetNotFound && parent != null {
        status := parent.Assign(name, v);
        Sync();
      } else {
        PlacesReflexive(places.up);
      }
      PlacesStep(old(places), places.slots, places.at, places.up);
    }

    method Find(name: string) returns (r: Option<Val>)
      requires Valid()
      ensures r == Resolve(value, name)
      decreases Repr
    {
      hide Valmap.Valid;
      r := valmap.GetValue(name);
      if r == None && parent != null {
        r := parent.Find(name);
      }
    }

    // scope_resolve_identifier: the pointer itself.
    method FindSlot(name: string) returns (p: Option<Pointer>)
      requires Valid()
      ensures p == Where(places, name)
      ensures p.None? <==> Resolve(value, name).None?
      ensures p.Some? ==>
        var (slots, index) := p.value;
        && slots in Repr && slots.Length == Holder(value, name) && index < slots.Length
        && slots[index].Used? && Resolve(value, name) == Some(slots[index].value)
      decreases Repr
    {
      hide Valmap.Valid;
      var own := valmap.Locate(name);
      if own.Some? {
        p := Some((valmap.slots, own.value));
      } else if parent == null {
        p := None;
      } else {
        p := parent.FindSlot(name);
      }
    }
  }

  method CreateGlobal() returns (scope: Scope)
    ensures fresh(scope.Repr) && scope.Valid() && scope.value == GlobalEnv()
  {
    hide Scope.Valid, WithBuiltins, Builtins;
    scope := CreateLiterals();
    LiteralsCounted();
    scope.DeclareBuiltins();
  }

  lemma LiteralsCounted()
    ensures |LITERALS| == 3
  {
  }

  // The global scope before the built-in functions are declared.
  method CreateLiterals() returns (scope: Scope)
    ensures fresh(scope.Repr) && scope.Valid() && scope.value == Chain(EmptyFrame().(vars := LITERALS), Nil)
  {
    hide Scope.Valid;
    scope := new Scope.Root();
    scope.DeclareFirst("true", VBool(true), map[]);
    ghost var one: Bindings := map["true" := Binding(VBool(true), true)];
    assert scope.value.top.vars == one && |one| == 1 && "false"[0] != "true"[0];
    scope.DeclareFirst("false", VBool(false), one);
    ghost var two: Bindings := one["false" := Binding(VBool(false), true)];
    assert scope.value.top.vars == two && |two| <= 2 && "null"[0] != "true"[0] && "null"[0] != "false"[0];
    scope.DeclareFirst("null", VNull, two);
  }
}
