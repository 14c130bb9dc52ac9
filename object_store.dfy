/**
 * The managed heap as the mapper uses it: objects with a runtime type, one
 * slot per field or property, and an element sequence for collections
 * (arrays, lists and dictionaries, enumerated in order). GetValue, SetValue,
 * GetType, Activator.CreateInstance, Array.CreateInstance and
 * Array.SetValue become the operations below; `Heap` is the mutable heap
 * the mapper's methods change in place, and `Store` is its value.
 */
module ObjectStore {
  import opened Outcomes
  import opened Reflection

  type Addr = nat

  datatype Value = Null | Ref(addr: Addr)

  /**
   * What GetValue and SetValue resolve a member to on an object: its kind
   * and its name. A member declared by an interface or by a base type thus
   * reaches the runtime object's own implementation of it.
   */
  datatype Slot = Slot(kind: MemberKind, name: string)

  datatype Obj = Obj(runtimeType: TypeRef, slots: map<Slot, Value>, elements: seq<Value>)

  datatype Store = Store(objects: map<Addr, Obj>, next: Addr)

  /** A store after an allocation, and the address of the new object. */
  datatype Created = Created(store: Store, addr: Addr)

  /** `v` is null or names an object of `s`: it is no dangling reference. */
  predicate ValueIn(s: Store, v: Value)
  {
    v.Null? || v.addr in s.objects
  }

  /**
   * Every allocated address lies below the next free one, and every member
   * and every element of every object is null or names an object of the
   * store.
   */
  predicate ValidStore(s: Store)
  {
    (forall a :: a in s.objects ==> a < s.next) &&
    (forall a, k :: a in s.objects && k in s.objects[a].slots ==> ValueIn(s, s.objects[a].slots[k])) &&
    (forall a, i :: a in s.objects && 0 <= i < |s.objects[a].elements| ==> ValueIn(s, s.objects[a].elements[i]))
  }

  predicate Live(s: Store, v: Value)
  {
    v.Ref? && v.addr in s.objects
  }

  /** `obj.GetType()`; None for null (a NullReferenceException). */
  function TypeOf(s: Store, v: Value): Option<TypeRef>
  {
    if Live(s, v) then Some(s.objects[v.addr].runtimeType) else None
  }

  /** `obj is IDictionary`: false for null, and every dictionary is also a collection. */
  predicate IsDictionary(u: Universe, s: Store, v: Value)
    ensures IsDictionary(u, s, v) ==> TypeOf(s, v).Some? && IsCollection(u, s, v)
  {
    Live(s, v) && Info(u, s.objects[v.addr].runtimeType).shape == Dictionary
  }

  /** `obj is ICollection`: false for null, and false for an object whose type is neither a collection nor a dictionary. */
  predicate IsCollection(u: Universe, s: Store, v: Value)
    ensures IsCollection(u, s, v) ==> TypeOf(s, v).Some? && Info(u, TypeOf(s, v).value).shape != Scalar
  {
    Live(s, v) && Info(u, s.objects[v.addr].runtimeType).shape != Scalar
  }

  function SlotOf(m: Member): Slot
  {
    Slot(m.kind, m.name)
  }

  function SlotsOf(ms: seq<Member>): set<Slot>
  {
    set m | m in ms :: SlotOf(m)
  }

  /** `member.GetValue(target)`; None where reflection throws. */
  function ReadSlot(s: Store, target: Value, m: Member): Option<Value>
  {
    if Live(s, target) && SlotOf(m) in s.objects[target.addr].slots
    then Some(s.objects[target.addr].slots[SlotOf(m)])
    else None
  }

  /** `member.SetValue(target, v)`; None where reflection throws. */
  function WriteSlot(s: Store, target: Value, m: Member, v: Value): Option<Store>
  {
    if Live(s, target) && SlotOf(m) in s.objects[target.addr].slots then
      var o := s.objects[target.addr];
      Some(s.(objects := s.objects[target.addr := o.(slots := o.slots[SlotOf(m) := v])]))
    else None
  }

  /** A new instance of `t`: every field and property at its default value, no elements. */
  function DefaultObject(u: Universe, t: TypeRef): Obj
  {
    Obj(t, map k | k in SlotsOf(Fields(u, t) + Properties(u, t)) :: Null, [])
  }

  /** `Activator.CreateInstance(t)`; None when `t` has no default constructor. */
  function Allocate(u: Universe, s: Store, t: TypeRef): Option<Created>
  {
    if Info(u, t).constructible
    then Some(Created(Store(s.objects[s.next := DefaultObject(u, t)], s.next + 1), s.next))
    else None
  }

  /**
   * A new instance of `t` holds null in every member of the kind and name of
   * one of `t`'s own fields or properties, wherever that member is declared
   * (on `t`, a base type or an interface `t` implements).
   */
  lemma NewInstanceMembersReadable(u: Universe, s: Store, t: TypeRef, m: Member, through: Member)
    requires Allocate(u, s, t).Some?
    requires m in Fields(u, t) + Properties(u, t) && through.kind == m.kind && through.name == m.name
    ensures ReadSlot(Allocate(u, s, t).value.store, Ref(Allocate(u, s, t).value.addr), through) == Some(Null)
  {
    assert SlotOf(through) == SlotOf(m) && SlotOf(m) in SlotsOf(Fields(u, t) + Properties(u, t));
  }

  /** `Array.CreateInstance(t, n)`: an array of `n` nulls. */
  function AllocateArray(s: Store, t: TypeRef, n: nat): Created
  {
    Created(Store(s.objects[s.next := Obj(ArrayOf(t), map[], seq(n, _ => Null))], s.next + 1), s.next)
  }

  /** `array.SetValue(v, i)`; None where it throws. */
  function WriteElement(s: Store, a: Addr, i: nat, v: Value): Option<Store>
  {
    if a in s.objects && i < |s.objects[a].elements| then
      var o := s.objects[a];
      Some(s.(objects := s.objects[a := o.(elements := o.elements[i := v])]))
    else None
  }

  class Heap {
    var objects: map<Addr, Obj>
    var next: Addr

    function Snapshot(): Store
      reads this
    {
      Store(objects, next)
    }

    constructor ()
      ensures Snapshot() == Store(map[], 0)
    {
      objects, next := map[], 0;
    }

    method SetValue(target: Value, m: Member, v: Value) returns (ok: bool)
      modifies this
      ensures ok == WriteSlot(old(Snapshot()), target, m, v).Some?
      ensures Snapshot() == if ok then WriteSlot(old(Snapshot()), target, m, v).value else old(Snapshot())
    {
      ok := target.Ref? && target.addr in objects && SlotOf(m) in objects[target.addr].slots;
      if ok {
        var o := objects[target.addr];
        objects := objects[target.addr := o.(slots := o.slots[SlotOf(m) := v])];
      }
    }

    method CreateInstance(u: Universe, t: TypeRef) returns (r: Option<Addr>)
      modifies this
      ensures r.Some? == Allocate(u, old(Snapshot()), t).Some?
      ensures r.Some? ==>
        r.value == Allocate(u, old(Snapshot()), t).value.addr &&
        Snapshot() == Allocate(u, old(Snapshot()), t).value.store
      ensures r.None? ==> Snapshot() == old(Snapshot())
    {
      if Info(u, t).constructible {
        objects := objects[next := DefaultObject(u, t)];
        r := Some(next);
        next := next + 1;
      } else {
        r := None;
      }
    }

    method CreateArray(t: TypeRef, n: nat) returns (a: Addr)
      modifies this
      ensures Created(Snapshot(), a) == AllocateArray(old(Snapshot()), t, n)
    {
      objects := objects[next := Obj(ArrayOf(t), map[], seq(n, _ => Null))];
      a := next;
      next := next + 1;
    }

    method SetElement(a: Addr, i: nat, v: Value) returns (ok: bool)
      modifies this
      ensures ok == WriteElement(old(Snapshot()), a, i, v).Some?
      ensures Snapshot() == if ok then WriteElement(old(Snapshot()), a, i, v).value else old(Snapshot())
    {
      ok := a in objects && i < |objects[a].elements|;
      if ok {
        var o := objects[a];
        objects := objects[a := o.(elements := o.elements[i := v])];
      }
    }
  }
}
