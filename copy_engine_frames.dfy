/**
 * What every mapping run keeps, whatever it copies: the cache only grows
 * and every entry in it stays the table built from its own two types; no
 * allocated object disappears, changes its runtime type or its length;
 * only the destination object and objects allocated during the run have
 * their members written, and only arrays allocated during the run have
 * their elements written.
 */
module CopyEngineFrames {
  import opened Outcomes
  import opened Reflection
  import opened ObjectStore
  import opened Bindings
  import opened MemberTables
  import opened MappingModels
  import opened CopyEngine

  /** Check-then-insert: an entry, once in the cache, keeps its key and its model. */
  predicate CacheExtends(c0: map<string, MappingModel>, c1: map<string, MappingModel>)
  {
    forall k :: k in c0 ==> k in c1 && c1[k] == c0[k]
  }

  /** Allocated objects stay, with their runtime type and their number of elements; addresses are not reused. */
  predicate StoreGrows(s0: Store, s1: Store)
  {
    s0.next <= s1.next &&
    forall a :: a in s0.objects ==>
      a in s1.objects &&
      s1.objects[a].runtimeType == s0.objects[a].runtimeType &&
      |s1.objects[a].elements| == |s0.objects[a].elements|
  }

  /** The members of every object of `s0` except `target` hold the same values in `s1`. */
  predicate SlotsKept(s0: Store, s1: Store, target: Value)
  {
    forall a :: a in s0.objects && Ref(a) != target ==> a in s1.objects && s1.objects[a].slots == s0.objects[a].slots
  }

  /** The elements of every object of `s0` except `written` are the same in `s1`. */
  predicate ElementsKept(s0: Store, s1: Store, written: Value)
  {
    forall a :: a in s0.objects && Ref(a) != written ==> a in s1.objects && s1.objects[a].elements == s0.objects[a].elements
  }

  /**
   * From `st0` to `st1` the cache has only grown and stays faithful, the
   * store has only grown, only the members of `target` among the old
   * objects may have changed, and only the elements of `written`.
   */
  predicate Evolves(u: Universe, st0: State, st1: State, target: Value, written: Value)
  {
    ValidStore(st1.store) &&
    CacheExtends(st0.cache, st1.cache) &&
    (CacheFaithful(u, st0.cache) ==> CacheFaithful(u, st1.cache)) &&
    StoreGrows(st0.store, st1.store) &&
    SlotsKept(st0.store, st1.store, target) &&
    ElementsKept(st0.store, st1.store, written)
  }

  /** `x` names no object, or the object `y`. */
  predicate AtMost(x: Value, y: Value)
  {
    x == Null || x == y
  }

  lemma EvolvesTrans(u: Universe, st0: State, st1: State, st2: State, t1: Value, w1: Value, t2: Value, w2: Value, t: Value, w: Value)
    requires Evolves(u, st0, st1, t1, w1) && Evolves(u, st1, st2, t2, w2)
    requires AtMost(t1, t) && AtMost(t2, t) && AtMost(w1, w) && AtMost(w2, w)
    ensures Evolves(u, st0, st2, t, w)
  {
  }

  lemma EvolvesRefl(u: Universe, st: State, t: Value, w: Value)
    requires ValidStore(st.store)
    ensures Evolves(u, st, st, t, w)
  {
  }

  lemma EvolvesWiden(u: Universe, st0: State, st1: State, t1: Value, w1: Value, t: Value, w: Value)
    requires Evolves(u, st0, st1, t1, w1) && AtMost(t1, t) && AtMost(w1, w)
    ensures Evolves(u, st0, st1, t, w)
  {
  }

  /** Members written only in an object allocated after `st0` leave every object of `st0` as it was. */
  lemma TargetWasFresh(u: Universe, st0: State, st1: State, a: Addr, w: Value)
    requires Evolves(u, st0, st1, Ref(a), w) && a !in st0.store.objects
    ensures Evolves(u, st0, st1, Null, w)
  {
  }

  /** Elements written only in an object allocated after `st0` leave every object of `st0` as it was. */
  lemma WrittenWasFresh(u: Universe, st0: State, st1: State, t: Value, a: Addr)
    requires Evolves(u, st0, st1, t, Ref(a)) && a !in st0.store.objects
    ensures Evolves(u, st0, st1, t, Null)
  {
  }

  lemma AssignEvolves(u: Universe, st: State, dest: Value, m: Member, v: Value)
    requires ValidStore(st.store) && ValueIn(st.store, v)
    ensures Evolves(u, st, Assign(st, dest, m, v).state, dest, Null)
  {
  }

  lemma AllocateEvolves(u: Universe, st: State, t: TypeRef)
    requires ValidStore(st.store)
    requires Allocate(u, st.store, t).Some?
    ensures Allocate(u, st.store, t).value.addr == st.store.next
    ensures Evolves(u, st, st.(store := Allocate(u, st.store, t).value.store), Null, Null)
  {
  }

  lemma AllocateArrayEvolves(u: Universe, st: State, t: TypeRef, n: nat)
    requires ValidStore(st.store)
    ensures AllocateArray(st.store, t, n).addr == st.store.next
    ensures Evolves(u, st, st.(store := AllocateArray(st.store, t, n).store), Null, Null)
  {
  }

  lemma WriteElementEvolves(u: Universe, st: State, arr: Addr, i: nat, v: Value)
    requires ValidStore(st.store) && ValueIn(st.store, v)
    requires WriteElement(st.store, arr, i, v).Some?
    ensures Evolves(u, st, st.(store := WriteElement(st.store, arr, i, v).value), Null, Ref(arr))
  {
  }

  lemma InsertEvolves(u: Universe, st: State, sourceType: TypeRef, destType: TypeRef, table: seq<Pairing>)
    requires ValidStore(st.store)
    requires MappingKey(u, sourceType, destType) !in st.cache
    requires BuildTable(u, sourceType, destType) == Ok(table)
    ensures Evolves(u, st, st.(cache := st.cache[MappingKey(u, sourceType, destType) := MappingModel(sourceType, destType, table)]), Null, Null)
  {
  }

  lemma {:induction false} MapWithEvolves(ctx: Context, fuel: nat, st: State, source: Value, dest: Value, sourceType: TypeRef, destType: TypeRef)
    requires ValidStore(st.store)
    ensures Evolves(ctx.universe, st, MapWith(ctx, fuel, st, source, dest, sourceType, destType).state, dest, Null)
    decreases fuel, 0, 0
  {
    var key := MappingKey(ctx.universe, sourceType, destType);
    if fuel == 0 || (key !in st.cache && BuildTable(ctx.universe, sourceType, destType).Err?) {
      EvolvesRefl(ctx.universe, st, dest, Null);
    } else if key in st.cache {
      CopyValuesEvolves(ctx, fuel - 1, st, source, dest, st.cache[key].mappingTable, 0);
    } else {
      MapWithBuiltEvolves(ctx, fuel, st, source, dest, sourceType, destType);
    }
  }

  /** MapWithEvolves on a cache miss: the new entry, then CopyValues along the table built. */
  lemma {:induction false} MapWithBuiltEvolves(ctx: Context, fuel: nat, st: State, source: Value, dest: Value, sourceType: TypeRef, destType: TypeRef)
    requires ValidStore(st.store) && fuel > 0
    requires MappingKey(ctx.universe, sourceType, destType) !in st.cache && BuildTable(ctx.universe, sourceType, destType).Ok?
    ensures Evolves(ctx.universe, st, MapWith(ctx, fuel, st, source, dest, sourceType, destType).state, dest, Null)
    decreases fuel - 1, 8, 0
  {
    var key := MappingKey(ctx.universe, sourceType, destType);
    var table := BuildTable(ctx.universe, sourceType, destType).value;
    var st1 := st.(cache := st.cache[key := MappingModel(sourceType, destType, table)]);
    InsertEvolves(ctx.universe, st, sourceType, destType, table);
    CopyValuesEvolves(ctx, fuel - 1, st1, source, dest, table, 0);
    EvolvesTrans(ctx.universe, st, st1, CopyValues(ctx, fuel - 1, st1, source, dest, table, 0).state, Null, Null, dest, Null, dest, Null);
  }

  lemma {:induction false} MapObjectsEvolves(ctx: Context, fuel: nat, st: State, source: Value, dest: Value)
    requires ValidStore(st.store)
    ensures Evolves(ctx.universe, st, MapObjects(ctx, fuel, st, source, dest).state, dest, Null)
    decreases fuel, 1, 0
  {
    if TypeOf(st.store, source).Some? && TypeOf(st.store, dest).Some? {
      MapWithEvolves(ctx, fuel, st, source, dest, TypeOf(st.store, source).value, TypeOf(st.store, dest).value);
    }
  }

  lemma {:induction false} CopyValuesEvolves(ctx: Context, fuel: nat, st: State, source: Value, dest: Value, table: seq<Pairing>, i: nat)
    requires ValidStore(st.store) && i <= |table|
    ensures Evolves(ctx.universe, st, CopyValues(ctx, fuel, st, source, dest, table, i).state, dest, Null)
    decreases fuel, 7, |table| - i
  {
    if i < |table| {
      var r := CopyValue(ctx, fuel, st, table[i].source, source, table[i].dest, dest);
      CopyValueEvolves(ctx, fuel, st, table[i].source, source, table[i].dest, dest);
      if r.outcome.Ok? {
        CopyValuesEvolves(ctx, fuel, r.state, source, dest, table, i + 1);
        EvolvesTrans(ctx.universe, st, r.state, CopyValues(ctx, fuel, r.state, source, dest, table, i + 1).state, dest, Null, dest, Null, dest, Null);
      }
    }
  }

  lemma {:induction false} CopyValueEvolves(ctx: Context, fuel: nat, st: State, sourceMember: Member, source: Value, destMember: Member, dest: Value)
    requires ValidStore(st.store)
    ensures Evolves(ctx.universe, st, CopyValue(ctx, fuel, st, sourceMember, source, destMember, dest).state, dest, Null)
    decreases fuel, 6, 0
  {
    match ReadSlot(st.store, source, sourceMember)
    case None =>
    case Some(v) =>
      if destMember.kind == Field && sourceMember.kind == Field {
        CopyFieldValueEvolves(ctx, fuel, st, sourceMember, v, destMember, dest);
      } else if destMember.kind == Property && sourceMember.kind == Property {
        CopyPropertyValueEvolves(ctx, fuel, st, sourceMember, v, destMember, dest);
      }
  }

  /** `v` is the value read from the source member, so it names no dangling object. */
  lemma {:induction false} CopyPropertyValueEvolves(ctx: Context, fuel: nat, st: State, sourceProperty: Member, v: Value, destProperty: Member, dest: Value)
    requires ValidStore(st.store) && ValueIn(st.store, v)
    ensures Evolves(ctx.universe, st, CopyPropertyValue(ctx, fuel, st, sourceProperty, v, destProperty, dest).state, dest, Null)
    decreases fuel, 5, 0
  {
    var handled := ProcessCollections(ctx, fuel, st, v, destProperty, dest);
    ProcessCollectionsEvolves(ctx, fuel, st, v, destProperty, dest);
    if handled.outcome.Ok? {
      var r := CopyPropertyValue(ctx, fuel, st, sourceProperty, v, destProperty, dest);
      match GetConcreteType(ctx.universe, ctx.interfaceModels, destProperty)
      case Some(t) =>
        MapIntoConcreteEvolves(ctx, fuel, handled.state, v, sourceProperty.memberType, t, destProperty, dest);
        EvolvesTrans(ctx.universe, st, handled.state, r.state, dest, Null, dest, Null, dest, Null);
      case None =>
        AssignEvolves(ctx.universe, handled.state, dest, destProperty, v);
        EvolvesTrans(ctx.universe, st, handled.state, r.state, dest, Null, dest, Null, dest, Null);
    }
  }

  lemma {:induction false} CopyFieldValueEvolves(ctx: Context, fuel: nat, st: State, sourceField: Member, v: Value, destField: Member, dest: Value)
    requires ValidStore(st.store) && ValueIn(st.store, v)
    ensures Evolves(ctx.universe, st, CopyFieldValue(ctx, fuel, st, sourceField, v, destField, dest).state, dest, Null)
    decreases fuel, 5, 0
  {
    match GetConcreteType(ctx.universe, ctx.interfaceModels, destField)
    case Some(t) => MapIntoConcreteEvolves(ctx, fuel, st, v, sourceField.memberType, t, destField, dest);
    case None => AssignEvolves(ctx.universe, st, dest, destField, v);
  }

  /** The instance is mapped into before it is written, so no old object but `dest` has a member written. */
  lemma {:induction false} MapIntoConcreteEvolves(ctx: Context, fuel: nat, st: State, v: Value, sourceType: TypeRef, concrete: TypeRef, destMember: Member, dest: Value)
    requires ValidStore(st.store)
    ensures Evolves(ctx.universe, st, MapIntoConcrete(ctx, fuel, st, v, sourceType, concrete, destMember, dest).state, dest, Null)
    decreases fuel, 4, 0
  {
    match Allocate(ctx.universe, st.store, concrete)
    case None =>
    case Some(c) =>
      MapNewInstanceEvolves(ctx, fuel, st, v, sourceType, concrete);
      var r := MapWith(ctx, fuel, st.(store := c.store), v, Ref(c.addr), sourceType, concrete);
      if r.outcome.Err? {
        EvolvesWiden(ctx.universe, st, r.state, Null, Null, dest, Null);
      } else {
        AssignEvolves(ctx.universe, r.state, dest, destMember, Ref(c.addr));
        EvolvesTrans(ctx.universe, st, r.state, Assign(r.state, dest, destMember, Ref(c.addr)).state, Null, Null, dest, Null, dest, Null);
      }
  }

  /** Mapping into a new instance of `concrete` changes no old object, and the instance still exists afterwards. */
  lemma {:induction false} MapNewInstanceEvolves(ctx: Context, fuel: nat, st: State, v: Value, sourceType: TypeRef, concrete: TypeRef)
    requires ValidStore(st.store) && Allocate(ctx.universe, st.store, concrete).Some?
    ensures var c := Allocate(ctx.universe, st.store, concrete).value;
      var r := MapWith(ctx, fuel, st.(store := c.store), v, Ref(c.addr), sourceType, concrete);
      Evolves(ctx.universe, st, r.state, Null, Null) && ValueIn(r.state.store, Ref(c.addr))
    decreases fuel, 0, 1
  {
    var c := Allocate(ctx.universe, st.store, concrete).value;
    var st1 := st.(store := c.store);
    AllocateEvolves(ctx.universe, st, concrete);
    var r := MapWith(ctx, fuel, st1, v, Ref(c.addr), sourceType, concrete);
    MapWithEvolves(ctx, fuel, st1, v, Ref(c.addr), sourceType, concrete);
    EvolvesTrans(ctx.universe, st, st1, r.state, Null, Null, Ref(c.addr), Null, Ref(c.addr), Null);
    TargetWasFresh(ctx.universe, st, r.state, c.addr, Null);
  }

  lemma {:induction false} ProcessCollectionsEvolves(ctx: Context, fuel: nat, st: State, v: Value, destProperty: Member, dest: Value)
    requires ValidStore(st.store)
    ensures Evolves(ctx.universe, st, ProcessCollections(ctx, fuel, st, v, destProperty, dest).state, dest, Null)
    decreases fuel, 4, 0
  {
    if !IsDictionary(ctx.universe, st.store, v) && IsCollection(ctx.universe, st.store, v) {
      var coll := st.store.objects[v.addr];
      match ElementLookupType(ctx.universe, coll.runtimeType)
      case None =>
      case Some(elementType) =>
        if TypeOf(st.store, dest).Some? {
          match FindElementModel(ctx.universe, ctx.sourceDestModels, elementType)
          case None =>
          case Some(model) => ConvertCollectionEvolves(ctx, fuel, st, model.destType, coll.elements, destProperty, dest);
        }
    }
  }

  /** Only the new array's elements are written, and only `dest` among the old objects has a member written. */
  lemma {:induction false} ConvertCollectionEvolves(ctx: Context, fuel: nat, st: State, destType: TypeRef, elements: seq<Value>, destProperty: Member, dest: Value)
    requires ValidStore(st.store)
    ensures Evolves(ctx.universe, st, ConvertCollection(ctx, fuel, st, destType, elements, destProperty, dest).state, dest, Null)
    decreases fuel, 3, 0
  {
    var c := AllocateArray(st.store, destType, |elements|);
    var st1 := st.(store := c.store);
    AllocateArrayEvolves(ctx.universe, st, destType, |elements|);
    var r := FillElements(ctx, fuel, st1, c.addr, destType, elements, 0);
    FillElementsEvolves(ctx, fuel, st1, c.addr, destType, elements, 0);
    EvolvesTrans(ctx.universe, st, st1, r.state, Null, Null, Null, Ref(c.addr), Null, Ref(c.addr));
    WrittenWasFresh(ctx.universe, st, r.state, Null, c.addr);
    if r.outcome.Ok? {
      AssignEvolves(ctx.universe, r.state, dest, destProperty, Ref(c.addr));
      EvolvesTrans(ctx.universe, st, r.state, Assign(r.state, dest, destProperty, Ref(c.addr)).state, Null, Null, dest, Null, dest, Null);
    }
  }

  /** The foreach writes elements of `arr` only, and members of the new instances only. */
  lemma {:induction false} FillElementsEvolves(ctx: Context, fuel: nat, st: State, arr: Addr, elementType: TypeRef, elements: seq<Value>, i: nat)
    requires ValidStore(st.store) && i <= |elements|
    ensures Evolves(ctx.universe, st, FillElements(ctx, fuel, st, arr, elementType, elements, i).state, Null, Ref(arr))
    decreases fuel, 2, 2 * (|elements| - i) + 2
  {
    var u := ctx.universe;
    if i == |elements| || Allocate(u, st.store, elementType).None? {
      assert FillElements(ctx, fuel, st, arr, elementType, elements, i).state == st;
      EvolvesWiden(u, st, st, Null, Null, Null, Ref(arr));
    } else {
      var c := Allocate(u, st.store, elementType).value;
      var r := MapObjects(ctx, fuel, st.(store := c.store), elements[i], Ref(c.addr));
      if r.outcome.Err? || WriteElement(r.state.store, arr, i, Ref(c.addr)).None? {
        MapNewElementEvolves(ctx, fuel, st, elements[i], elementType);
        assert FillElements(ctx, fuel, st, arr, elementType, elements, i).state == r.state;
        EvolvesWiden(u, st, r.state, Null, Null, Null, Ref(arr));
      } else {
        FillElementsStepsEvolve(ctx, fuel, st, arr, elementType, elements, i);
      }
    }
  }

  /** FillElementsEvolves for a pass of the foreach that writes its element and goes on. */
  lemma {:induction false} FillElementsStepsEvolve(ctx: Context, fuel: nat, st: State, arr: Addr, elementType: TypeRef, elements: seq<Value>, i: nat)
    requires ValidStore(st.store) && i < |elements| && Allocate(ctx.universe, st.store, elementType).Some?
    requires var c := Allocate(ctx.universe, st.store, elementType).value;
      var r := MapObjects(ctx, fuel, st.(store := c.store), elements[i], Ref(c.addr));
      r.outcome.Ok? && WriteElement(r.state.store, arr, i, Ref(c.addr)).Some?
    ensures Evolves(ctx.universe, st, FillElements(ctx, fuel, st, arr, elementType, elements, i).state, Null, Ref(arr))
    decreases fuel, 2, 2 * (|elements| - i) + 1
  {
    var c := Allocate(ctx.universe, st.store, elementType).value;
    var r := MapObjects(ctx, fuel, st.(store := c.store), elements[i], Ref(c.addr));
    var st2 := r.state.(store := WriteElement(r.state.store, arr, i, Ref(c.addr)).value);
    FillElementStepEvolves(ctx, fuel, st, arr, elementType, elements, i);
    FillElementsEvolves(ctx, fuel, st2, arr, elementType, elements, i + 1);
    EvolvesTrans(ctx.universe, st, st2, FillElements(ctx, fuel, st2, arr, elementType, elements, i + 1).state,
                 Null, Ref(arr), Null, Ref(arr), Null, Ref(arr));
  }

  /** One pass of the foreach, up to the write of the new instance into the array, writes elements of `arr` only. */
  lemma {:induction false} FillElementStepEvolves(ctx: Context, fuel: nat, st: State, arr: Addr, elementType: TypeRef, elements: seq<Value>, i: nat)
    requires ValidStore(st.store) && i < |elements| && Allocate(ctx.universe, st.store, elementType).Some?
    ensures var c := Allocate(ctx.universe, st.store, elementType).value;
      var r := MapObjects(ctx, fuel, st.(store := c.store), elements[i], Ref(c.addr));
      r.outcome.Ok? && WriteElement(r.state.store, arr, i, Ref(c.addr)).Some? ==>
        Evolves(ctx.universe, st, r.state.(store := WriteElement(r.state.store, arr, i, Ref(c.addr)).value), Null, Ref(arr))
    decreases fuel, 2, 1
  {
    var c := Allocate(ctx.universe, st.store, elementType).value;
    var r := MapObjects(ctx, fuel, st.(store := c.store), elements[i], Ref(c.addr));
    MapNewElementEvolves(ctx, fuel, st, elements[i], elementType);
    if r.outcome.Ok? && WriteElement(r.state.store, arr, i, Ref(c.addr)).Some? {
      var st2 := r.state.(store := WriteElement(r.state.store, arr, i, Ref(c.addr)).value);
      WriteElementEvolves(ctx.universe, r.state, arr, i, Ref(c.addr));
      EvolvesTrans(ctx.universe, st, r.state, st2, Null, Null, Null, Ref(arr), Null, Ref(arr));
    }
  }

  /** One element of the foreach: a new instance, mapped from the element, changes no old object and still exists afterwards. */
  lemma {:induction false} MapNewElementEvolves(ctx: Context, fuel: nat, st: State, element: Value, elementType: TypeRef)
    requires ValidStore(st.store) && Allocate(ctx.universe, st.store, elementType).Some?
    ensures var c := Allocate(ctx.universe, st.store, elementType).value;
      var r := MapObjects(ctx, fuel, st.(store := c.store), element, Ref(c.addr));
      Evolves(ctx.universe, st, r.state, Null, Null) && ValueIn(r.state.store, Ref(c.addr))
    decreases fuel, 2, 0
  {
    var c := Allocate(ctx.universe, st.store, elementType).value;
    var st1 := st.(store := c.store);
    AllocateEvolves(ctx.universe, st, elementType);
    var r := MapObjects(ctx, fuel, st1, element, Ref(c.addr));
    MapObjectsEvolves(ctx, fuel, st1, element, Ref(c.addr));
    EvolvesTrans(ctx.universe, st, st1, r.state, Null, Null, Ref(c.addr), Null, Ref(c.addr), Null);
    TargetWasFresh(ctx.universe, st, r.state, c.addr, Null);
  }
}
