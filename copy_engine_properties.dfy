/**
 * What the copy engine does to the destination: the value a member ends up
 * holding, what ProcessCollections builds, how the table cache is used, and
 * the order in which a table is copied.
 */
module CopyEngineProperties {
  import opened Outcomes
  import opened Reflection
  import opened ObjectStore
  import opened Bindings
  import opened MemberTables
  import opened MappingModels
  import opened CopyEngine
  import opened CopyEngineFrames

  /** `x` refers to an object allocated at or after address `base`, whose runtime type is `t`. */
  predicate FreshInstance(base: nat, s: Store, x: Value, t: TypeRef)
  {
    x.Ref? && base <= x.addr && x.addr in s.objects && s.objects[x.addr].runtimeType == t
  }

  /** The first `i` elements of array `arr` are new instances of `t`, allocated from `base` on. */
  predicate FilledUpTo(base: nat, s: Store, arr: Addr, t: TypeRef, i: nat)
  {
    arr in s.objects && i <= |s.objects[arr].elements| &&
    forall j :: 0 <= j < i ==> FreshInstance(base, s, s.objects[arr].elements[j], t)
  }

  lemma FilledUpToKept(base: nat, s0: Store, s1: Store, arr: Addr, t: TypeRef, i: nat)
    requires FilledUpTo(base, s0, arr, t, i)
    requires StoreGrows(s0, s1) && ElementsKept(s0, s1, Null)
    ensures FilledUpTo(base, s1, arr, t, i)
  {
    forall j | 0 <= j < i
      ensures FreshInstance(base, s1, s1.objects[arr].elements[j], t)
    {
      assert s1.objects[arr].elements[j] == s0.objects[arr].elements[j];
    }
  }

  /** Every successful step of the foreach puts a new instance of the bound type at the running index. */
  lemma {:induction false} FillElementsFills(ctx: Context, fuel: nat, st: State, arr: Addr, t: TypeRef, elements: seq<Value>, i: nat, base: nat)
    requires ValidStore(st.store) && i <= |elements| && base <= st.store.next
    requires FilledUpTo(base, st.store, arr, t, i) && |st.store.objects[arr].elements| == |elements|
    ensures FillElements(ctx, fuel, st, arr, t, elements, i).outcome.Ok? ==>
      FilledUpTo(base, FillElements(ctx, fuel, st, arr, t, elements, i).state.store, arr, t, |elements|)
    decreases |elements| - i
  {
    if i < |elements| {
      match Allocate(ctx.universe, st.store, t)
      case None =>
      case Some(c) =>
        var r := MapObjects(ctx, fuel, st.(store := c.store), elements[i], Ref(c.addr));
        if r.outcome.Ok? {
          match WriteElement(r.state.store, arr, i, Ref(c.addr))
          case None =>
          case Some(s) =>
            FillStepFills(ctx, fuel, st, arr, t, elements, i, base);
            FillElementStepEvolves(ctx, fuel, st, arr, t, elements, i);
            FillElementsFills(ctx, fuel, r.state.(store := s), arr, t, elements, i + 1, base);
        }
    }
  }

  /** One step of the foreach extends the filled prefix of the array by the new instance. */
  lemma {:induction false} FillStepFills(ctx: Context, fuel: nat, st: State, arr: Addr, t: TypeRef, elements: seq<Value>, i: nat, base: nat)
    requires ValidStore(st.store) && i < |elements| && base <= st.store.next && Allocate(ctx.universe, st.store, t).Some?
    requires FilledUpTo(base, st.store, arr, t, i) && |st.store.objects[arr].elements| == |elements|
    ensures var c := Allocate(ctx.universe, st.store, t).value;
      var r := MapObjects(ctx, fuel, st.(store := c.store), elements[i], Ref(c.addr));
      r.outcome.Ok? && WriteElement(r.state.store, arr, i, Ref(c.addr)).Some? ==>
        var s := WriteElement(r.state.store, arr, i, Ref(c.addr)).value;
        FilledUpTo(base, s, arr, t, i + 1) && |s.objects[arr].elements| == |elements|
  {
    var c := Allocate(ctx.universe, st.store, t).value;
    var st1 := st.(store := c.store);
    AllocateEvolves(ctx.universe, st, t);
    FilledUpToKept(base, st.store, st1.store, arr, t, i);
    var r := MapObjects(ctx, fuel, st1, elements[i], Ref(c.addr));
    MapObjectsEvolves(ctx, fuel, st1, elements[i], Ref(c.addr));
    if r.outcome.Ok? && WriteElement(r.state.store, arr, i, Ref(c.addr)).Some? {
      FilledUpToKept(base, st1.store, r.state.store, arr, t, i);
      assert FreshInstance(base, r.state.store, Ref(c.addr), t);
      var s := WriteElement(r.state.store, arr, i, Ref(c.addr)).value;
      forall j | 0 <= j < i + 1
        ensures FreshInstance(base, s, s.objects[arr].elements[j], t)
      {
        assert j < i ==> s.objects[arr].elements[j] == r.state.store.objects[arr].elements[j];
      }
    }
  }

  /**
   * A successful conversion leaves in the property a new array of the bound
   * destination type, one element per element of the collection, each a new
   * instance of that type.
   */
  lemma {:induction false} ConvertCollectionBuildsArray(ctx: Context, fuel: nat, st: State, destType: TypeRef, elements: seq<Value>, destProperty: Member, dest: Value)
    requires ValidStore(st.store)
    ensures var r := ConvertCollection(ctx, fuel, st, destType, elements, destProperty, dest);
      r.outcome != Ok(false) &&
      (r.outcome.Ok? ==>
        var arr := st.store.next;
        ReadSlot(r.state.store, dest, destProperty) == Some(Ref(arr)) &&
        FreshInstance(st.store.next, r.state.store, Ref(arr), ArrayOf(destType)) &&
        |r.state.store.objects[arr].elements| == |elements| &&
        FilledUpTo(st.store.next, r.state.store, arr, destType, |elements|))
  {
    var c := AllocateArray(st.store, destType, |elements|);
    var st1 := st.(store := c.store);
    assert ValidStore(st1.store) by {
      AllocateArrayEvolves(ctx.universe, st, destType, |elements|);
    }
    var r := FillElements(ctx, fuel, st1, c.addr, destType, elements, 0);
    FillElementsFills(ctx, fuel, st1, c.addr, destType, elements, 0, st.store.next);
    assert StoreGrows(st1.store, r.state.store) by {
      FillElementsEvolves(ctx, fuel, st1, c.addr, destType, elements, 0);
    }
    if r.outcome.Ok? && WriteSlot(r.state.store, dest, destProperty, Ref(c.addr)).Some? {
      ArrayStoredFilled(st.store.next, st1.store, r.state.store, WriteSlot(r.state.store, dest, destProperty, Ref(c.addr)).value,
                        c.addr, destType, |elements|, dest, destProperty);
    }
  }

  /** Storing a filled array in a member: the member names it, and the array keeps its type, length and elements. */
  lemma ArrayStoredFilled(base: nat, s0: Store, s1: Store, s: Store, arr: Addr, t: TypeRef, n: nat, dest: Value, m: Member)
    requires FreshInstance(base, s0, Ref(arr), ArrayOf(t)) && |s0.objects[arr].elements| == n
    requires StoreGrows(s0, s1) && FilledUpTo(base, s1, arr, t, n)
    requires WriteSlot(s1, dest, m, Ref(arr)) == Some(s)
    ensures ReadSlot(s, dest, m) == Some(Ref(arr))
    ensures FreshInstance(base, s, Ref(arr), ArrayOf(t)) && |s.objects[arr].elements| == n
    ensures FilledUpTo(base, s, arr, t, n)
  {
    forall j | 0 <= j < n
      ensures FreshInstance(base, s, s.objects[arr].elements[j], t)
    {
      assert s.objects[arr].elements[j] == s1.objects[arr].elements[j];
    }
  }

  /**
   * ProcessCollections: a dictionary answers true and changes nothing; a
   * value that is not a collection answers false and changes nothing; a
   * non-array collection of a non-generic type throws (its generic type
   * definition cannot be asked for); any false leaves the state as it was;
   * a true for anything but a dictionary means the collection's lookup
   * type had a binding and the property now holds the new filled array.
   */
  lemma {:induction false} ProcessCollectionsOutcome(ctx: Context, fuel: nat, st: State, v: Value, destProperty: Member, dest: Value)
    requires ValidStore(st.store)
    ensures var r := ProcessCollections(ctx, fuel, st, v, destProperty, dest);
      (IsDictionary(ctx.universe, st.store, v) ==> r == Run(st, Ok(true))) &&
      (!IsCollection(ctx.universe, st.store, v) ==> r == Run(st, Ok(false))) &&
      (IsCollection(ctx.universe, st.store, v) && !IsDictionary(ctx.universe, st.store, v) &&
       ElementLookupType(ctx.universe, st.store.objects[v.addr].runtimeType).None? ==>
         r == Run(st, Err(Thrown))) &&
      (r.outcome == Ok(false) ==> r.state == st) &&
      (r.outcome == Ok(true) && !IsDictionary(ctx.universe, st.store, v) ==>
         var coll := st.store.objects[v.addr];
         var elementType := ElementLookupType(ctx.universe, coll.runtimeType);
         elementType.Some? &&
         FindElementModel(ctx.universe, ctx.sourceDestModels, elementType.value).Some? &&
         var destType := FindElementModel(ctx.universe, ctx.sourceDestModels, elementType.value).value.destType;
         ReadSlot(r.state.store, dest, destProperty) == Some(Ref(st.store.next)) &&
         FreshInstance(st.store.next, r.state.store, Ref(st.store.next), ArrayOf(destType)) &&
         |r.state.store.objects[st.store.next].elements| == |coll.elements| &&
         FilledUpTo(st.store.next, r.state.store, st.store.next, destType, |coll.elements|))
  {
    if !IsDictionary(ctx.universe, st.store, v) && IsCollection(ctx.universe, st.store, v) {
      var coll := st.store.objects[v.addr];
      match ElementLookupType(ctx.universe, coll.runtimeType)
      case None =>
      case Some(elementType) =>
        if TypeOf(st.store, dest).Some? {
          match FindElementModel(ctx.universe, ctx.sourceDestModels, elementType)
          case None =>
          case Some(model) => ConvertCollectionBuildsArray(ctx, fuel, st, model.destType, coll.elements, destProperty, dest);
        }
    }
  }

  /**
   * For a collection that is not a dictionary, with a live destination
   * object, ProcessCollections answers false exactly when no element
   * binding has the FullName of the collection's lookup type.
   */
  lemma {:induction false} CollectionConvertedIffBound(ctx: Context, fuel: nat, st: State, v: Value, destProperty: Member, dest: Value)
    requires ValidStore(st.store)
    requires IsCollection(ctx.universe, st.store, v) && !IsDictionary(ctx.universe, st.store, v) && TypeOf(st.store, dest).Some?
    requires ElementLookupType(ctx.universe, st.store.objects[v.addr].runtimeType).Some?
    ensures var elementType := ElementLookupType(ctx.universe, st.store.objects[v.addr].runtimeType).value;
      ProcessCollections(ctx, fuel, st, v, destProperty, dest).outcome == Ok(false) <==>
      forall i :: 0 <= i < |ctx.sourceDestModels| ==> !ElementMatches(ctx.universe, ctx.sourceDestModels[i], elementType)
  {
    var coll := st.store.objects[v.addr];
    var elementType := ElementLookupType(ctx.universe, coll.runtimeType).value;
    match FindElementModel(ctx.universe, ctx.sourceDestModels, elementType)
    case None =>
    case Some(model) => ConvertCollectionBuildsArray(ctx, fuel, st, model.destType, coll.elements, destProperty, dest);
  }

  /**
   * A generic collection that is not an array is looked up by its generic
   * type definition, not by its element type: unless a binding is
   * registered for the definition itself, it is left alone, whatever
   * bindings exist for its elements.
   */
  lemma {:induction false} GenericCollectionLookedUpByDefinition(ctx: Context, fuel: nat, st: State, v: Value, destProperty: Member, dest: Value)
    requires ValidStore(st.store)
    requires IsCollection(ctx.universe, st.store, v) && !IsDictionary(ctx.universe, st.store, v) && TypeOf(st.store, dest).Some?
    requires st.store.objects[v.addr].runtimeType.Declared?
    requires Info(ctx.universe, st.store.objects[v.addr].runtimeType).genericDefinition.Some?
    requires forall m :: m in ctx.sourceDestModels ==>
      FullName(ctx.universe, m.sourceType) != FullName(ctx.universe, Info(ctx.universe, st.store.objects[v.addr].runtimeType).genericDefinition.value)
    ensures ProcessCollections(ctx, fuel, st, v, destProperty, dest) == Run(st, Ok(false))
  {
    var g := Info(ctx.universe, st.store.objects[v.addr].runtimeType).genericDefinition.value;
    assert forall i :: 0 <= i < |ctx.sourceDestModels| ==> !ElementMatches(ctx.universe, ctx.sourceDestModels[i], g) by {
      forall i | 0 <= i < |ctx.sourceDestModels|
        ensures !ElementMatches(ctx.universe, ctx.sourceDestModels[i], g)
      {
        assert ctx.sourceDestModels[i] in ctx.sourceDestModels;
      }
    }
  }
}
