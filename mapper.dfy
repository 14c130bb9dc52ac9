/**
 * The Mapper class: its static registries and table cache become the fields
 * of one Mapper object, and the heap it copies through is a Heap object.
 * Every mapping method is proved to leave the cache, the heap and its
 * outcome exactly as the CopyEngine function it follows says: MapTyped
 * follows MapWith, every other one the function of its own name.
 */
module Mappers {
  import opened Outcomes
  import opened Reflection
  import opened ObjectStore
  import opened Bindings
  import opened MemberTables
  import opened MappingModels
  import CopyEngine
  import MapResults

  class Mapper {
    const universe: Universe
    var mappingModels: map<string, MappingModel>
    var interfaceModels: seq<InterfaceModel>
    var sourceDestModels: seq<SourceDestModel>

    /** The static constructor: both registries and the cache start empty. */
    constructor (u: Universe)
      ensures universe == u && mappingModels == map[] && interfaceModels == [] && sourceDestModels == []
    {
      universe := u;
      mappingModels, interfaceModels, sourceDestModels := map[], [], [];
    }

    function Registrations(): CopyEngine.Context
      reads this`interfaceModels, this`sourceDestModels
    {
      CopyEngine.Context(universe, interfaceModels, sourceDestModels)
    }

    function StateWith(h: Heap): CopyEngine.State
      reads this`mappingModels, h
    {
      CopyEngine.State(mappingModels, h.Snapshot())
    }

    /** `CreateMap<TOwner, TInterface, TConcrete>()`: appends one interface binding, even an identical one. */
    method CreateInterfaceMap(ownerType: TypeRef, interfaceType: TypeRef, concreteType: TypeRef)
      modifies this`interfaceModels
      ensures interfaceModels == old(interfaceModels) + [InterfaceModel(ownerType, interfaceType, concreteType)]
    {
      interfaceModels := interfaceModels + [InterfaceModel(ownerType, interfaceType, concreteType)];
    }

    /** `CreateMap<TSource, TDest>()`: appends one element binding without an owner. */
    method CreateMap(sourceType: TypeRef, destType: TypeRef)
      modifies this`sourceDestModels
      ensures sourceDestModels == old(sourceDestModels) + [SourceDestModel(None, sourceType, destType)]
    {
      sourceDestModels := sourceDestModels + [SourceDestModel(None, sourceType, destType)];
    }

    /** `CreateDestOwnerMap<TSource, TDest, TDestOwner>()`: appends one element binding with an owner. */
    method CreateDestOwnerMap(sourceType: TypeRef, destType: TypeRef, destOwnerType: TypeRef)
      modifies this`sourceDestModels
      ensures sourceDestModels == old(sourceDestModels) + [SourceDestModel(Some(destOwnerType), sourceType, destType)]
    {
      sourceDestModels := sourceDestModels + [SourceDestModel(Some(destOwnerType), sourceType, destType)];
    }

    /** `Map<TSource, TDest>(source, dest)`: the static types are the ones the caller's type arguments name. */
    method MapTyped(h: Heap, fuel: nat, source: Value, dest: Value, sourceType: TypeRef, destType: TypeRef) returns (outcome: Outcome<()>)
      modifies this`mappingModels, h
      ensures CopyEngine.Run(StateWith(h), outcome) ==
              CopyEngine.MapWith(Registrations(), fuel, old(StateWith(h)), source, dest, sourceType, destType)
      ensures old(ValidUniverse(universe) && MappingModels.CacheFaithful(universe, mappingModels) && ValidStore(h.Snapshot())) &&
              source != dest && outcome.Ok? ==>
                var table := MapResults.TableUsed(universe, old(mappingModels), sourceType, destType);
                table.Ok? && MapResults.AllCopiedInto(universe, interfaceModels, old(h.Snapshot()), h.Snapshot(), mappingModels, source, dest, table.value)
    {
      ghost var st0 := StateWith(h);
      if ValidUniverse(universe) && MappingModels.CacheFaithful(universe, st0.cache) && ValidStore(st0.store) && source != dest {
        MapResults.MapWithCopies(Registrations(), fuel, st0, source, dest, sourceType, destType);
      }
      outcome := MapWith(h, fuel, source, dest, sourceType, destType);
    }

    /** `Map(object source, object dest)`: the runtime types of both objects. */
    method MapObjects(h: Heap, fuel: nat, source: Value, dest: Value) returns (outcome: Outcome<()>)
      modifies this`mappingModels, h
      decreases fuel, 1
      ensures CopyEngine.Run(StateWith(h), outcome) ==
              CopyEngine.MapObjects(Registrations(), fuel, old(StateWith(h)), source, dest)
      ensures old(ValidUniverse(universe) && MappingModels.CacheFaithful(universe, mappingModels) && ValidStore(h.Snapshot())) &&
              source != dest && outcome.Ok? ==>
                old(TypeOf(h.Snapshot(), source)).Some? && old(TypeOf(h.Snapshot(), dest)).Some? &&
                var table := MapResults.TableUsed(universe, old(mappingModels), old(TypeOf(h.Snapshot(), source)).value, old(TypeOf(h.Snapshot(), dest)).value);
                table.Ok? && MapResults.AllCopiedInto(universe, interfaceModels, old(h.Snapshot()), h.Snapshot(), mappingModels, source, dest, table.value)
    {
      ghost var st0 := StateWith(h);
      if ValidUniverse(universe) && MappingModels.CacheFaithful(universe, st0.cache) && ValidStore(st0.store) && source != dest {
        MapResults.MapObjectsCopies(Registrations(), fuel, st0, source, dest);
      }
      var sourceType, destType := TypeOf(h.Snapshot(), source), TypeOf(h.Snapshot(), dest);
      if sourceType.None? || destType.None? {
        return Err(Thrown);
      }
      outcome := MapWith(h, fuel, source, dest, sourceType.value, destType.value);
    }

    /** The private Map: check-then-insert on the cache, then CopyValues. */
    method MapWith(h: Heap, fuel: nat, source: Value, dest: Value, sourceType: TypeRef, destType: TypeRef) returns (outcome: Outcome<()>)
      modifies this`mappingModels, h
      decreases fuel, 0
      ensures CopyEngine.Run(StateWith(h), outcome) ==
              CopyEngine.MapWith(Registrations(), fuel, old(StateWith(h)), source, dest, sourceType, destType)
    {
      if fuel == 0 {
        return Err(DepthExhausted);
      }
      var mappingName := MappingKey(universe, sourceType, destType);
      var mappingModel: MappingModel;
      if mappingName in mappingModels {
        mappingModel := mappingModels[mappingName];
      } else {
        var table := FillMemberInfo(universe, sourceType, destType);
        if table.Err? {
          return Err(table.error);
        }
        mappingModel := MappingModel(sourceType, destType, table.value);
        mappingModels := mappingModels[mappingName := mappingModel];
      }
      outcome := CopyValues(h, fuel - 1, source, dest, mappingModel.mappingTable);
    }

    /** CopyValues: CopyValue for every table entry in order. */
    method CopyValues(h: Heap, fuel: nat, source: Value, dest: Value, table: seq<Pairing>) returns (outcome: Outcome<()>)
      modifies this`mappingModels, h
      decreases fuel, 7
      ensures CopyEngine.Run(StateWith(h), outcome) ==
              CopyEngine.CopyValues(Registrations(), fuel, old(StateWith(h)), source, dest, table, 0)
    {
      var i := 0;
      while i < |table|
        invariant 0 <= i <= |table|
        invariant CopyEngine.CopyValues(Registrations(), fuel, StateWith(h), source, dest, table, i) ==
                  CopyEngine.CopyValues(Registrations(), fuel, old(StateWith(h)), source, dest, table, 0)
      {
        outcome := CopyValue(h, fuel, table[i].source, source, table[i].dest, dest);
        if outcome.Err? {
          return;
        }
        i := i + 1;
      }
      outcome := Ok(());
    }

    /** CopyValue: GetValue on the source, then the field or the property copy. */
    method CopyValue(h: Heap, fuel: nat, sourceInfo: Member, source: Value, destInfo: Member, dest: Value) returns (outcome: Outcome<()>)
      modifies this`mappingModels, h
      decreases fuel, 6
      ensures CopyEngine.Run(StateWith(h), outcome) ==
              CopyEngine.CopyValue(Registrations(), fuel, old(StateWith(h)), sourceInfo, source, destInfo, dest)
    {
      var sourceValue := ReadSlot(h.Snapshot(), source, sourceInfo);
      if sourceValue.None? {
        return Err(Thrown);
      }
      if destInfo.kind == Field {
        if sourceInfo.kind != Field {
          return Ok(());
        }
        outcome := CopyFieldValue(h, fuel, sourceInfo, sourceValue.value, destInfo, dest);
      } else {
        if sourceInfo.kind != Property {
          return Ok(());
        }
        outcome := CopyPropertyValue(h, fuel, sourceInfo, sourceValue.value, destInfo, dest);
      }
    }

    /** CopyPropertyValue: ProcessCollections, whose answer is dropped, then the write GetConcreteType decides. */
    method CopyPropertyValue(h: Heap, fuel: nat, sourceProperty: Member, sourcePropertyValue: Value, destProperty: Member, destObject: Value)
      returns (outcome: Outcome<()>)
      modifies this`mappingModels, h
      decreases fuel, 5
      ensures CopyEngine.Run(StateWith(h), outcome) ==
              CopyEngine.CopyPropertyValue(Registrations(), fuel, old(StateWith(h)), sourceProperty, sourcePropertyValue, destProperty, destObject)
    {
      var processCollections := ProcessCollections(h, fuel, sourcePropertyValue, destProperty, destObject);
      if processCollections.Err? {
        return Err(processCollections.error);
      }
      var concrete := GetConcreteType(universe, interfaceModels, destProperty);
      if concrete.Some? {
        outcome := MapIntoConcrete(h, fuel, sourcePropertyValue, sourceProperty.memberType, concrete.value, destProperty, destObject);
      } else {
        var ok := h.SetValue(destObject, destProperty, sourcePropertyValue);
        outcome := if ok then Ok(()) else Err(Thrown);
      }
    }

    /** CopyFieldValue: the write GetConcreteType decides. */
    method CopyFieldValue(h: Heap, fuel: nat, sourceField: Member, sourceFieldValue: Value, destField: Member, destObject: Value)
      returns (outcome: Outcome<()>)
      modifies this`mappingModels, h
      decreases fuel, 5
      ensures CopyEngine.Run(StateWith(h), outcome) ==
              CopyEngine.CopyFieldValue(Registrations(), fuel, old(StateWith(h)), sourceField, sourceFieldValue, destField, destObject)
    {
      var concrete := GetConcreteType(universe, interfaceModels, destField);
      if concrete.Some? {
        outcome := MapIntoConcrete(h, fuel, sourceFieldValue, sourceField.memberType, concrete.value, destField, destObject);
      } else {
        var ok := h.SetValue(destObject, destField, sourceFieldValue);
        outcome := if ok then Ok(()) else Err(Thrown);
      }
    }

    /** The bound-concrete-type branch of both copies: Activator.CreateInstance, the private Map, SetValue. */
    method MapIntoConcrete(h: Heap, fuel: nat, value: Value, sourceType: TypeRef, concrete: TypeRef, destMember: Member, destObject: Value)
      returns (outcome: Outcome<()>)
      modifies this`mappingModels, h
      decreases fuel, 4
      ensures CopyEngine.Run(StateWith(h), outcome) ==
              CopyEngine.MapIntoConcrete(Registrations(), fuel, old(StateWith(h)), value, sourceType, concrete, destMember, destObject)
    {
      var instance := h.CreateInstance(universe, concrete);
      if instance.None? {
        return Err(Thrown);
      }
      outcome := MapWith(h, fuel, value, Ref(instance.value), sourceType, concrete);
      if outcome.Err? {
        return;
      }
      var ok := h.SetValue(destObject, destMember, Ref(instance.value));
      outcome := if ok then Ok(()) else Err(Thrown);
    }

    /** ProcessCollections: classify the value, and for a bound collection fill and write an array with a running index. */
    method ProcessCollections(h: Heap, fuel: nat, sourcePropertyValue: Value, destProperty: Member, destObject: Value)
      returns (outcome: Outcome<bool>)
      modifies this`mappingModels, h
      decreases fuel, 4
      ensures CopyEngine.Run(StateWith(h), outcome) ==
              CopyEngine.ProcessCollections(Registrations(), fuel, old(StateWith(h)), sourcePropertyValue, destProperty, destObject)
    {
      if IsDictionary(universe, h.Snapshot(), sourcePropertyValue) {
        return Ok(true);
      }
      if !IsCollection(universe, h.Snapshot(), sourcePropertyValue) {
        return Ok(false);
      }
      var coll := h.objects[sourcePropertyValue.addr];
      var sourceElementType := ElementLookupType(universe, coll.runtimeType);
      if sourceElementType.None? {
        return Err(Thrown);
      }
      if TypeOf(h.Snapshot(), destObject).None? {
        return Err(Thrown);
      }
      var model := FindElementModel(universe, sourceDestModels, sourceElementType.value);
      if model.None? {
        return Ok(false);
      }
      var destType, elements := model.value.destType, coll.elements;
      var arr := h.CreateArray(destType, |elements|);
      ghost var filling := StateWith(h);
      var i := 0;
      while i < |elements|
        invariant 0 <= i <= |elements|
        invariant CopyEngine.FillElements(Registrations(), fuel, StateWith(h), arr, destType, elements, i) ==
                  CopyEngine.FillElements(Registrations(), fuel, filling, arr, destType, elements, 0)
      {
        var step := FillElement(h, fuel, arr, destType, elements, i);
        if step.Err? {
          return Err(step.error);
        }
        i := i + 1;
      }
      var ok := h.SetValue(destObject, destProperty, Ref(arr));
      outcome := if ok then Ok(true) else Err(Thrown);
    }

    /** One pass of the foreach: a new instance, mapped from element `i` and stored at index `i`. */
    method FillElement(h: Heap, fuel: nat, arr: Addr, destType: TypeRef, elements: seq<Value>, i: nat) returns (outcome: Outcome<()>)
      requires i < |elements|
      modifies this`mappingModels, h
      decreases fuel, 3
      ensures outcome.Ok? ==>
        CopyEngine.FillElements(Registrations(), fuel, StateWith(h), arr, destType, elements, i + 1) ==
        CopyEngine.FillElements(Registrations(), fuel, old(StateWith(h)), arr, destType, elements, i)
      ensures outcome.Err? ==>
        CopyEngine.Run(StateWith(h), Err(outcome.error)) ==
        CopyEngine.FillElements(Registrations(), fuel, old(StateWith(h)), arr, destType, elements, i)
    {
      var instance := h.CreateInstance(universe, destType);
      if instance.None? {
        return Err(Thrown);
      }
      var mapped := MapObjects(h, fuel, elements[i], Ref(instance.value));
      if mapped.Err? {
        return Err(mapped.error);
      }
      var ok := h.SetElement(arr, i, Ref(instance.value));
      outcome := if ok then Ok(()) else Err(Thrown);
    }
  }
}
