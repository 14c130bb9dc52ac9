# Entropy Mapper, modelled in Dafny

Entropy's `Mapper` copies the public fields and properties of a source object into a destination object, pairing members by name. It has four parts:

- **Binding registries.** `CreateMap<TOwner, TInterface, TConcrete>` registers an interface binding: inside an owner type, a member declared as an interface is filled with a new instance of a concrete type. `CreateMap<TSource, TDest>` and `CreateDestOwnerMap` register element bindings. `ProcessCollections` looks one up for a collection-valued property by a lookup type: the element type of an array, and the open generic definition (such as `List<>`) of any other generic collection. In practice, then, only arrays match a binding registered for an element type.
- **Mapping-table cache.** The table of a type pair is keyed by the string `sourceName + "To" + destName`. It is built on the first `Map` call for that key and reused on every later call.
- **Table construction.** `FillMemberInfo` and `AddMember` pair each destination field with the first source field of the same name, and then each destination property with the first source property of the same name.
- **Copy engine.** `CopyValues`, `CopyValue`, `CopyFieldValue`, `CopyPropertyValue` and `ProcessCollections` copy along the table. A member bound to a concrete type gets a new instance, mapped recursively; any other paired member gets the source value. For a collection-valued property whose lookup type is bound, `ProcessCollections` first writes a new array of `TDest` instances, each mapped from one element. `CopyPropertyValue` then writes the property again, with the source value or a new instance of the bound concrete type. In the model that write always succeeds and replaces the array. In .NET it throws an `ArgumentException` when the source value does not fit the property's type (a `Foo[]` source into a `Bar[]` property), and the array stays; see "Left out".

The model replaces reflection by explicit type descriptors and the .NET heap by an object store:

- `Reflection` holds the type descriptors. A type has a name, a full name, ordered fields and properties, a shape (scalar, collection or dictionary), an optional generic type definition and a default-constructor flag. Array types are built from their element type.
- `ObjectStore` is the heap. The `Store` value maps addresses to objects. Each object has a runtime type, one slot per member kind and name, and a sequence of elements. A member is read and written through the slot of its kind and name, so a member declared by an interface or a base type reaches the object's own implementation. `ValidStore` says that every address lies below the next free one and that no member or element holds a dangling reference. The `Heap` class is the same heap, changed in place.
- `Bindings` holds the two binding records and their first-match lookups.
- `MemberTables` builds the mapping table. `MemberMap` is the dictionary `FillMemberInfo` fills in place.
- `MappingModels` holds the cache entry and its key.
- `CopyEngine` gives every copy step as a function from a state (the cache and the store) to a new state and an outcome.
- `Mappers.Mapper` is the mapper itself. It is a class whose fields are the static registries and the cache. Each mapping method is proved to produce exactly the state and the outcome of the `CopyEngine` function it follows: `MapTyped` follows `MapWith` on the type arguments. `FillElement`, one pass of the foreach in `ProcessCollections`, follows one step of `FillElements`. Every other mapping method follows the function of its own name. The constructor and the three registration methods state what the registries and the cache hold afterwards.
- `CopyEngineFrames`, `CopyEngineProperties` and `CacheProperties` prove what a mapping run preserves and what it writes.
- `MapResults` proves what a successful Map leaves in the destination object. Every paired member holds the source member's value, or a new instance of the concrete type bound to it. That instance was itself mapped from the source member's value: the cache holds a table for the two types, and every entry of it was copied into the instance, one level deep. Each element of an array built by `ProcessCollections` was mapped in the same sense from the collection element at the same index. Every unpaired member keeps its value.

## Model

| member | source | states |
|---|---|---|
| Mappers.Mapper.constructor | Entropy/Mapper.cs:15-20 | Both registries and the cache start empty. |
| Mappers.Mapper.CreateInterfaceMap | Entropy/Mapper.cs:22-29 | Appends exactly one interface binding with the three given types. Nothing is removed or replaced, and an identical earlier binding stays beside it. |
| Mappers.Mapper.CreateMap | Entropy/Mapper.cs:31-37 | Appends exactly one element binding with no destination owner. |
| Mappers.Mapper.CreateDestOwnerMap | Entropy/Mapper.cs:39-46 | Appends exactly one element binding that records the destination owner. |
| Mappers.Mapper.MapTyped | Entropy/Mapper.cs:48-53 | Maps with the static type arguments. The resulting cache, heap and outcome are those of `CopyEngine.MapWith` on those two types. On success from one object into another, with a faithful cache, every entry of the table used was copied: the destination member holds the source value, or a new instance of the bound concrete type that was mapped from the source member's value, one level deep. |
| Mappers.Mapper.MapObjects | Entropy/Mapper.cs:55-60 | Maps with the runtime types of both objects. A null source or destination throws. The result is that of `CopyEngine.MapObjects`. On success from one object into another, with a faithful cache, every entry of the table of the two runtime types was copied, with new instances mapped from the source members' values, as for `MapTyped`. |
| Mappers.Mapper.MapWith | Entropy/Mapper.cs:62-77 | Check-then-insert on the cache: on a key miss the table is built and inserted, a hit reuses the cached table, then the values are copied. A table that cannot be built throws before anything is cached. The resulting cache, heap and outcome are those of `CopyEngine.MapWith`, whose copy results `MapResults.MapWithCopies` states. |
| Mappers.Mapper.CopyValues | Entropy/Mapper.cs:79-87 | Runs `CopyValue` for the table entries in order with a loop and stops at the first throw. The result is that of `CopyEngine.CopyValues`. |
| Mappers.Mapper.CopyValue | Entropy/Mapper.cs:89-105 | Reads the source member, then does the field copy or the property copy according to the destination member's kind. A pair of two different kinds returns without writing. |
| Mappers.Mapper.CopyPropertyValue | Entropy/Mapper.cs:107-124 | Runs ProcessCollections and drops its answer. Then writes either a new mapped instance of the bound concrete type or the source value. |
| Mappers.Mapper.CopyFieldValue | Entropy/Mapper.cs:126-142 | The same write as the property copy, without ProcessCollections. |
| Mappers.Mapper.MapIntoConcrete | Entropy/Mapper.cs:114-118 | Creates an instance of the concrete type, maps the source value into it using the source member's declared type, and writes the instance. A type without a default constructor throws. |
| Mappers.Mapper.FillElement | Entropy/Mapper.cs:174-179 | One pass of the foreach: creates an instance of the bound type, maps the element into it and stores it at the running index. On success what remains of `CopyEngine.FillElements` is the rest of the loop; on a throw the state and the error are those of `CopyEngine.FillElements`. |
| Mappers.Mapper.ProcessCollections | Entropy/Mapper.cs:144-185 | Dictionary, collection, or neither. For a bound collection, fills a new array with a running index, one new mapped instance per element, and writes it to the property. The result is that of `CopyEngine.ProcessCollections`. |
| ObjectStore.NewInstanceMembersReadable | Entropy/Mapper.cs:116-117 | A new instance holds null in each of its type's fields and properties, and reads the same through a member of that kind and name declared by an interface or a base type. |
| ObjectStore.Heap.SetValue | Entropy/Mapper.cs:118 | `SetValue` writes one slot of a live object and changes nothing else. It throws on null or on a missing member. |
| ObjectStore.Heap.CreateInstance | Entropy/Mapper.cs:116 | `Activator.CreateInstance` adds one object with default values at a fresh address. It throws when the type has no default constructor. |
| ObjectStore.Heap.CreateArray | Entropy/Mapper.cs:172 | `Array.CreateInstance` adds an array of the given element type and length, filled with nulls, at a fresh address. |
| ObjectStore.Heap.SetElement | Entropy/Mapper.cs:178 | `array.SetValue(v, i)` changes element `i` only, and only within bounds. |
| ObjectStore.IsDictionary | Entropy/Mapper.cs:197-200 | `obj is IDictionary` is false for null, and every dictionary is also a collection. |
| ObjectStore.IsCollection | Entropy/Mapper.cs:192-195 | `obj is ICollection` is false for null and for an object whose type is neither a collection nor a dictionary. |
| MemberTables.MemberMap.Add | Entropy/Mapper.cs:224 | `Dictionary.Add` appends the pair when the key is new. Otherwise it throws and leaves the dictionary unchanged. |
| MemberTables.AddMember | Entropy/Mapper.cs:218-226 | Adds the pair of the first same-named source member when there is one. Adding a source member that is already a key throws. |
| MemberTables.AddMembers | Entropy/Mapper.cs:207-208 | The foreach over destination members. It succeeds exactly when every source member is used at most once. On success the dictionary has gained exactly the pairings of the members, in order. On a throw it holds the pairings of the members before the failing one. |
| MemberTables.FillMemberInfo | Entropy/Mapper.cs:202-216 | Returns `BuildTable`: field pairings first, then property pairings. It fails exactly when a source member would be used twice. |
| MemberTables.FirstByNameIsFirstMatch | Entropy/Mapper.cs:221 | `FirstOrDefault` by name returns nothing exactly when no source member has the name. Otherwise it returns the first member with that name. |
| MemberTables.PairingsSound | Entropy/Mapper.cs:218-226 | Every pairing joins two members of the same name, and its source is the first same-named source member. The keys are exactly the first matches of the destination names. |
| MemberTables.PairingsComplete | Entropy/Mapper.cs:218-226 | Every destination member with a same-named source member has its pairing in the table. |
| MemberTables.PairingsAppend | Entropy/Mapper.cs:207-213 | Pairing a concatenation of destination members pairs each part in order. |
| MemberTables.DistinctPairingsIff | Entropy/Mapper.cs:218-226 | The pairings use no source member twice exactly when no two destination members share the name of an existing source member. |
| MemberTables.BuildTableFailsOnSharedSource | Entropy/Mapper.cs:202-226 | Building the table throws exactly when two destination fields share a source field name, or two destination properties share a source property name. |
| MemberTables.BuildTableSound | Entropy/Mapper.cs:202-226 | A built table uses each source member once. Each pairing joins members of the same kind and the same name, so fields never pair with properties. |
| MemberTables.BuildTableDistinctDests | Entropy/Mapper.cs:202-226 | A built table writes each destination member, by kind and name, at most once. |
| MemberTables.BuildTableComplete | Entropy/Mapper.cs:202-226 | Every destination field and property that has a same-named source member of its kind is paired in a built table. |
| MemberTables.DistinctConcat | Entropy/Mapper.cs:202-216 | With disjoint source members, the field table concatenated with the property table is duplicate-free exactly when both parts are. |
| Bindings.GetConcreteType | Entropy/Mapper.cs:228-250 | Returns the concrete type of the first interface binding whose owner has the declaring type's FullName and whose interface has the member type's simple Name. Returns nothing exactly when no binding matches. |
| Bindings.FindElementModel | Entropy/Mapper.cs:168 | Returns the first element binding whose source type has the FullName of the lookup type. Returns nothing exactly when none has. |
| Bindings.ElementLookupIgnoresOwner | Entropy/Mapper.cs:165-168 | The destination-owner qualifier plays no part in the lookup. Changing it changes neither whether a binding is found nor its destination type. |
| Bindings.ConcreteTypeAfterRegistration | Entropy/Mapper.cs:22-29 | A newly appended interface binding changes the lookup only for members no earlier binding matched. |
| Bindings.ElementModelAfterRegistration | Entropy/Mapper.cs:31-46 | A newly appended element binding changes the lookup only for types no earlier binding matched. |
| Reflection.MemberKindsOf | Entropy/Mapper.cs:205-211 | Helper that unfolds `ValidUniverse` for one type: its `GetFields` lists fields only and its `GetProperties` lists properties only. |
| Reflection.ElementLookupType | Entropy/Mapper.cs:162 | The lookup type of an array type is its element type, whatever the generic definitions say. The lookup fails, as `GetGenericTypeDefinition` throws, exactly for a declared type that is not generic. |
| MappingModels.MappingKey | Entropy/Mapper.cs:64 | The key is the source type's simple name, then `To`, then the destination type's simple name, and nothing else. |
| MappingModels.MappingKeyCollides | Entropy/Mapper.cs:64 | Two different type pairs can share a cache key, for example "ATo"/"B" and "A"/"ToB". |
| MappingModels.CachedTablesWellFormed | Entropy/MappingModel.cs:10-15 | A table in a faithful cache never repeats a source member, and pairs members of one kind and one name. |
| CacheProperties.MapWithCachesTable | Entropy/Mapper.cs:66-74 | On a key miss the built table is cached under the key, with exactly the two types it was built from. This holds even when the copy then throws. |
| CacheProperties.CachedTableReused | Entropy/Mapper.cs:62-76 | Once cached, a table is used by every later Map whose key string coincides, whatever that Map's own types are. |
| CacheProperties.MapWithFailsOnSharedSource | Entropy/Mapper.cs:67-74 | When the table cannot be built, Map throws, caches nothing and writes nothing. |
| CacheProperties.CopyValuesSequential | Entropy/Mapper.cs:79-87 | Copying along `t1 + t2` copies along `t1` and then, unless that threw, along `t2`. |
| CacheProperties.CopyValuesSingle | Entropy/Mapper.cs:81-86 | A one-entry table is exactly one CopyValue of that entry. |
| CacheProperties.CachedEntryAlwaysCopies | Entropy/Mapper.cs:89-142 | For an entry of a cached table the kind-mismatch early returns are unreachable. CopyValue throws on an unreadable source, and otherwise copies. |
| CopyEngineFrames.MapWithEvolves | Entropy/Mapper.cs:62-77 | A Map run, successful or not, only adds cache entries and keeps every entry faithful to its types. It never removes an object or changes its runtime type or length. It changes the members of no object other than the destination, and the elements of no existing object. |
| CopyEngineFrames.MapObjectsEvolves | Entropy/Mapper.cs:55-60 | The same for the untyped Map: only the destination's members change. |
| CopyEngineFrames.CopyValuesEvolves | Entropy/Mapper.cs:79-87 | The same for CopyValues. |
| CopyEngineFrames.CopyValueEvolves | Entropy/Mapper.cs:89-105 | The same for CopyValue. |
| CopyEngineFrames.CopyPropertyValueEvolves | Entropy/Mapper.cs:107-124 | The same for the property copy. |
| CopyEngineFrames.CopyFieldValueEvolves | Entropy/Mapper.cs:126-142 | The same for the field copy. |
| CopyEngineFrames.MapIntoConcreteEvolves | Entropy/Mapper.cs:114-118 | The same for the bound-concrete-type branch. |
| CopyEngineFrames.MapNewInstanceEvolves | Entropy/Mapper.cs:116-117 | Mapping into the new instance changes the members of no object that existed before it, and the instance still exists afterwards. |
| CopyEngineFrames.MapWithBuiltEvolves | Entropy/Mapper.cs:66-76 | The frame of a Map on a cache miss: the insertion of the new entry, then the copy along the built table. |
| CopyEngineFrames.ProcessCollectionsEvolves | Entropy/Mapper.cs:144-185 | The same for ProcessCollections. |
| CopyEngineFrames.ConvertCollectionEvolves | Entropy/Mapper.cs:172-182 | The same for the array conversion. Only the destination's members and elements of the new array are written. |
| CopyEngineFrames.FillElementsEvolves | Entropy/Mapper.cs:174-179 | The foreach writes the members of no existing object, and elements of the target array only. |
| CopyEngineFrames.MapNewElementEvolves | Entropy/Mapper.cs:176-177 | Mapping one element into its new instance changes no object that existed before the pass, and the instance still exists afterwards. |
| CopyEngineProperties.FillElementsFills | Entropy/Mapper.cs:173-179 | On success, every index up to the collection's count holds a new instance of the bound type. |
| CopyEngineProperties.ConvertCollectionBuildsArray | Entropy/Mapper.cs:172-182 | On success the property holds a new array of the bound type, whose length is the collection's count and whose elements are new instances of that type. The conversion never answers false. |
| CopyEngineProperties.ProcessCollectionsOutcome | Entropy/Mapper.cs:144-185 | A dictionary answers true and changes nothing. A non-collection answers false and changes nothing. A non-generic, non-array collection throws. A false answer leaves the state as it was. A true answer for a non-dictionary means the lookup type was bound and the property holds the new filled array. |
| CopyEngineProperties.CollectionConvertedIffBound | Entropy/Mapper.cs:158-170 | For a non-dictionary collection, ProcessCollections answers false exactly when no element binding has the FullName of the lookup type. |
| CopyEngineProperties.GenericCollectionLookedUpByDefinition | Entropy/Mapper.cs:162 | A generic non-array collection is looked up by its generic type definition. Unless that definition itself is registered, the collection is left alone, whatever bindings exist for its elements. |
| MapResults.MapIntoConcreteOnlyMember | Entropy/Mapper.cs:114-118 | Of the destination's members, the bound-concrete-type branch changes only the one it writes; the nested Map works on the new instance. |
| MapResults.ConvertCollectionOnlyMember | Entropy/Mapper.cs:172-182 | Of the destination's members, the array conversion changes only the property it writes. |
| MapResults.ProcessCollectionsOnlyMember | Entropy/Mapper.cs:144-185 | Of the destination's members, ProcessCollections changes at most the property it was given. |
| MapResults.CopyValueOnlyMember | Entropy/Mapper.cs:89-142 | Of the destination's members, one CopyValue changes only the entry's destination member. |
| MapResults.MapIntoConcreteWritesFreshInstance | Entropy/Mapper.cs:114-118 | On success the member holds an instance of the concrete type allocated at the start of the call. |
| MapResults.MapIntoConcreteWritesMappedInstance | Entropy/Mapper.cs:114-118 | For an existing destination and a source value that is null or an existing object, on success the cache holds a table for the source member's declared type and the concrete type, and every entry of that table was copied from the source value into the new instance. |
| MapResults.PropertyValueFixedByConcreteType | Entropy/Mapper.cs:107-124 | After a successful property copy, GetConcreteType alone fixes the property's value, whatever ProcessCollections answered or wrote. The value is a new instance of the bound type, or else the source value itself. |
| MapResults.PropertyInstanceMappedFrom | Entropy/Mapper.cs:112-118 | With a bound concrete type, the instance a successful property copy leaves was mapped from the source value, after whatever ProcessCollections wrote, provided the destination existed and is not the source value. |
| MapResults.FieldValueFixedByConcreteType | Entropy/Mapper.cs:126-142 | A successful field copy holds a new instance of the bound type. Otherwise it holds the source value, and nothing is allocated. |
| MapResults.FieldInstanceMappedFrom | Entropy/Mapper.cs:130-135 | With a bound concrete type, the instance a successful field copy leaves was mapped from the source value. |
| MapResults.CopyValueCopies | Entropy/Mapper.cs:89-142 | A successful CopyValue of an entry of one kind read the source member, and the destination member then holds the source value, or a new instance of the bound concrete type. |
| MapResults.CopyValueMapsInstance | Entropy/Mapper.cs:89-142 | The same, and a new instance it writes was mapped from the source member's value, when that value is not the destination and the destination existed. |
| MapResults.CopyValuesKeepsOtherMembers | Entropy/Mapper.cs:79-87 | A destination member that no remaining entry writes keeps its value through the loop, whether or not it throws. |
| MapResults.CopyValuesCopies | Entropy/Mapper.cs:79-87 | A successful loop from one object into another, along entries of one kind with distinct destination members, leaves every entry copied: a later entry never undoes an earlier one, and the source is never written. |
| MapResults.CopyValuesMapsInstances | Entropy/Mapper.cs:79-87 | A successful loop from one object into another, with a faithful cache, leaves every remaining entry copied in that stronger sense, against the cache at the end. A later entry undoes neither an earlier value nor the mapping of an earlier instance. |
| MapResults.TableUsedWellFormed | Entropy/Mapper.cs:66-74 | The table Map uses, cached or built, pairs members of one kind and writes each destination member once. |
| MapResults.TableCopied | Entropy/Mapper.cs:79-87 | A successful loop along a whole well-formed table copies every entry of it. |
| MapResults.TableMapsInstances | Entropy/Mapper.cs:79-87 | With a faithful cache, the loop along a whole well-formed table copies every entry, with new instances mapped from the source values. |
| MapResults.MapWithCopies | Entropy/Mapper.cs:62-77 | A successful Map from one object into another, with a faithful cache, copies every entry of the table it used. A new instance written for a bound concrete type was mapped from the source member's value, one level deep. |
| MapResults.MapWithCachedCopies | Entropy/Mapper.cs:66-76 | The same on a cache hit, along the cached table. |
| MapResults.MapWithBuiltCopies | Entropy/Mapper.cs:66-76 | On a cache miss, whatever the cache held, the values are copied along the freshly built table. |
| MapResults.MapWithBuiltMapsInstances | Entropy/Mapper.cs:66-76 | The same with a faithful cache, with new instances mapped from the source values. |
| MapResults.MapWithKeepsUnpairedMembers | Entropy/Mapper.cs:62-87 | A destination member the table does not pair keeps its value, whether Map succeeds or not. |
| MapResults.MapObjectsCopies | Entropy/Mapper.cs:55-60 | A successful untyped Map copies every entry of the table of the two runtime types. |
| MapResults.MapObjectsMapsInto | Entropy/Mapper.cs:55-76 | After a successful untyped Map the cache holds a table under the key of the two runtime types, and every entry of that table was copied from the source into the destination. |
| MapResults.FillElementsMapsElements | Entropy/Mapper.cs:174-179 | On success, for every index of the collection, the array element is a new instance of the bound type. The cache holds a table for the collection element's runtime type and the bound type, and every entry of it was copied from that collection element into the array element. |
| MapResults.ConvertCollectionMapsElements | Entropy/Mapper.cs:172-181 | For a live destination, a successful conversion leaves in the property the new array, whose element at each index was mapped, as above, from the collection element at the same index. |

## Left out

- Members are resolved on an object by kind and name. A member of an unrelated type with the same kind and name therefore reads and writes the object's slot, where .NET throws a `TargetException`; a member hidden with `new` shares one slot with the member it hides.
- MapResults.MapWithCopies: states the copy only for a source and destination that are different objects. When they are the same object, a later entry can read a member an earlier entry wrote, and the lemma does not describe that case. That a new instance was mapped from the source member's value is stated one level deep: the instance's own members hold the values or new instances the nested Map wrote, and what those nested instances hold is not restated. It is stated only when the destination existed and the source member's value is not the destination itself.
- Reflection internals are replaced by descriptors. This covers binding flags, `DeclaringType` for inherited members, indexers, read-only properties and static members, which are modelled as slots of each object.
- Type compatibility of `SetValue` is not modelled. A write succeeds exactly when the target is a live object that has the member, so a mismatched write that would throw in .NET succeeds here. In particular, after ProcessCollections has written its converted array, the write of the source value in `CopyPropertyValue` replaces the array in the model. In .NET that write throws an `ArgumentException` when the source array does not fit the property's type, so the Map fails and the converted array stays in the property.
- Every exception is collapsed into one failure outcome, `Thrown`. A failed call leaves every write made before the throw in place.
- Default values of new instances are all `Null`. The model boxes scalars as objects and does not distinguish value types.
- Array types have no fields or properties in the model. Type identifiers the universe does not declare behave as an empty, scalar, non-constructible type.
- Recursion depth is bounded by `fuel`, one unit per nested Map. A run that exhausts it ends in `DepthExhausted`, where the source would recurse on or overflow its stack. Termination of cyclic object graphs is not modelled.
- `HashSet` and `Dictionary` enumeration is assumed to follow insertion order. This applies to the registries, the mapping table and the enumerated collection elements.
- Concurrency is not modelled. The static registries and the non-atomic check-then-insert are modelled for a single thread.
- `IsList` is not modelled: no other member calls it.
- The unreachable `dictionary == null` branch and the empty loop over the dictionary's values are not modelled. Neither changes any state.
- The commented-out element-type and interface lookups are not modelled, and neither is the unused `ownerType` local. The only effect of the `GetType` call is a throw for a null destination, which is modelled.
- CopyEngineProperties.ConvertCollectionBuildsArray: states that each element is a new instance of the bound type, for any store. That each instance was mapped from the collection element at the same index is stated by `MapResults.ConvertCollectionMapsElements`, for a live destination and a faithful cache.
- MapResults.FillElementsMapsElements: states that each array element was mapped from its collection element one level deep, as for `MapResults.MapWithCopies`. What the nested instances inside an element hold is not restated.
