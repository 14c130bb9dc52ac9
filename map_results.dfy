/**
 * What a successful Map leaves in the destination object: every member the
 * table pairs holds the source member's value, or a new instance of the
 * concrete type bound to it, itself mapped from the source member's value;
 * every member the table does not pair keeps its value.
 */
module MapResults {
  import opened Outcomes
  import opened Reflection
  import opened ObjectStore
  import opened Bindings
  import opened MemberTables
  import opened MappingModels
  import opened CopyEngine
  import opened CopyEngineFrames
  import opened CopyEngineProperties
  import opened CacheProperties

  /** Between `s0` and `s1`, of the members of `dest` at most `m` changes. */
  ghost predicate OnlyMemberWritten(s0: Store, s1: Store, dest: Value, m: Member)
  {
    forall m' :: ReadSlot(s0, dest, m').Some? && SlotOf(m') != SlotOf(m) ==> ReadSlot(s1, dest, m') == ReadSlot(s0, dest, m')
  }

  /**
   * The value of entry `p` was copied from `source` in `s0` into `dest` in
   * `s1`: the destination member holds the source member's value, or, when
   * a concrete type is bound to it, a new instance of that type.
   */
  ghost predicate ValueCopied(u: Universe, models: seq<InterfaceModel>, s0: Store, s1: Store, source: Value, dest: Value, p: Pairing)
  {
    ReadSlot(s0, source, p.source).Some? && ReadSlot(s1, dest, p.dest).Some? &&
    match GetConcreteType(u, models, p.dest)
    case None => ReadSlot(s1, dest, p.dest) == ReadSlot(s0, source, p.source)
    case Some(t) => FreshInstance(s0.next, s1, ReadSlot(s1, dest, p.dest).value, t)
  }

  ghost predicate AllValuesCopied(u: Universe, models: seq<InterfaceModel>, s0: Store, s1: Store, source: Value, dest: Value, table: seq<Pairing>)
  {
    forall p :: p in table ==> ValueCopied(u, models, s0, s1, source, dest, p)
  }

  /**
   * The instance `inst` was mapped from `v`: the cache holds a table for
   * `sourceType` and `t`, and the value of every entry of it was copied
   * from `v` in `s0` into `inst` in `s1`.
   */
  ghost predicate MappedFrom(u: Universe, models: seq<InterfaceModel>, s0: Store, s1: Store, cache: map<string, MappingModel>,
                             v: Value, inst: Value, sourceType: TypeRef, t: TypeRef)
  {
    var key := MappingKey(u, sourceType, t);
    key in cache && AllValuesCopied(u, models, s0, s1, v, inst, cache[key].mappingTable)
  }

  /**
   * Entry `p` was copied from `source` in `s0` into `dest` in `s1`, with
   * `cache` the cache afterwards: its value was copied, and a new instance
   * written to a member bound to a concrete type was itself mapped from the
   * source member's value, one level deep. The last part is stated when
   * `dest` existed in `s0` and the source member's value is not `dest`.
   */
  ghost predicate CopiedInto(u: Universe, models: seq<InterfaceModel>, s0: Store, s1: Store, cache: map<string, MappingModel>,
                             source: Value, dest: Value, p: Pairing)
  {
    ValueCopied(u, models, s0, s1, source, dest, p) &&
    (GetConcreteType(u, models, p.dest).Some? && ReadSlot(s0, source, p.source).value != dest && Live(s0, dest) ==>
      MappedFrom(u, models, s0, s1, cache, ReadSlot(s0, source, p.source).value, ReadSlot(s1, dest, p.dest).value,
                 p.source.memberType, GetConcreteType(u, models, p.dest).value))
  }

  /** Every entry of `table` was copied from `source` in `s0` into `dest` in `s1`. */
  ghost predicate AllCopiedInto(u: Universe, models: seq<InterfaceModel>, s0: Store, s1: Store, cache: map<string, MappingModel>,
                                source: Value, dest: Value, table: seq<Pairing>)
  {
    forall p :: p in table ==> CopiedInto(u, models, s0, s1, cache, source, dest, p)
  }

  lemma AllCopiedValues(u: Universe, models: seq<InterfaceModel>, s0: Store, s1: Store, cache: map<string, MappingModel>,
                        source: Value, dest: Value, table: seq<Pairing>)
    requires AllCopiedInto(u, models, s0, s1, cache, source, dest, table)
    ensures AllValuesCopied(u, models, s0, s1, source, dest, table)
  {
    forall p | p in table ensures ValueCopied(u, models, s0, s1, source, dest, p) {
      assert CopiedInto(u, models, s0, s1, cache, source, dest, p);
    }
  }

  /** An object that only `target` differs from reads the same through every member. */
  lemma ReadsKept(s0: Store, s1: Store, target: Value, x: Value)
    requires SlotsKept(s0, s1, target) && ValueIn(s0, x) && (x.Ref? ==> x != target)
    ensures forall m :: ReadSlot(s1, x, m) == ReadSlot(s0, x, m)
  {
  }

  /** Copied values stay copied from a state that reads the same, into a state where only `target` changed. */
  lemma ValuesCopiedMoved(u: Universe, models: seq<InterfaceModel>, s0: Store, s0': Store, s1: Store, s1': Store,
                          source: Value, dest: Value, table: seq<Pairing>, target: Value)
    requires AllValuesCopied(u, models, s0, s1, source, dest, table)
    requires s0'.next <= s0.next && forall m :: ReadSlot(s0', source, m) == ReadSlot(s0, source, m)
    requires StoreGrows(s1, s1') && SlotsKept(s1, s1', target) && dest != target
    ensures AllValuesCopied(u, models, s0', s1', source, dest, table)
  {
    forall p | p in table ensures ValueCopied(u, models, s0', s1', source, dest, p) {
      assert ValueCopied(u, models, s0, s1, source, dest, p);
      assert ReadSlot(s1', dest, p.dest) == ReadSlot(s1, dest, p.dest);
      assert ReadSlot(s0', source, p.source) == ReadSlot(s0, source, p.source);
    }
  }

  lemma MappedFromMoved(u: Universe, models: seq<InterfaceModel>, s0: Store, s0': Store, s1: Store, s1': Store,
                        cache: map<string, MappingModel>, cache': map<string, MappingModel>,
                        v: Value, inst: Value, sourceType: TypeRef, t: TypeRef, target: Value)
    requires MappedFrom(u, models, s0, s1, cache, v, inst, sourceType, t)
    requires s0'.next <= s0.next && forall m :: ReadSlot(s0', v, m) == ReadSlot(s0, v, m)
    requires StoreGrows(s1, s1') && SlotsKept(s1, s1', target) && inst != target && CacheExtends(cache, cache')
    ensures MappedFrom(u, models, s0', s1', cache', v, inst, sourceType, t)
  {
    var key := MappingKey(u, sourceType, t);
    ValuesCopiedMoved(u, models, s0, s0', s1, s1', v, inst, cache[key].mappingTable, target);
  }

  /** An entry copied into `dest` stays copied while only the other members of `dest` and newer objects change. */
  lemma CopiedIntoLater(u: Universe, models: seq<InterfaceModel>, s0: Store, s1: Store, s1': Store,
                        cache: map<string, MappingModel>, cache': map<string, MappingModel>, source: Value, dest: Value, p: Pairing)
    requires CopiedInto(u, models, s0, s1, cache, source, dest, p) && ValidStore(s0)
    requires StoreGrows(s1, s1') && SlotsKept(s1, s1', dest) && CacheExtends(cache, cache')
    requires ReadSlot(s1', dest, p.dest) == ReadSlot(s1, dest, p.dest)
    ensures CopiedInto(u, models, s0, s1', cache', source, dest, p)
  {
    var v := ReadSlot(s0, source, p.source).value;
    match GetConcreteType(u, models, p.dest)
    case None =>
    case Some(t) =>
      if v != dest && Live(s0, dest) {
        MappedFromMoved(u, models, s0, s0, s1, s1', cache, cache', v, ReadSlot(s1, dest, p.dest).value, p.source.memberType, t, dest);
      }
  }

  /** An entry copied from `source` was copied from every earlier state that differs from `s0` in the members of `dest` only. */
  lemma CopiedIntoEarlier(u: Universe, models: seq<InterfaceModel>, s0': Store, s0: Store, s1: Store,
                          cache: map<string, MappingModel>, source: Value, dest: Value, p: Pairing)
    requires CopiedInto(u, models, s0, s1, cache, source, dest, p)
    requires ValidStore(s0') && StoreGrows(s0', s0) && SlotsKept(s0', s0, dest) && source != dest && ValueIn(s0', source)
    ensures CopiedInto(u, models, s0', s1, cache, source, dest, p)
  {
    ReadsKept(s0', s0, dest, source);
    var v := ReadSlot(s0, source, p.source).value;
    match GetConcreteType(u, models, p.dest)
    case None =>
    case Some(t) =>
      if v != dest && Live(s0', dest) {
        ReadsKept(s0', s0, dest, v);
        MappedFromMoved(u, models, s0, s0', s1, s1, cache, cache, v, ReadSlot(s1, dest, p.dest).value, p.source.memberType, t, Null);
      }
  }

  lemma KeptMembers(u: Universe, st0: State, st1: State, w: Value, dest: Value, m: Member)
    requires Evolves(u, st0, st1, Null, w)
    ensures OnlyMemberWritten(st0.store, st1.store, dest, m)
  {
  }

  lemma OnlyMemberTrans(s0: Store, s1: Store, s2: Store, dest: Value, m: Member)
    requires OnlyMemberWritten(s0, s1, dest, m) && OnlyMemberWritten(s1, s2, dest, m)
    ensures OnlyMemberWritten(s0, s2, dest, m)
  {
  }

  lemma {:induction false} MapIntoConcreteOnlyMember(ctx: Context, fuel: nat, st: State, v: Value, sourceType: TypeRef, concrete: TypeRef, destMember: Member, dest: Value)
    requires ValidStore(st.store)
    ensures OnlyMemberWritten(st.store, MapIntoConcrete(ctx, fuel, st, v, sourceType, concrete, destMember, dest).state.store, dest, destMember)
  {
    match Allocate(ctx.universe, st.store, concrete)
    case None =>
    case Some(c) =>
      MapNewInstanceEvolves(ctx, fuel, st, v, sourceType, concrete);
      var r := MapWith(ctx, fuel, st.(store := c.store), v, Ref(c.addr), sourceType, concrete);
      KeptMembers(ctx.universe, st, r.state, Null, dest, destMember);
      if r.outcome.Ok? {
        OnlyMemberTrans(st.store, r.state.store, Assign(r.state, dest, destMember, Ref(c.addr)).state.store, dest, destMember);
      }
  }

  lemma {:induction false} ConvertCollectionOnlyMember(ctx: Context, fuel: nat, st: State, destType: TypeRef, elements: seq<Value>, destProperty: Member, dest: Value)
    requires ValidStore(st.store)
    ensures OnlyMemberWritten(st.store, ConvertCollection(ctx, fuel, st, destType, elements, destProperty, dest).state.store, dest, destProperty)
  {
    var c := AllocateArray(st.store, destType, |elements|);
    var st1 := st.(store := c.store);
    AllocateArrayEvolves(ctx.universe, st, destType, |elements|);
    var r := FillElements(ctx, fuel, st1, c.addr, destType, elements, 0);
    FillElementsEvolves(ctx, fuel, st1, c.addr, destType, elements, 0);
    EvolvesTrans(ctx.universe, st, st1, r.state, Null, Null, Null, Ref(c.addr), Null, Ref(c.addr));
    KeptMembers(ctx.universe, st, r.state, Ref(c.addr), dest, destProperty);
    if r.outcome.Ok? && WriteSlot(r.state.store, dest, destProperty, Ref(c.addr)).Some? {
      WriteSlotOnlyMember(r.state.store, dest, destProperty, Ref(c.addr));
      OnlyMemberTrans(st.store, r.state.store, WriteSlot(r.state.store, dest, destProperty, Ref(c.addr)).value, dest, destProperty);
    }
  }

  /** A member write changes, of the target's members, only that one. */
  lemma WriteSlotOnlyMember(s: Store, dest: Value, m: Member, v: Value)
    requires WriteSlot(s, dest, m, v).Some?
    ensures OnlyMemberWritten(s, WriteSlot(s, dest, m, v).value, dest, m)
  {
  }

  lemma {:induction false} ProcessCollectionsOnlyMember(ctx: Context, fuel: nat, st: State, v: Value, destProperty: Member, dest: Value)
    requires ValidStore(st.store)
    ensures OnlyMemberWritten(st.store, ProcessCollections(ctx, fuel, st, v, destProperty, dest).state.store, dest, destProperty)
  {
    if !IsDictionary(ctx.universe, st.store, v) && IsCollection(ctx.universe, st.store, v) {
      var coll := st.store.objects[v.addr];
      match ElementLookupType(ctx.universe, coll.runtimeType)
      case None =>
      case Some(elementType) =>
        if TypeOf(st.store, dest).Some? {
          match FindElementModel(ctx.universe, ctx.sourceDestModels, elementType)
          case None =>
          case Some(model) => ConvertCollectionOnlyMember(ctx, fuel, st, model.destType, coll.elements, destProperty, dest);
        }
    }
  }

  /** A copy of one entry changes, of the destination's members, only the entry's own. */
  lemma {:induction false} CopyValueOnlyMember(ctx: Context, fuel: nat, st: State, sourceMember: Member, source: Value, destMember: Member, dest: Value)
    requires ValidStore(st.store)
    ensures OnlyMemberWritten(st.store, CopyValue(ctx, fuel, st, sourceMember, source, destMember, dest).state.store, dest, destMember)
  {
    match ReadSlot(st.store, source, sourceMember)
    case None =>
    case Some(v) =>
      if destMember.kind == Field && sourceMember.kind == Field {
        match GetConcreteType(ctx.universe, ctx.interfaceModels, destMember)
        case Some(t) => MapIntoConcreteOnlyMember(ctx, fuel, st, v, sourceMember.memberType, t, destMember, dest);
        case None =>
      } else if destMember.kind == Property && sourceMember.kind == Property {
        var handled := ProcessCollections(ctx, fuel, st, v, destMember, dest);
        ProcessCollectionsOnlyMember(ctx, fuel, st, v, destMember, dest);
        ProcessCollectionsEvolves(ctx, fuel, st, v, destMember, dest);
        if handled.outcome.Ok? {
          var r := CopyPropertyValue(ctx, fuel, st, sourceMember, v, destMember, dest);
          var concrete := GetConcreteType(ctx.universe, ctx.interfaceModels, destMember);
          if concrete.Some? {
            MapIntoConcreteOnlyMember(ctx, fuel, handled.state, v, sourceMember.memberType, concrete.value, destMember, dest);
          }
          OnlyMemberTrans(st.store, handled.state.store, r.state.store, dest, destMember);
        }
      }
  }

  /** The table Map copies along: the cached one under the key, or else the one built from the two types. */
  function TableUsed(u: Universe, cache: map<string, MappingModel>, sourceType: TypeRef, destType: TypeRef): Outcome<seq<Pairing>>
  {
    var key := MappingKey(u, sourceType, destType);
    if key in cache then Ok(cache[key].mappingTable) else BuildTable(u, sourceType, destType)
  }

  /** A table Map can use pairs members of one kind and writes each destination member once. */
  lemma TableUsedWellFormed(u: Universe, cache: map<string, MappingModel>, sourceType: TypeRef, destType: TypeRef)
    requires ValidUniverse(u) && CacheFaithful(u, cache)
    requires TableUsed(u, cache, sourceType, destType).Ok?
    ensures DistinctDests(TableUsed(u, cache, sourceType, destType).value)
    ensures forall p :: p in TableUsed(u, cache, sourceType, destType).value ==> p.source.kind == p.dest.kind
  {
    var key := MappingKey(u, sourceType, destType);
    if key in cache {
      CachedTableUsable(u, cache, key);
    } else {
      BuildTableSound(u, sourceType, destType);
      BuildTableDistinctDests(u, sourceType, destType);
    }
  }

  /** A built table pairs members of one kind. */
  lemma BuildTableKinds(u: Universe, sourceType: TypeRef, destType: TypeRef)
    requires ValidUniverse(u) && BuildTable(u, sourceType, destType).Ok?
    ensures forall p :: p in BuildTable(u, sourceType, destType).value ==> p.source.kind == p.dest.kind
  {
    BuildTableSound(u, sourceType, destType);
  }

  /** After a successful Map the cache holds, under the key, the table the Map used. */
  lemma {:induction false} MapWithTableCached(ctx: Context, fuel: nat, st: State, source: Value, dest: Value, sourceType: TypeRef, destType: TypeRef)
    requires ValidStore(st.store)
    ensures var r := MapWith(ctx, fuel, st, source, dest, sourceType, destType);
      var key := MappingKey(ctx.universe, sourceType, destType);
      r.outcome.Ok? ==>
        TableUsed(ctx.universe, st.cache, sourceType, destType).Ok? &&
        key in r.state.cache && r.state.cache[key].mappingTable == TableUsed(ctx.universe, st.cache, sourceType, destType).value
  {
    MapWithEvolves(ctx, fuel, st, source, dest, sourceType, destType);
    if fuel > 0 && MappingKey(ctx.universe, sourceType, destType) !in st.cache && BuildTable(ctx.universe, sourceType, destType).Ok? {
      MapWithCachesTable(ctx, fuel, st, source, dest, sourceType, destType);
    }
  }

  /** A write to a member of `dest` keeps every object, its type and the members of every other object, and is read back. */
  lemma AssignFrames(st: State, dest: Value, m: Member, v: Value)
    ensures var r := Assign(st, dest, m, v);
      r.state.cache == st.cache && StoreGrows(st.store, r.state.store) && SlotsKept(st.store, r.state.store, dest) &&
      (r.outcome.Ok? ==> ReadSlot(r.state.store, dest, m) == Some(v))
  {
  }

  /**
   * An instance allocated at the end of `s`, into which `v` was mapped from
   * `s1` to `sr` along the cached table, was mapped from `v` in `s`, and
   * stays so after a write to another object.
   */
  lemma MappedAfterWrite(u: Universe, models: seq<InterfaceModel>, s: Store, s1: Store, sr: Store, s2: Store,
                         cache: map<string, MappingModel>, v: Value, inst: Value, sourceType: TypeRef, t: TypeRef, dest: Value)
    requires ValidStore(s) && ValueIn(s, v) && Live(s, dest) && inst == Ref(s.next)
    requires StoreGrows(s, s1) && SlotsKept(s, s1, Null)
    requires MappingKey(u, sourceType, t) in cache
    requires AllCopiedInto(u, models, s1, sr, cache, v, inst, cache[MappingKey(u, sourceType, t)].mappingTable)
    requires StoreGrows(sr, s2) && SlotsKept(sr, s2, dest)
    ensures MappedFrom(u, models, s, s2, cache, v, inst, sourceType, t)
  {
    MappedThenKept(u, models, s, s1, sr, s2, cache, v, inst, sourceType, t, dest);
  }

  /**
   * A copy from `v` into `inst` made between `s1` and `sr` still counts as
   * made from `v` as it was in the earlier store `s0`, and survives a later
   * store `s2` that leaves the slots of `inst` alone.
   */
  lemma MappedThenKept(u: Universe, models: seq<InterfaceModel>, s0: Store, s1: Store, sr: Store, s2: Store,
                       cache: map<string, MappingModel>, v: Value, inst: Value, sourceType: TypeRef, t: TypeRef, target: Value)
    requires ValueIn(s0, v) && StoreGrows(s0, s1) && SlotsKept(s0, s1, Null)
    requires MappingKey(u, sourceType, t) in cache
    requires AllCopiedInto(u, models, s1, sr, cache, v, inst, cache[MappingKey(u, sourceType, t)].mappingTable)
    requires StoreGrows(sr, s2) && SlotsKept(sr, s2, target) && inst != target
    ensures MappedFrom(u, models, s0, s2, cache, v, inst, sourceType, t)
  {
    var table := cache[MappingKey(u, sourceType, t)].mappingTable;
    AllCopiedValues(u, models, s1, sr, cache, v, inst, table);
    ReadsKept(s0, s1, Null, v);
    ValuesCopiedMoved(u, models, s1, s0, sr, s2, v, inst, table, target);
  }

  /**
   * The bound-concrete-type branch writes to the member a new instance of
   * the concrete type, allocated at the start of the call.
   */
  lemma {:induction false} MapIntoConcreteWritesFreshInstance(ctx: Context, fuel: nat, st: State, v: Value, sourceType: TypeRef, concrete: TypeRef, destMember: Member, dest: Value)
    requires ValidStore(st.store)
    ensures var r := MapIntoConcrete(ctx, fuel, st, v, sourceType, concrete, destMember, dest);
      r.outcome.Ok? ==>
        ReadSlot(r.state.store, dest, destMember) == Some(Ref(st.store.next)) &&
        FreshInstance(st.store.next, r.state.store, Ref(st.store.next), concrete)
  {
    match Allocate(ctx.universe, st.store, concrete)
    case None =>
    case Some(c) =>
      var st1 := st.(store := c.store);
      AllocateEvolves(ctx.universe, st, concrete);
      var r := MapWith(ctx, fuel, st1, v, Ref(c.addr), sourceType, concrete);
      MapWithEvolves(ctx, fuel, st1, v, Ref(c.addr), sourceType, concrete);
      if r.outcome.Ok? {
        AssignFrames(r.state, dest, destMember, Ref(c.addr));
      }
  }

  /**
   * For an existing destination and a source value that is null or an
   * existing object, the instance the branch writes was mapped from the
   * source value along the table the cache then holds for the source
   * member's type and the concrete type.
   */
  lemma {:induction false} MapIntoConcreteWritesMappedInstance(ctx: Context, fuel: nat, st: State, v: Value, sourceType: TypeRef, concrete: TypeRef, destMember: Member, dest: Value)
    requires ValidUniverse(ctx.universe) && CacheFaithful(ctx.universe, st.cache) && ValidStore(st.store)
    requires ValueIn(st.store, v) && Live(st.store, dest)
    ensures var r := MapIntoConcrete(ctx, fuel, st, v, sourceType, concrete, destMember, dest);
      r.outcome.Ok? ==>
        MappedFrom(ctx.universe, ctx.interfaceModels, st.store, r.state.store, r.state.cache, v, Ref(st.store.next), sourceType, concrete)
    decreases fuel, 2, 1
  {
    if Allocate(ctx.universe, st.store, concrete).Some? {
      InstanceMappedFrom(ctx, fuel, st, v, sourceType, concrete, destMember, dest);
    }
  }

  /** MapIntoConcreteWritesMappedInstance with the intermediate states named. */
  lemma {:induction false} InstanceMappedFrom(ctx: Context, fuel: nat, st: State, v: Value, sourceType: TypeRef, concrete: TypeRef, destMember: Member, dest: Value)
    requires ValidUniverse(ctx.universe) && CacheFaithful(ctx.universe, st.cache) && ValidStore(st.store)
    requires ValueIn(st.store, v) && Live(st.store, dest) && Allocate(ctx.universe, st.store, concrete).Some?
    ensures var c := Allocate(ctx.universe, st.store, concrete).value;
      var r := MapWith(ctx, fuel, st.(store := c.store), v, Ref(c.addr), sourceType, concrete);
      r.outcome.Ok? ==>
        MappedFrom(ctx.universe, ctx.interfaceModels, st.store, Assign(r.state, dest, destMember, Ref(c.addr)).state.store, r.state.cache,
                   v, Ref(st.store.next), sourceType, concrete)
    decreases fuel, 2, 0
  {
    var u, models := ctx.universe, ctx.interfaceModels;
    var c := Allocate(u, st.store, concrete).value;
    var st1 := st.(store := c.store);
    AllocateEvolves(u, st, concrete);
    var inst := Ref(c.addr);
    var r := MapWith(ctx, fuel, st1, v, inst, sourceType, concrete);
    if r.outcome.Ok? {
      MapWithEvolves(ctx, fuel, st1, v, inst, sourceType, concrete);
      var r2 := Assign(r.state, dest, destMember, inst);
      AssignFrames(r.state, dest, destMember, inst);
      MapWithCopies(ctx, fuel, st1, v, inst, sourceType, concrete);
      MapWithTableCached(ctx, fuel, st1, v, inst, sourceType, concrete);
      MappedAfterWrite(u, models, st.store, st1.store, r.state.store, r2.state.store, r.state.cache, v, inst, sourceType, concrete, dest);
    }
  }

  /**
   * The value a successful property copy leaves in the destination property
   * is fixed by GetConcreteType alone, whatever ProcessCollections answered
   * or wrote before: a new instance of the bound concrete type, or else the
   * source value itself. (Member writes here do not check the value's type,
   * so the second write always replaces a converted array.)
   */
  lemma {:induction false} PropertyValueFixedByConcreteType(ctx: Context, fuel: nat, st: State, sourceProperty: Member, v: Value, destProperty: Member, dest: Value)
    requires ValidStore(st.store)
    ensures var r := CopyPropertyValue(ctx, fuel, st, sourceProperty, v, destProperty, dest);
      r.outcome.Ok? ==>
        ReadSlot(r.state.store, dest, destProperty).Some? &&
        match GetConcreteType(ctx.universe, ctx.interfaceModels, destProperty)
        case None => ReadSlot(r.state.store, dest, destProperty).value == v
        case Some(t) => FreshInstance(st.store.next, r.state.store, ReadSlot(r.state.store, dest, destProperty).value, t)
  {
    var handled := ProcessCollections(ctx, fuel, st, v, destProperty, dest);
    ProcessCollectionsEvolves(ctx, fuel, st, v, destProperty, dest);
    if handled.outcome.Ok? {
      match GetConcreteType(ctx.universe, ctx.interfaceModels, destProperty)
      case Some(t) => MapIntoConcreteWritesFreshInstance(ctx, fuel, handled.state, v, sourceProperty.memberType, t, destProperty, dest);
      case None =>
    }
  }

  /**
   * When a concrete type is bound, the instance a successful property copy
   * writes was mapped from the source value, provided the destination
   * existed and is not the source value itself.
   */
  lemma {:induction false} PropertyInstanceMappedFrom(ctx: Context, fuel: nat, st: State, sourceProperty: Member, v: Value, destProperty: Member, dest: Value)
    requires ValidUniverse(ctx.universe) && CacheFaithful(ctx.universe, st.cache) && ValidStore(st.store)
    requires ValueIn(st.store, v) && v != dest && Live(st.store, dest)
    requires GetConcreteType(ctx.universe, ctx.interfaceModels, destProperty).Some?
    ensures var r := CopyPropertyValue(ctx, fuel, st, sourceProperty, v, destProperty, dest);
      r.outcome.Ok? ==>
        ReadSlot(r.state.store, dest, destProperty).Some? &&
        MappedFrom(ctx.universe, ctx.interfaceModels, st.store, r.state.store, r.state.cache, v, ReadSlot(r.state.store, dest, destProperty).value,
                   sourceProperty.memberType, GetConcreteType(ctx.universe, ctx.interfaceModels, destProperty).value)
    decreases fuel, 3, 0
  {
    var u, models := ctx.universe, ctx.interfaceModels;
    var t := GetConcreteType(u, models, destProperty).value;
    var handled := ProcessCollections(ctx, fuel, st, v, destProperty, dest);
    ProcessCollectionsEvolves(ctx, fuel, st, v, destProperty, dest);
    if handled.outcome.Ok? {
      var r := MapIntoConcrete(ctx, fuel, handled.state, v, sourceProperty.memberType, t, destProperty, dest);
      assert ValueIn(handled.state.store, v) && Live(handled.state.store, dest);
      MapIntoConcreteWritesFreshInstance(ctx, fuel, handled.state, v, sourceProperty.memberType, t, destProperty, dest);
      MapIntoConcreteWritesMappedInstance(ctx, fuel, handled.state, v, sourceProperty.memberType, t, destProperty, dest);
      if r.outcome.Ok? {
        ReadsKept(st.store, handled.state.store, dest, v);
        MappedFromMoved(u, models, handled.state.store, st.store, r.state.store, r.state.store, r.state.cache, r.state.cache,
                        v, Ref(handled.state.store.next), sourceProperty.memberType, t, Null);
      }
    }
  }

  /** The field copy follows the same rule, and never looks at collections. */
  lemma {:induction false} FieldValueFixedByConcreteType(ctx: Context, fuel: nat, st: State, sourceField: Member, v: Value, destField: Member, dest: Value)
    requires ValidStore(st.store)
    ensures var r := CopyFieldValue(ctx, fuel, st, sourceField, v, destField, dest);
      r.outcome.Ok? ==>
        ReadSlot(r.state.store, dest, destField).Some? &&
        match GetConcreteType(ctx.universe, ctx.interfaceModels, destField)
        case None => ReadSlot(r.state.store, dest, destField).value == v && r.state.store.next == st.store.next
        case Some(t) => FreshInstance(st.store.next, r.state.store, ReadSlot(r.state.store, dest, destField).value, t)
  {
    match GetConcreteType(ctx.universe, ctx.interfaceModels, destField)
    case Some(t) => MapIntoConcreteWritesFreshInstance(ctx, fuel, st, v, sourceField.memberType, t, destField, dest);
    case None =>
  }

  /** The instance a successful field copy writes for a bound concrete type was mapped from the source value. */
  lemma {:induction false} FieldInstanceMappedFrom(ctx: Context, fuel: nat, st: State, sourceField: Member, v: Value, destField: Member, dest: Value)
    requires ValidUniverse(ctx.universe) && CacheFaithful(ctx.universe, st.cache) && ValidStore(st.store)
    requires ValueIn(st.store, v) && Live(st.store, dest)
    requires GetConcreteType(ctx.universe, ctx.interfaceModels, destField).Some?
    ensures var r := CopyFieldValue(ctx, fuel, st, sourceField, v, destField, dest);
      r.outcome.Ok? ==>
        ReadSlot(r.state.store, dest, destField).Some? &&
        MappedFrom(ctx.universe, ctx.interfaceModels, st.store, r.state.store, r.state.cache, v, ReadSlot(r.state.store, dest, destField).value,
                   sourceField.memberType, GetConcreteType(ctx.universe, ctx.interfaceModels, destField).value)
    decreases fuel, 3, 0
  {
    var t := GetConcreteType(ctx.universe, ctx.interfaceModels, destField).value;
    MapIntoConcreteWritesFreshInstance(ctx, fuel, st, v, sourceField.memberType, t, destField, dest);
    MapIntoConcreteWritesMappedInstance(ctx, fuel, st, v, sourceField.memberType, t, destField, dest);
  }

  /** A successful copy of one entry whose two members have the same kind copies its value. */
  lemma {:induction false} CopyValueCopies(ctx: Context, fuel: nat, st: State, p: Pairing, source: Value, dest: Value)
    requires ValidStore(st.store) && p.source.kind == p.dest.kind
    ensures var r := CopyValue(ctx, fuel, st, p.source, source, p.dest, dest);
      r.outcome.Ok? ==> ValueCopied(ctx.universe, ctx.interfaceModels, st.store, r.state.store, source, dest, p)
  {
    match ReadSlot(st.store, source, p.source)
    case None =>
    case Some(v) =>
      if p.dest.kind == Field {
        FieldValueFixedByConcreteType(ctx, fuel, st, p.source, v, p.dest, dest);
      } else {
        PropertyValueFixedByConcreteType(ctx, fuel, st, p.source, v, p.dest, dest);
      }
  }

  /** With a faithful cache, the copy of one entry also maps the instance it writes from the source member's value. */
  lemma {:induction false} CopyValueMapsInstance(ctx: Context, fuel: nat, st: State, p: Pairing, source: Value, dest: Value)
    requires ValidUniverse(ctx.universe) && CacheFaithful(ctx.universe, st.cache)
    requires ValidStore(st.store) && p.source.kind == p.dest.kind
    ensures var r := CopyValue(ctx, fuel, st, p.source, source, p.dest, dest);
      r.outcome.Ok? ==> CopiedInto(ctx.universe, ctx.interfaceModels, st.store, r.state.store, r.state.cache, source, dest, p)
    decreases fuel, 4, 0
  {
    CopyValueCopies(ctx, fuel, st, p, source, dest);
    match ReadSlot(st.store, source, p.source)
    case None =>
    case Some(v) =>
      assert ValueIn(st.store, v);
      if GetConcreteType(ctx.universe, ctx.interfaceModels, p.dest).Some? && v != dest && Live(st.store, dest) {
        if p.dest.kind == Field {
          FieldInstanceMappedFrom(ctx, fuel, st, p.source, v, p.dest, dest);
        } else {
          PropertyInstanceMappedFrom(ctx, fuel, st, p.source, v, p.dest, dest);
        }
      }
  }

  /** CopyValues from entry `i` on leaves every member of `dest` that no later entry writes as it was. */
  lemma {:induction false} CopyValuesKeepsOtherMembers(ctx: Context, fuel: nat, st: State, source: Value, dest: Value, table: seq<Pairing>, i: nat, m: Member)
    requires ValidStore(st.store) && i <= |table|
    requires ReadSlot(st.store, dest, m).Some?
    requires forall j :: i <= j < |table| ==> SlotOf(table[j].dest) != SlotOf(m)
    ensures ReadSlot(CopyValues(ctx, fuel, st, source, dest, table, i).state.store, dest, m) == ReadSlot(st.store, dest, m)
    decreases |table| - i
  {
    if i < |table| {
      var r := CopyValue(ctx, fuel, st, table[i].source, source, table[i].dest, dest);
      CopyValueOnlyMember(ctx, fuel, st, table[i].source, source, table[i].dest, dest);
      CopyValueEvolves(ctx, fuel, st, table[i].source, source, table[i].dest, dest);
      if r.outcome.Ok? {
        CopyValuesKeepsOtherMembers(ctx, fuel, r.state, source, dest, table, i + 1, m);
      }
    }
  }

  /**
   * A successful CopyValues from entry `i` on, from one object into another,
   * along entries that pair members of one kind and write distinct
   * destination members, copies the value of every one of those entries.
   */
  lemma {:induction false} CopyValuesCopies(ctx: Context, fuel: nat, st: State, source: Value, dest: Value, table: seq<Pairing>, i: nat)
    requires ValidStore(st.store) && i <= |table| && source != dest
    requires forall j :: i <= j < |table| ==> table[j].source.kind == table[j].dest.kind
    requires DistinctDests(table)
    ensures var r := CopyValues(ctx, fuel, st, source, dest, table, i);
      r.outcome.Ok? ==> ValuesCopiedFrom(ctx.universe, ctx.interfaceModels, st.store, r.state.store, source, dest, table, i)
    decreases |table| - i
  {
    if i < |table| {
      var u, models := ctx.universe, ctx.interfaceModels;
      var r1 := CopyValue(ctx, fuel, st, table[i].source, source, table[i].dest, dest);
      CopyValueEvolves(ctx, fuel, st, table[i].source, source, table[i].dest, dest);
      CopyValueCopies(ctx, fuel, st, table[i], source, dest);
      if r1.outcome.Ok? {
        var r := CopyValues(ctx, fuel, r1.state, source, dest, table, i + 1);
        CopyValuesCopies(ctx, fuel, r1.state, source, dest, table, i + 1);
        CopyValuesEvolves(ctx, fuel, r1.state, source, dest, table, i + 1);
        assert CopyValues(ctx, fuel, st, source, dest, table, i) == r;
        if r.outcome.Ok? {
          LaterDestsDiffer(table, i);
          CopyValuesKeepsOtherMembers(ctx, fuel, r1.state, source, dest, table, i + 1, table[i].dest);
          ValuesCopiedStep(u, models, st.store, r1.state.store, r.state.store, source, dest, table, i);
        }
      }
    }
  }

  /**
   * With a faithful cache, the same CopyValues also maps every new instance
   * it writes from the source member's value, one level deep.
   */
  lemma {:induction false} CopyValuesMapsInstances(ctx: Context, fuel: nat, st: State, source: Value, dest: Value, table: seq<Pairing>, i: nat)
    requires ValidUniverse(ctx.universe) && CacheFaithful(ctx.universe, st.cache)
    requires ValidStore(st.store) && i <= |table| && source != dest
    requires forall j :: i <= j < |table| ==> table[j].source.kind == table[j].dest.kind
    requires DistinctDests(table)
    ensures var r := CopyValues(ctx, fuel, st, source, dest, table, i);
      r.outcome.Ok? ==> CopiedFrom(ctx.universe, ctx.interfaceModels, st.store, r.state.store, r.state.cache, source, dest, table, i)
    decreases fuel, 5, |table| - i
  {
    if i < |table| {
      var u, models := ctx.universe, ctx.interfaceModels;
      var r1 := CopyValue(ctx, fuel, st, table[i].source, source, table[i].dest, dest);
      CopyValueEvolves(ctx, fuel, st, table[i].source, source, table[i].dest, dest);
      CopyValueMapsInstance(ctx, fuel, st, table[i], source, dest);
      if r1.outcome.Ok? {
        var r := CopyValues(ctx, fuel, r1.state, source, dest, table, i + 1);
        CopyValuesMapsInstances(ctx, fuel, r1.state, source, dest, table, i + 1);
        CopyValuesEvolves(ctx, fuel, r1.state, source, dest, table, i + 1);
        assert CopyValues(ctx, fuel, st, source, dest, table, i) == r;
        if r.outcome.Ok? {
          LaterDestsDiffer(table, i);
          CopyValuesKeepsOtherMembers(ctx, fuel, r1.state, source, dest, table, i + 1, table[i].dest);
          CopiedIntoStep(u, models, st.store, r1.state.store, r.state.store, r1.state.cache, r.state.cache, source, dest, table, i);
        }
      }
    }
  }

  /** No entry after `i` writes the member entry `i` writes. */
  lemma LaterDestsDiffer(table: seq<Pairing>, i: nat)
    requires DistinctDests(table) && i < |table|
    ensures forall j :: i + 1 <= j < |table| ==> SlotOf(table[j].dest) != SlotOf(table[i].dest)
  {
  }

  /** Every entry of `table` from `i` on was copied from `source` in `s0` into `dest` in `s1`. */
  ghost predicate ValuesCopiedFrom(u: Universe, models: seq<InterfaceModel>, s0: Store, s1: Store, source: Value, dest: Value, table: seq<Pairing>, i: nat)
  {
    forall j :: i <= j < |table| ==> ValueCopied(u, models, s0, s1, source, dest, table[j])
  }

  ghost predicate CopiedFrom(u: Universe, models: seq<InterfaceModel>, s0: Store, s1: Store, cache: map<string, MappingModel>,
                             source: Value, dest: Value, table: seq<Pairing>, i: nat)
  {
    forall j :: i <= j < |table| ==> CopiedInto(u, models, s0, s1, cache, source, dest, table[j])
  }

  /** The copy of entry `i` followed by the copies of the later entries copies entry `i` and the later ones. */
  lemma ValuesCopiedStep(u: Universe, models: seq<InterfaceModel>, s: Store, s1: Store, s2: Store,
                         source: Value, dest: Value, table: seq<Pairing>, i: nat)
    requires i < |table| && source != dest
    requires ValueCopied(u, models, s, s1, source, dest, table[i])
    requires ValuesCopiedFrom(u, models, s1, s2, source, dest, table, i + 1)
    requires ReadSlot(s2, dest, table[i].dest) == ReadSlot(s1, dest, table[i].dest)
    requires StoreGrows(s, s1) && SlotsKept(s, s1, dest) && StoreGrows(s1, s2)
    ensures ValuesCopiedFrom(u, models, s, s2, source, dest, table, i)
  {
    assert Live(s, source);
    forall j | i < j < |table|
      ensures ValueCopied(u, models, s, s2, source, dest, table[j])
    {
      assert ValueCopied(u, models, s1, s2, source, dest, table[j]);
      assert ReadSlot(s1, source, table[j].source) == ReadSlot(s, source, table[j].source);
    }
  }

  /** The same step for the whole statement, the instances mapped from the source values included. */
  lemma CopiedIntoStep(u: Universe, models: seq<InterfaceModel>, s: Store, s1: Store, s2: Store,
                       c1: map<string, MappingModel>, c2: map<string, MappingModel>,
                       source: Value, dest: Value, table: seq<Pairing>, i: nat)
    requires i < |table| && source != dest && ValidStore(s)
    requires CopiedInto(u, models, s, s1, c1, source, dest, table[i])
    requires CopiedFrom(u, models, s1, s2, c2, source, dest, table, i + 1)
    requires ReadSlot(s2, dest, table[i].dest) == ReadSlot(s1, dest, table[i].dest)
    requires StoreGrows(s, s1) && SlotsKept(s, s1, dest) && StoreGrows(s1, s2) && SlotsKept(s1, s2, dest) && CacheExtends(c1, c2)
    ensures CopiedFrom(u, models, s, s2, c2, source, dest, table, i)
  {
    assert Live(s, source);
    CopiedIntoLater(u, models, s, s1, s2, c1, c2, source, dest, table[i]);
    forall j | i < j < |table|
      ensures CopiedInto(u, models, s, s2, c2, source, dest, table[j])
    {
      CopiedIntoEarlier(u, models, s, s1, s2, c2, source, dest, table[j]);
    }
  }

  /** CopyValues along a whole well-formed table copies the value of every entry of it. */
  lemma {:induction false} TableCopied(ctx: Context, fuel: nat, st: State, source: Value, dest: Value, table: seq<Pairing>)
    requires ValidStore(st.store) && source != dest && DistinctDests(table)
    requires forall p :: p in table ==> p.source.kind == p.dest.kind
    ensures var r := CopyValues(ctx, fuel, st, source, dest, table, 0);
      r.outcome.Ok? ==> AllValuesCopied(ctx.universe, ctx.interfaceModels, st.store, r.state.store, source, dest, table)
  {
    KindsAlongTable(table);
    CopyValuesCopies(ctx, fuel, st, source, dest, table, 0);
    var r := CopyValues(ctx, fuel, st, source, dest, table, 0);
    if r.outcome.Ok? {
      forall p | p in table
        ensures ValueCopied(ctx.universe, ctx.interfaceModels, st.store, r.state.store, source, dest, p)
      {
        var j :| 0 <= j < |table| && table[j] == p;
      }
    }
  }

  /** With a faithful cache, CopyValues along a whole well-formed table copies every entry of it, mapped instances included. */
  lemma {:induction false} TableMapsInstances(ctx: Context, fuel: nat, st: State, source: Value, dest: Value, table: seq<Pairing>)
    requires ValidUniverse(ctx.universe) && CacheFaithful(ctx.universe, st.cache)
    requires ValidStore(st.store) && source != dest && DistinctDests(table)
    requires forall p :: p in table ==> p.source.kind == p.dest.kind
    ensures var r := CopyValues(ctx, fuel, st, source, dest, table, 0);
      r.outcome.Ok? ==> AllCopiedInto(ctx.universe, ctx.interfaceModels, st.store, r.state.store, r.state.cache, source, dest, table)
    decreases fuel, 6, 0
  {
    KindsAlongTable(table);
    CopyValuesMapsInstances(ctx, fuel, st, source, dest, table, 0);
    var r := CopyValues(ctx, fuel, st, source, dest, table, 0);
    if r.outcome.Ok? {
      forall p | p in table
        ensures CopiedInto(ctx.universe, ctx.interfaceModels, st.store, r.state.store, r.state.cache, source, dest, p)
      {
        var j :| 0 <= j < |table| && table[j] == p;
      }
    }
  }

  lemma KindsAlongTable(table: seq<Pairing>)
    requires forall p :: p in table ==> p.source.kind == p.dest.kind
    ensures forall j :: 0 <= j < |table| ==> table[j].source.kind == table[j].dest.kind
  {
    forall j | 0 <= j < |table| ensures table[j].source.kind == table[j].dest.kind {
      assert table[j] in table;
    }
  }

  /**
   * A successful Map from one object into another, with a faithful cache,
   * copies every entry of the table it used: each paired destination member
   * holds the value of its source member, or a new instance of the concrete
   * type bound to it, mapped from the value of the source member.
   */
  lemma {:induction false} MapWithCopies(ctx: Context, fuel: nat, st: State, source: Value, dest: Value, sourceType: TypeRef, destType: TypeRef)
    requires ValidUniverse(ctx.universe) && CacheFaithful(ctx.universe, st.cache) && ValidStore(st.store) && source != dest
    ensures var r := MapWith(ctx, fuel, st, source, dest, sourceType, destType);
      r.outcome.Ok? ==>
        TableUsed(ctx.universe, st.cache, sourceType, destType).Ok? &&
        AllCopiedInto(ctx.universe, ctx.interfaceModels, st.store, r.state.store, r.state.cache, source, dest,
                      TableUsed(ctx.universe, st.cache, sourceType, destType).value)
    decreases fuel, 1, 0
  {
    var key := MappingKey(ctx.universe, sourceType, destType);
    if fuel > 0 && key in st.cache {
      MapWithCachedCopies(ctx, fuel, st, source, dest, sourceType, destType);
    } else if fuel > 0 && BuildTable(ctx.universe, sourceType, destType).Ok? {
      MapWithBuiltMapsInstances(ctx, fuel, st, source, dest, sourceType, destType);
    }
  }

  lemma {:induction false} MapWithCachedCopies(ctx: Context, fuel: nat, st: State, source: Value, dest: Value, sourceType: TypeRef, destType: TypeRef)
    requires ValidUniverse(ctx.universe) && CacheFaithful(ctx.universe, st.cache) && ValidStore(st.store) && source != dest
    requires fuel > 0 && MappingKey(ctx.universe, sourceType, destType) in st.cache
    ensures var r := MapWith(ctx, fuel, st, source, dest, sourceType, destType);
      r.outcome.Ok? ==>
        AllCopiedInto(ctx.universe, ctx.interfaceModels, st.store, r.state.store, r.state.cache, source, dest,
                      st.cache[MappingKey(ctx.universe, sourceType, destType)].mappingTable)
    decreases fuel, 0, 0
  {
    var key := MappingKey(ctx.universe, sourceType, destType);
    CachedTableUsable(ctx.universe, st.cache, key);
    TableMapsInstances(ctx, fuel - 1, st, source, dest, st.cache[key].mappingTable);
  }

  /** A table in a faithful cache pairs members of one kind and writes each destination member once. */
  lemma CachedTableUsable(u: Universe, cache: map<string, MappingModel>, key: string)
    requires ValidUniverse(u) && CacheFaithful(u, cache) && key in cache
    ensures DistinctDests(cache[key].mappingTable)
    ensures forall p :: p in cache[key].mappingTable ==> p.source.kind == p.dest.kind
  {
    CachedTablesWellFormed(u, cache, key);
    BuildTableDistinctDests(u, cache[key].sourceType, cache[key].destType);
  }

  /** On a cache miss, a successful Map copies the value of every entry of the table it builds. */
  lemma {:induction false} MapWithBuiltCopies(ctx: Context, fuel: nat, st: State, source: Value, dest: Value, sourceType: TypeRef, destType: TypeRef)
    requires ValidUniverse(ctx.universe) && ValidStore(st.store) && source != dest
    requires fuel > 0 && MappingKey(ctx.universe, sourceType, destType) !in st.cache
    requires BuildTable(ctx.universe, sourceType, destType).Ok?
    ensures var r := MapWith(ctx, fuel, st, source, dest, sourceType, destType);
      r.outcome.Ok? ==>
        AllValuesCopied(ctx.universe, ctx.interfaceModels, st.store, r.state.store, source, dest, BuildTable(ctx.universe, sourceType, destType).value)
  {
    var key := MappingKey(ctx.universe, sourceType, destType);
    var table := BuildTable(ctx.universe, sourceType, destType).value;
    BuildTableKinds(ctx.universe, sourceType, destType);
    BuildTableDistinctDests(ctx.universe, sourceType, destType);
    TableCopied(ctx, fuel - 1, st.(cache := st.cache[key := MappingModel(sourceType, destType, table)]), source, dest, table);
  }

  /** With a faithful cache, the same Map maps every instance it writes from the source member's value. */
  lemma {:induction false} MapWithBuiltMapsInstances(ctx: Context, fuel: nat, st: State, source: Value, dest: Value, sourceType: TypeRef, destType: TypeRef)
    requires ValidUniverse(ctx.universe) && CacheFaithful(ctx.universe, st.cache) && ValidStore(st.store) && source != dest
    requires fuel > 0 && MappingKey(ctx.universe, sourceType, destType) !in st.cache
    requires BuildTable(ctx.universe, sourceType, destType).Ok?
    ensures var r := MapWith(ctx, fuel, st, source, dest, sourceType, destType);
      r.outcome.Ok? ==>
        AllCopiedInto(ctx.universe, ctx.interfaceModels, st.store, r.state.store, r.state.cache, source, dest, BuildTable(ctx.universe, sourceType, destType).value)
    decreases fuel, 0, 0
  {
    var key := MappingKey(ctx.universe, sourceType, destType);
    var table := BuildTable(ctx.universe, sourceType, destType).value;
    BuildTableKinds(ctx.universe, sourceType, destType);
    BuildTableDistinctDests(ctx.universe, sourceType, destType);
    InsertEvolves(ctx.universe, st, sourceType, destType, table);
    TableMapsInstances(ctx, fuel - 1, st.(cache := st.cache[key := MappingModel(sourceType, destType, table)]), source, dest, table);
  }

  /** Map leaves every member of the destination that its table does not pair as it was, whether it succeeds or not. */
  lemma {:induction false} MapWithKeepsUnpairedMembers(ctx: Context, fuel: nat, st: State, source: Value, dest: Value, sourceType: TypeRef, destType: TypeRef, m: Member)
    requires ValidStore(st.store) && ReadSlot(st.store, dest, m).Some?
    requires TableUsed(ctx.universe, st.cache, sourceType, destType).Ok? ==>
      forall p :: p in TableUsed(ctx.universe, st.cache, sourceType, destType).value ==> SlotOf(p.dest) != SlotOf(m)
    ensures ReadSlot(MapWith(ctx, fuel, st, source, dest, sourceType, destType).state.store, dest, m) == ReadSlot(st.store, dest, m)
  {
    var u := ctx.universe;
    var key := MappingKey(u, sourceType, destType);
    if fuel > 0 && TableUsed(u, st.cache, sourceType, destType).Ok? {
      var table := TableUsed(u, st.cache, sourceType, destType).value;
      var st1 := if key in st.cache then st else st.(cache := st.cache[key := MappingModel(sourceType, destType, table)]);
      assert MapWith(ctx, fuel, st, source, dest, sourceType, destType) == CopyValues(ctx, fuel - 1, st1, source, dest, table, 0);
      assert forall j :: 0 <= j < |table| ==> SlotOf(table[j].dest) != SlotOf(m) by {
        forall j | 0 <= j < |table| ensures SlotOf(table[j].dest) != SlotOf(m) {
          assert table[j] in table;
        }
      }
      CopyValuesKeepsOtherMembers(ctx, fuel - 1, st1, source, dest, table, 0, m);
    }
  }

  /** The untyped Map copies along the table of the two runtime types. */
  lemma {:induction false} MapObjectsCopies(ctx: Context, fuel: nat, st: State, source: Value, dest: Value)
    requires ValidUniverse(ctx.universe) && CacheFaithful(ctx.universe, st.cache) && ValidStore(st.store) && source != dest
    ensures var r := MapObjects(ctx, fuel, st, source, dest);
      r.outcome.Ok? ==>
        TypeOf(st.store, source).Some? && TypeOf(st.store, dest).Some? &&
        var table := TableUsed(ctx.universe, st.cache, TypeOf(st.store, source).value, TypeOf(st.store, dest).value);
        table.Ok? && AllCopiedInto(ctx.universe, ctx.interfaceModels, st.store, r.state.store, r.state.cache, source, dest, table.value)
  {
    if TypeOf(st.store, source).Some? && TypeOf(st.store, dest).Some? {
      MapWithCopies(ctx, fuel, st, source, dest, TypeOf(st.store, source).value, TypeOf(st.store, dest).value);
    }
  }

  /**
   * Element `j` of the array `arr` is a new instance of `t`, allocated after
   * `s0`, and the table the cache holds for the element's type and `t` was
   * copied into it from the collection's element `j` as it was in `s0`.
   */
  ghost predicate ElementMapped(u: Universe, models: seq<InterfaceModel>, s0: Store, s1: Store, cache: map<string, MappingModel>,
                                arr: Addr, elements: seq<Value>, t: TypeRef, j: nat)
  {
    j < |elements| && arr in s1.objects && j < |s1.objects[arr].elements| &&
    FreshInstance(s0.next, s1, s1.objects[arr].elements[j], t) &&
    TypeOf(s0, elements[j]).Some? &&
    MappedFrom(u, models, s0, s1, cache, elements[j], s1.objects[arr].elements[j], TypeOf(s0, elements[j]).value, t)
  }

  ghost predicate ElementsMappedUpTo(u: Universe, models: seq<InterfaceModel>, s0: Store, s1: Store, cache: map<string, MappingModel>,
                                     arr: Addr, elements: seq<Value>, t: TypeRef, i: nat)
  {
    forall j :: 0 <= j < i ==> ElementMapped(u, models, s0, s1, cache, arr, elements, t, j)
  }

  lemma GrowsAndKeptTrans(s0: Store, s1: Store, s2: Store)
    requires StoreGrows(s0, s1) && SlotsKept(s0, s1, Null)
    requires StoreGrows(s1, s2) && SlotsKept(s1, s2, Null)
    ensures StoreGrows(s0, s2) && SlotsKept(s0, s2, Null)
  {
  }

  /** Mapped elements stay mapped while the array's prefix and the slots of the new instances are left alone. */
  lemma ElementsMappedKept(u: Universe, models: seq<InterfaceModel>, s0: Store, s1: Store, s2: Store,
                           c1: map<string, MappingModel>, c2: map<string, MappingModel>,
                           arr: Addr, elements: seq<Value>, t: TypeRef, i: nat, target: Value)
    requires ElementsMappedUpTo(u, models, s0, s1, c1, arr, elements, t, i)
    requires StoreGrows(s1, s2) && SlotsKept(s1, s2, target) && CacheExtends(c1, c2)
    requires target == Null || target.addr < s0.next
    requires arr in s1.objects && i <= |s1.objects[arr].elements|
    requires s2.objects[arr].elements[..i] == s1.objects[arr].elements[..i]
    ensures ElementsMappedUpTo(u, models, s0, s2, c2, arr, elements, t, i)
  {
    forall j | 0 <= j < i
      ensures ElementMapped(u, models, s0, s2, c2, arr, elements, t, j)
    {
      assert ElementMapped(u, models, s0, s1, c1, arr, elements, t, j);
      var inst := s1.objects[arr].elements[j];
      assert s2.objects[arr].elements[j] == s2.objects[arr].elements[..i][j] == inst;
      MappedFromMoved(u, models, s0, s0, s1, s2, c1, c2, elements[j], inst, TypeOf(s0, elements[j]).value, t, target);
    }
  }

  /** A successful MapObjects copied, from `source` into `dest`, the table it leaves cached for their two runtime types. */
  lemma {:induction false} MapObjectsMapsInto(ctx: Context, fuel: nat, st: State, source: Value, dest: Value)
    requires ValidUniverse(ctx.universe) && CacheFaithful(ctx.universe, st.cache) && ValidStore(st.store) && source != dest
    ensures var r := MapObjects(ctx, fuel, st, source, dest);
      r.outcome.Ok? ==>
        TypeOf(st.store, source).Some? && TypeOf(st.store, dest).Some? &&
        var key := MappingKey(ctx.universe, TypeOf(st.store, source).value, TypeOf(st.store, dest).value);
        key in r.state.cache &&
        AllCopiedInto(ctx.universe, ctx.interfaceModels, st.store, r.state.store, r.state.cache, source, dest, r.state.cache[key].mappingTable)
  {
    if TypeOf(st.store, source).Some? && TypeOf(st.store, dest).Some? {
      var sourceType, destType := TypeOf(st.store, source).value, TypeOf(st.store, dest).value;
      MapWithCopies(ctx, fuel, st, source, dest, sourceType, destType);
      MapWithTableCached(ctx, fuel, st, source, dest, sourceType, destType);
    }
  }

  /**
   * One step of the foreach: the new instance put at index `i` was mapped
   * from element `i` of the collection, and the elements before it stay.
   */
  lemma {:induction false} ElementMappedStep(ctx: Context, fuel: nat, st: State, arr: Addr, t: TypeRef, elements: seq<Value>, i: nat, s0: Store)
    requires ValidUniverse(ctx.universe) && CacheFaithful(ctx.universe, st.cache) && ValidStore(st.store) && ValidStore(s0)
    requires i < |elements| && ValueIn(s0, elements[i]) && arr in st.store.objects && |st.store.objects[arr].elements| == |elements|
    requires StoreGrows(s0, st.store) && SlotsKept(s0, st.store, Null)
    requires Allocate(ctx.universe, st.store, t).Some?
    ensures var c := Allocate(ctx.universe, st.store, t).value;
      var r := MapObjects(ctx, fuel, st.(store := c.store), elements[i], Ref(c.addr));
      r.outcome.Ok? && WriteElement(r.state.store, arr, i, Ref(c.addr)).Some? ==>
        var s := WriteElement(r.state.store, arr, i, Ref(c.addr)).value;
        ElementMapped(ctx.universe, ctx.interfaceModels, s0, s, r.state.cache, arr, elements, t, i) &&
        s.objects[arr].elements[..i] == st.store.objects[arr].elements[..i]
  {
    var c := Allocate(ctx.universe, st.store, t).value;
    var st1 := st.(store := c.store);
    AllocateEvolves(ctx.universe, st, t);
    var v, inst := elements[i], Ref(c.addr);
    var r := MapObjects(ctx, fuel, st1, v, inst);
    if r.outcome.Ok? && WriteElement(r.state.store, arr, i, inst).Some? {
      assert StoreGrows(st1.store, r.state.store) && ElementsKept(st1.store, r.state.store, Null) by {
        MapObjectsEvolves(ctx, fuel, st1, v, inst);
      }
      MapObjectsMapsInto(ctx, fuel, st1, v, inst);
      ElementStored(ctx.universe, ctx.interfaceModels, s0, st.store, st1.store, r.state.store, WriteElement(r.state.store, arr, i, inst).value,
                    r.state.cache, arr, elements, t, i, TypeOf(st1.store, v).value);
    }
  }

  /** Storing at index `i` an instance mapped from element `i` of the collection. */
  lemma ElementStored(u: Universe, models: seq<InterfaceModel>, s0: Store, s: Store, s1: Store, sr: Store, s2: Store,
                      cache: map<string, MappingModel>, arr: Addr, elements: seq<Value>, t: TypeRef, i: nat, sourceType: TypeRef)
    requires ValidStore(s0) && i < |elements| && ValueIn(s0, elements[i])
    requires StoreGrows(s0, s) && arr in s.objects && i < |s.objects[arr].elements|
    requires StoreGrows(s, s1) && SlotsKept(s, s1, Null) && ElementsKept(s, s1, Null)
    requires s.next in s1.objects && s1.objects[s.next].runtimeType == t
    requires SlotsKept(s0, s, Null) && TypeOf(s1, elements[i]) == Some(sourceType)
    requires StoreGrows(s1, sr) && ElementsKept(s1, sr, Null)
    requires MappingKey(u, sourceType, t) in cache
    requires AllCopiedInto(u, models, s1, sr, cache, elements[i], Ref(s.next), cache[MappingKey(u, sourceType, t)].mappingTable)
    requires WriteElement(sr, arr, i, Ref(s.next)) == Some(s2)
    ensures ElementMapped(u, models, s0, s2, cache, arr, elements, t, i)
    ensures s2.objects[arr].elements[..i] == s.objects[arr].elements[..i]
  {
    var inst := Ref(s.next);
    assert elements[i] != inst;
    GrowsAndKeptTrans(s0, s, s1);
    MappedThenKept(u, models, s0, s1, sr, s2, cache, elements[i], inst, sourceType, t, Null);
    assert s2.objects[arr].elements[i] == inst;
  }

  /**
   * Every successful step of the foreach in ConvertCollection maps element
   * `i` of the collection into the new instance it stores at index `i`.
   */
  lemma {:induction false} FillElementsMapsElements(ctx: Context, fuel: nat, st: State, arr: Addr, t: TypeRef, elements: seq<Value>, i: nat, s0: Store)
    requires ValidUniverse(ctx.universe) && CacheFaithful(ctx.universe, st.cache) && ValidStore(st.store) && ValidStore(s0)
    requires i <= |elements| && arr in st.store.objects && |st.store.objects[arr].elements| == |elements|
    requires forall j :: 0 <= j < |elements| ==> ValueIn(s0, elements[j])
    requires StoreGrows(s0, st.store) && SlotsKept(s0, st.store, Null)
    requires ElementsMappedUpTo(ctx.universe, ctx.interfaceModels, s0, st.store, st.cache, arr, elements, t, i)
    ensures var r := FillElements(ctx, fuel, st, arr, t, elements, i);
      r.outcome.Ok? ==> ElementsMappedUpTo(ctx.universe, ctx.interfaceModels, s0, r.state.store, r.state.cache, arr, elements, t, |elements|)
    decreases |elements| - i, 1
  {
    if i < |elements| && Allocate(ctx.universe, st.store, t).Some? {
      FillElementsMapsStep(ctx, fuel, st, arr, t, elements, i, s0);
    }
  }

  lemma {:induction false} FillElementsMapsStep(ctx: Context, fuel: nat, st: State, arr: Addr, t: TypeRef, elements: seq<Value>, i: nat, s0: Store)
    requires ValidUniverse(ctx.universe) && CacheFaithful(ctx.universe, st.cache) && ValidStore(st.store) && ValidStore(s0)
    requires i < |elements| && arr in st.store.objects && |st.store.objects[arr].elements| == |elements|
    requires forall j :: 0 <= j < |elements| ==> ValueIn(s0, elements[j])
    requires StoreGrows(s0, st.store) && SlotsKept(s0, st.store, Null)
    requires ElementsMappedUpTo(ctx.universe, ctx.interfaceModels, s0, st.store, st.cache, arr, elements, t, i)
    requires Allocate(ctx.universe, st.store, t).Some?
    ensures var r := FillElements(ctx, fuel, st, arr, t, elements, i);
      r.outcome.Ok? ==> ElementsMappedUpTo(ctx.universe, ctx.interfaceModels, s0, r.state.store, r.state.cache, arr, elements, t, |elements|)
    decreases |elements| - i, 0
  {
    var c := Allocate(ctx.universe, st.store, t).value;
    var r := MapObjects(ctx, fuel, st.(store := c.store), elements[i], Ref(c.addr));
    if r.outcome.Ok? && WriteElement(r.state.store, arr, i, Ref(c.addr)).Some? {
      var s := WriteElement(r.state.store, arr, i, Ref(c.addr)).value;
      ElementMappedStep(ctx, fuel, st, arr, t, elements, i, s0);
      FillElementStepEvolves(ctx, fuel, st, arr, t, elements, i);
      ElementsMappedExtended(ctx.universe, ctx.interfaceModels, s0, st.store, s, st.cache, r.state.cache, arr, elements, t, i);
      FillElementsMapsElements(ctx, fuel, r.state.(store := s), arr, t, elements, i + 1, s0);
    }
  }

  /** The prefix mapped before a step, with the element the step mapped, is the longer prefix mapped after it. */
  lemma ElementsMappedExtended(u: Universe, models: seq<InterfaceModel>, s0: Store, s1: Store, s2: Store,
                               c1: map<string, MappingModel>, c2: map<string, MappingModel>,
                               arr: Addr, elements: seq<Value>, t: TypeRef, i: nat)
    requires ElementsMappedUpTo(u, models, s0, s1, c1, arr, elements, t, i) && ElementMapped(u, models, s0, s2, c2, arr, elements, t, i)
    requires StoreGrows(s0, s1) && SlotsKept(s0, s1, Null)
    requires StoreGrows(s1, s2) && SlotsKept(s1, s2, Null) && CacheExtends(c1, c2)
    requires arr in s1.objects && i <= |s1.objects[arr].elements|
    requires s2.objects[arr].elements[..i] == s1.objects[arr].elements[..i]
    ensures ElementsMappedUpTo(u, models, s0, s2, c2, arr, elements, t, i + 1)
    ensures StoreGrows(s0, s2) && SlotsKept(s0, s2, Null)
  {
    ElementsMappedKept(u, models, s0, s1, s2, c1, c2, arr, elements, t, i, Null);
    GrowsAndKeptTrans(s0, s1, s2);
  }

  /**
   * A successful conversion maps each element of the collection into the
   * array element at the same index, along the table cached for the
   * element's type and the bound destination type.
   */
  lemma {:induction false} ConvertCollectionMapsElements(ctx: Context, fuel: nat, st: State, destType: TypeRef, elements: seq<Value>, destProperty: Member, dest: Value)
    requires ValidUniverse(ctx.universe) && CacheFaithful(ctx.universe, st.cache) && ValidStore(st.store) && Live(st.store, dest)
    requires forall j :: 0 <= j < |elements| ==> ValueIn(st.store, elements[j])
    ensures var r := ConvertCollection(ctx, fuel, st, destType, elements, destProperty, dest);
      r.outcome.Ok? ==>
        ReadSlot(r.state.store, dest, destProperty) == Some(Ref(st.store.next)) &&
        ElementsMappedUpTo(ctx.universe, ctx.interfaceModels, st.store, r.state.store, r.state.cache, st.store.next, elements, destType, |elements|)
  {
    var c := AllocateArray(st.store, destType, |elements|);
    var st1 := st.(store := c.store);
    AllocateArrayEvolves(ctx.universe, st, destType, |elements|);
    var r := FillElements(ctx, fuel, st1, c.addr, destType, elements, 0);
    FillElementsMapsElements(ctx, fuel, st1, c.addr, destType, elements, 0, st.store);
    if r.outcome.Ok? && WriteSlot(r.state.store, dest, destProperty, Ref(c.addr)).Some? {
      FillElementsEvolves(ctx, fuel, st1, c.addr, destType, elements, 0);
      ArrayStoredMapped(ctx.universe, ctx.interfaceModels, st.store, r.state.store, WriteSlot(r.state.store, dest, destProperty, Ref(c.addr)).value,
                        r.state.cache, c.addr, elements, destType, dest, destProperty);
    }
  }

  /** Storing the array in a member of a live object keeps every mapped element. */
  lemma ArrayStoredMapped(u: Universe, models: seq<InterfaceModel>, s0: Store, s1: Store, s: Store, cache: map<string, MappingModel>,
                          arr: Addr, elements: seq<Value>, t: TypeRef, dest: Value, m: Member)
    requires ValidStore(s0) && Live(s0, dest) && arr in s1.objects && |elements| <= |s1.objects[arr].elements|
    requires ElementsMappedUpTo(u, models, s0, s1, cache, arr, elements, t, |elements|)
    requires WriteSlot(s1, dest, m, Ref(arr)) == Some(s)
    ensures ReadSlot(s, dest, m) == Some(Ref(arr))
    ensures ElementsMappedUpTo(u, models, s0, s, cache, arr, elements, t, |elements|)
  {
    assert s.objects[arr].elements == s1.objects[arr].elements;
    ElementsMappedKept(u, models, s0, s1, s, cache, cache, arr, elements, t, |elements|, dest);
  }
}
