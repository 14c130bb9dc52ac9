/**
 * How Map uses the table cache and how CopyValues walks a table: a table
 * is built on a key miss only, stays in the cache for good and is reused
 * by every later Map whose key string coincides; a table that cannot be
 * built makes Map throw before anything is cached or written; a table is
 * copied entry by entry in order.
 */
module CacheProperties {
  import opened Outcomes
  import opened Reflection
  import opened ObjectStore
  import opened Bindings
  import opened MemberTables
  import opened MappingModels
  import opened CopyEngine
  import opened CopyEngineFrames

  /** On a key miss the freshly built table is cached under the key, with the two types it was built from, even if the copy then fails. */
  lemma {:induction false} MapWithCachesTable(ctx: Context, fuel: nat, st: State, source: Value, dest: Value, sourceType: TypeRef, destType: TypeRef)
    requires ValidStore(st.store) && fuel > 0
    requires MappingKey(ctx.universe, sourceType, destType) !in st.cache
    requires BuildTable(ctx.universe, sourceType, destType).Ok?
    ensures var key := MappingKey(ctx.universe, sourceType, destType);
      var after := MapWith(ctx, fuel, st, source, dest, sourceType, destType).state.cache;
      key in after && after[key] == MappingModel(sourceType, destType, BuildTable(ctx.universe, sourceType, destType).value)
  {
    var key := MappingKey(ctx.universe, sourceType, destType);
    var table := BuildTable(ctx.universe, sourceType, destType).value;
    var st1 := st.(cache := st.cache[key := MappingModel(sourceType, destType, table)]);
    CopyValuesEvolves(ctx, fuel - 1, st1, source, dest, table, 0);
  }

  /**
   * Once a Map has cached the table of one type pair, every later Map whose
   * key string is the same copies along that table, whatever its own two
   * types are, as long as the cache has only grown in between (which every
   * mapping run guarantees: CopyEngineFrames).
   */
  lemma {:induction false} CachedTableReused(ctx: Context, fuel: nat, st: State, source: Value, dest: Value, sourceType: TypeRef, destType: TypeRef,
                          fuel2: nat, st2: State, source2: Value, dest2: Value, sourceType2: TypeRef, destType2: TypeRef)
    requires ValidStore(st.store) && fuel > 0 && fuel2 > 0
    requires MappingKey(ctx.universe, sourceType, destType) !in st.cache
    requires BuildTable(ctx.universe, sourceType, destType).Ok?
    requires CacheExtends(MapWith(ctx, fuel, st, source, dest, sourceType, destType).state.cache, st2.cache)
    requires MappingKey(ctx.universe, sourceType2, destType2) == MappingKey(ctx.universe, sourceType, destType)
    ensures MapWith(ctx, fuel2, st2, source2, dest2, sourceType2, destType2) ==
            CopyValues(ctx, fuel2 - 1, st2, source2, dest2, BuildTable(ctx.universe, sourceType, destType).value, 0)
  {
    MapWithCachesTable(ctx, fuel, st, source, dest, sourceType, destType);
  }

  /**
   * Two destination members of one kind that share a name with a source
   * member make the table impossible to build: Map throws on a key miss,
   * caches nothing and writes nothing, so the next Map of the pair tries
   * again.
   */
  lemma {:induction false} MapWithFailsOnSharedSource(ctx: Context, fuel: nat, st: State, source: Value, dest: Value, sourceType: TypeRef, destType: TypeRef)
    requires ValidUniverse(ctx.universe) && fuel > 0
    requires MappingKey(ctx.universe, sourceType, destType) !in st.cache
    requires SharedSource(Fields(ctx.universe, destType), Fields(ctx.universe, sourceType)) ||
             SharedSource(Properties(ctx.universe, destType), Properties(ctx.universe, sourceType))
    ensures MapWith(ctx, fuel, st, source, dest, sourceType, destType) == Run(st, Err(Thrown))
  {
    BuildTableFailsOnSharedSource(ctx.universe, sourceType, destType);
  }

  /** The copy along `table` from entry `i` on, when the entries from `n` on are run after those before. */
  lemma {:induction false} CopyValuesShift(ctx: Context, fuel: nat, st: State, source: Value, dest: Value, t1: seq<Pairing>, t2: seq<Pairing>, j: nat)
    requires j <= |t2|
    ensures CopyValues(ctx, fuel, st, source, dest, t1 + t2, |t1| + j) == CopyValues(ctx, fuel, st, source, dest, t2, j)
    decreases |t2| - j
  {
    if j < |t2| {
      assert (t1 + t2)[|t1| + j] == t2[j];
      var r := CopyValue(ctx, fuel, st, t2[j].source, source, t2[j].dest, dest);
      if r.outcome.Ok? {
        CopyValuesShift(ctx, fuel, r.state, source, dest, t1, t2, j + 1);
      }
    }
  }

  lemma {:induction false} CopyValuesSplitFrom(ctx: Context, fuel: nat, st: State, source: Value, dest: Value, t1: seq<Pairing>, t2: seq<Pairing>, i: nat)
    requires i <= |t1|
    ensures CopyValues(ctx, fuel, st, source, dest, t1 + t2, i) ==
      var r := CopyValues(ctx, fuel, st, source, dest, t1, i);
      if r.outcome.Err? then r else CopyValues(ctx, fuel, r.state, source, dest, t2, 0)
    decreases |t1| - i
  {
    if i == |t1| {
      CopyValuesShift(ctx, fuel, st, source, dest, t1, t2, 0);
    } else {
      assert (t1 + t2)[i] == t1[i];
      var r := CopyValue(ctx, fuel, st, t1[i].source, source, t1[i].dest, dest);
      if r.outcome.Ok? {
        CopyValuesSplitFrom(ctx, fuel, r.state, source, dest, t1, t2, i + 1);
      }
    }
  }

  /**
   * CopyValues visits the table in order: copying along `t1 + t2` is
   * copying along `t1` and then, unless that threw, along `t2`.
   */
  lemma {:induction false} CopyValuesSequential(ctx: Context, fuel: nat, st: State, source: Value, dest: Value, t1: seq<Pairing>, t2: seq<Pairing>)
    ensures CopyValues(ctx, fuel, st, source, dest, t1 + t2, 0) ==
      var r := CopyValues(ctx, fuel, st, source, dest, t1, 0);
      if r.outcome.Err? then r else CopyValues(ctx, fuel, r.state, source, dest, t2, 0)
  {
    CopyValuesSplitFrom(ctx, fuel, st, source, dest, t1, t2, 0);
  }

  /** A one-entry table is exactly one CopyValue of that entry. */
  lemma {:induction false} CopyValuesSingle(ctx: Context, fuel: nat, st: State, source: Value, dest: Value, p: Pairing)
    ensures CopyValues(ctx, fuel, st, source, dest, [p], 0) == CopyValue(ctx, fuel, st, p.source, source, p.dest, dest)
  {
    var r := CopyValue(ctx, fuel, st, p.source, source, p.dest, dest);
    if r.outcome.Ok? {
      assert CopyValues(ctx, fuel, r.state, source, dest, [p], 1) == Run(r.state, Ok(()));
      match r.outcome.value
      case () =>
    }
  }

  /**
   * For an entry of a table in a faithful cache, CopyValue never takes the
   * early return of a kind mismatch (the `as FieldInfo` and `as
   * PropertyInfo` casts never give null): it throws on an unreadable
   * source, and otherwise performs the field or the property copy.
   */
  lemma {:induction false} CachedEntryAlwaysCopies(ctx: Context, fuel: nat, st: State, key: string, p: Pairing, source: Value, dest: Value)
    requires ValidUniverse(ctx.universe) && CacheFaithful(ctx.universe, st.cache)
    requires key in st.cache && p in st.cache[key].mappingTable
    ensures CopyValue(ctx, fuel, st, p.source, source, p.dest, dest) ==
      match ReadSlot(st.store, source, p.source)
      case None => Run(st, Err(Thrown))
      case Some(v) =>
        if p.dest.kind == Field then CopyFieldValue(ctx, fuel, st, p.source, v, p.dest, dest)
        else CopyPropertyValue(ctx, fuel, st, p.source, v, p.dest, dest)
  {
    CachedTablesWellFormed(ctx.universe, st.cache, key);
  }
}
