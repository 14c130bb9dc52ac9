/**
 * MappingModel, the cache entry, and the string key the cache is indexed by.
 */
module MappingModels {
  import opened Outcomes
  import opened Reflection
  import opened MemberTables

  /** The source type, the destination type and the table that was built from them. */
  datatype MappingModel = MappingModel(sourceType: TypeRef, destType: TypeRef, mappingTable: seq<Pairing>)

  /** `string.Format("{0}To{1}", sourceType.Name, destType.Name)`: simple names only. */
  function MappingKey(u: Universe, sourceType: TypeRef, destType: TypeRef): (r: string)
    ensures |r| == |Name(u, sourceType)| + 2 + |Name(u, destType)|
    ensures r[..|Name(u, sourceType)|] == Name(u, sourceType)
    ensures r[|Name(u, sourceType)|..|Name(u, sourceType)| + 2] == "To"
    ensures r[|Name(u, sourceType)| + 2..] == Name(u, destType)
  {
    Name(u, sourceType) + "To" + Name(u, destType)
  }

  /** Every cache entry holds the table built from its own two types, under their key. */
  predicate CacheFaithful(u: Universe, cache: map<string, MappingModel>)
  {
    forall k :: k in cache ==>
      k == MappingKey(u, cache[k].sourceType, cache[k].destType) &&
      BuildTable(u, cache[k].sourceType, cache[k].destType) == Ok(cache[k].mappingTable)
  }

  /**
   * The key forgets namespaces and the boundary between the two names: a
   * source type named "ATo" with a destination named "B" has the key of a
   * source named "A" with a destination named "ToB", and so do any two
   * pairs with the same simple names.
   */
  lemma MappingKeyCollides(u: Universe, s1: TypeRef, d1: TypeRef, s2: TypeRef, d2: TypeRef)
    requires Name(u, s1) == "ATo" && Name(u, d1) == "B"
    requires Name(u, s2) == "A" && Name(u, d2) == "ToB"
    ensures Name(u, s1) != Name(u, s2) && Name(u, d1) != Name(u, d2)
    ensures MappingKey(u, s1, d1) == MappingKey(u, s2, d2)
  {
    assert MappingKey(u, s1, d1) == "AToToB";
    assert MappingKey(u, s2, d2) == "AToToB";
  }

  /**
   * Every table in a faithful cache pairs members of one kind and one name,
   * each destination member with the first same-named source member, and
   * never a source member twice; so the `as FieldInfo` and `as PropertyInfo`
   * casts of the copy step never yield null for a cached table.
   */
  lemma CachedTablesWellFormed(u: Universe, cache: map<string, MappingModel>, k: string)
    requires ValidUniverse(u) && CacheFaithful(u, cache) && k in cache
    ensures DistinctSources(cache[k].mappingTable)
    ensures forall p :: p in cache[k].mappingTable ==> p.source.kind == p.dest.kind && p.source.name == p.dest.name
  {
    BuildTableSound(u, cache[k].sourceType, cache[k].destType);
  }
}
