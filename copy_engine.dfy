/**
 * The copy engine of Mapper as functions over a state value: the private
 * Map with its check-then-insert on the table cache, the untyped Map,
 * CopyValues, CopyValue, CopyFieldValue, CopyPropertyValue and
 * ProcessCollections. Each function returns the state reached and either
 * a result or the error that ended the call; the state of a failed call is
 * the state at the point of the throw, with every write made before it.
 *
 * The source recurses without bound. Here every nested Map consumes one
 * unit of `fuel`, and a Map call with no fuel left ends in DepthExhausted.
 */
module CopyEngine {
  import opened Outcomes
  import opened Reflection
  import opened ObjectStore
  import opened Bindings
  import opened MemberTables
  import opened MappingModels

  /** What the registrations have fixed: the types, the interface bindings and the element bindings. */
  datatype Context = Context(universe: Universe, interfaceModels: seq<InterfaceModel>, sourceDestModels: seq<SourceDestModel>)

  /** What mapping changes: the table cache and the heap. */
  datatype State = State(cache: map<string, MappingModel>, store: Store)

  datatype Run<+T> = Run(state: State, outcome: Outcome<T>)

  /** `member.SetValue(dest, v)` on a state. */
  function Assign(st: State, dest: Value, m: Member, v: Value): Run<()>
  {
    match WriteSlot(st.store, dest, m, v)
    case None => Run(st, Err(Thrown))
    case Some(s) => Run(st.(store := s), Ok(()))
  }

  /**
   * The private Map: look the table up under the key of the two given
   * types, build and insert it on a miss, then copy along it.
   */
  function MapWith(ctx: Context, fuel: nat, st: State, source: Value, dest: Value, sourceType: TypeRef, destType: TypeRef): Run<()>
    decreases fuel, 0, 0
  {
    if fuel == 0 then Run(st, Err(DepthExhausted))
    else
      var key := MappingKey(ctx.universe, sourceType, destType);
      if key in st.cache then
        CopyValues(ctx, fuel - 1, st, source, dest, st.cache[key].mappingTable, 0)
      else
        match BuildTable(ctx.universe, sourceType, destType)
        case Err(e) => Run(st, Err(e))
        case Ok(table) =>
          var model := MappingModel(sourceType, destType, table);
          CopyValues(ctx, fuel - 1, st.(cache := st.cache[key := model]), source, dest, table, 0)
  }

  /** The untyped public Map: the runtime types of both objects; null throws. */
  function MapObjects(ctx: Context, fuel: nat, st: State, source: Value, dest: Value): Run<()>
    decreases fuel, 1, 0
  {
    if TypeOf(st.store, source).None? || TypeOf(st.store, dest).None? then Run(st, Err(Thrown))
    else MapWith(ctx, fuel, st, source, dest, TypeOf(st.store, source).value, TypeOf(st.store, dest).value)
  }

  /** CopyValues from entry `i` on: CopyValue for every table entry in order, stopping at the first error. */
  function CopyValues(ctx: Context, fuel: nat, st: State, source: Value, dest: Value, table: seq<Pairing>, i: nat): Run<()>
    requires i <= |table|
    decreases fuel, 7, |table| - i
  {
    if i == |table| then Run(st, Ok(()))
    else
      var r := CopyValue(ctx, fuel, st, table[i].source, source, table[i].dest, dest);
      if r.outcome.Err? then r else CopyValues(ctx, fuel, r.state, source, dest, table, i + 1)
  }

  /**
   * CopyValue: read the source member, then hand over to the field or the
   * property copy; a pairing of two kinds returns without writing, as the
   * null cast makes the source do.
   */
  function CopyValue(ctx: Context, fuel: nat, st: State, sourceMember: Member, source: Value, destMember: Member, dest: Value): Run<()>
    decreases fuel, 6, 0
  {
    match ReadSlot(st.store, source, sourceMember)
    case None => Run(st, Err(Thrown))
    case Some(v) =>
      if destMember.kind == Field then
        if sourceMember.kind == Field then CopyFieldValue(ctx, fuel, st, sourceMember, v, destMember, dest)
        else Run(st, Ok(()))
      else
        if sourceMember.kind == Property then CopyPropertyValue(ctx, fuel, st, sourceMember, v, destMember, dest)
        else Run(st, Ok(()))
  }

  /**
   * CopyPropertyValue: ProcessCollections runs first and its answer is
   * dropped; the property is then written either with a new instance of the
   * bound concrete type or with the source value itself.
   */
  function CopyPropertyValue(ctx: Context, fuel: nat, st: State, sourceProperty: Member, v: Value, destProperty: Member, dest: Value): Run<()>
    decreases fuel, 5, 0
  {
    var handled := ProcessCollections(ctx, fuel, st, v, destProperty, dest);
    if handled.outcome.Err? then Run(handled.state, Err(handled.outcome.error))
    else
      match GetConcreteType(ctx.universe, ctx.interfaceModels, destProperty)
      case Some(t) => MapIntoConcrete(ctx, fuel, handled.state, v, sourceProperty.memberType, t, destProperty, dest)
      case None => Assign(handled.state, dest, destProperty, v)
  }

  /** CopyFieldValue: as CopyPropertyValue, without ProcessCollections. */
  function CopyFieldValue(ctx: Context, fuel: nat, st: State, sourceField: Member, v: Value, destField: Member, dest: Value): Run<()>
    decreases fuel, 5, 0
  {
    match GetConcreteType(ctx.universe, ctx.interfaceModels, destField)
    case Some(t) => MapIntoConcrete(ctx, fuel, st, v, sourceField.memberType, t, destField, dest)
    case None => Assign(st, dest, destField, v)
  }

  /**
   * The branch both copies share when a concrete type is bound: create an
   * instance, map the source value into it with the source member's
   * declared type and the concrete type, and write the instance.
   */
  function MapIntoConcrete(ctx: Context, fuel: nat, st: State, v: Value, sourceType: TypeRef, concrete: TypeRef, destMember: Member, dest: Value): Run<()>
    decreases fuel, 4, 0
  {
    match Allocate(ctx.universe, st.store, concrete)
    case None => Run(st, Err(Thrown))
    case Some(c) =>
      var r := MapWith(ctx, fuel, st.(store := c.store), v, Ref(c.addr), sourceType, concrete);
      if r.outcome.Err? then r else Assign(r.state, dest, destMember, Ref(c.addr))
  }

  /**
   * ProcessCollections: true for a dictionary, without writing anything;
   * for another collection whose element type has a binding, an array of
   * the bound type holding one mapped new instance per element, written to
   * the property, and true; false otherwise.
   */
  function ProcessCollections(ctx: Context, fuel: nat, st: State, v: Value, destProperty: Member, dest: Value): Run<bool>
    decreases fuel, 4, 0
  {
    if IsDictionary(ctx.universe, st.store, v) then Run(st, Ok(true))
    else if !IsCollection(ctx.universe, st.store, v) then Run(st, Ok(false))
    else
      var coll := st.store.objects[v.addr];
      match ElementLookupType(ctx.universe, coll.runtimeType)
      case None => Run(st, Err(Thrown))
      case Some(elementType) =>
        if TypeOf(st.store, dest).None? then Run(st, Err(Thrown))
        else
          match FindElementModel(ctx.universe, ctx.sourceDestModels, elementType)
          case None => Run(st, Ok(false))
          case Some(model) => ConvertCollection(ctx, fuel, st, model.destType, coll.elements, destProperty, dest)
  }

  /** The bound-collection branch of ProcessCollections: a new array of `destType`, filled, then written to the property. */
  function ConvertCollection(ctx: Context, fuel: nat, st: State, destType: TypeRef, elements: seq<Value>, destProperty: Member, dest: Value): Run<bool>
    decreases fuel, 3, 0
  {
    var c := AllocateArray(st.store, destType, |elements|);
    var r := FillElements(ctx, fuel, st.(store := c.store), c.addr, destType, elements, 0);
    if r.outcome.Err? then Run(r.state, Err(r.outcome.error))
    else
      match WriteSlot(r.state.store, dest, destProperty, Ref(c.addr))
      case None => Run(r.state, Err(Thrown))
      case Some(s) => Run(r.state.(store := s), Ok(true))
  }

  /** The foreach of ProcessCollections from element `i` on: a new `elementType` instance per element, mapped from it and stored at its index. */
  function FillElements(ctx: Context, fuel: nat, st: State, arr: Addr, elementType: TypeRef, elements: seq<Value>, i: nat): Run<()>
    requires i <= |elements|
    decreases fuel, 2, |elements| - i
  {
    if i == |elements| then Run(st, Ok(()))
    else
      match Allocate(ctx.universe, st.store, elementType)
      case None => Run(st, Err(Thrown))
      case Some(c) =>
        var r := MapObjects(ctx, fuel, st.(store := c.store), elements[i], Ref(c.addr));
        if r.outcome.Err? then r
        else
          match WriteElement(r.state.store, arr, i, Ref(c.addr))
          case None => Run(r.state, Err(Thrown))
          case Some(s) => FillElements(ctx, fuel, r.state.(store := s), arr, elementType, elements, i + 1)
  }
}
