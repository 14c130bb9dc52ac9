/**
 * The two binding records the mapper registers (InterfaceModel and
 * SourceDestModel) and the first-match queries it runs over them.
 */
module Bindings {
  import opened Outcomes
  import opened Reflection

  /** Inside `ownerType`, a member declared as `interfaceType` is filled with a new `concreteType`. */
  datatype InterfaceModel = InterfaceModel(ownerType: TypeRef, interfaceType: TypeRef, concreteType: TypeRef)

  /** Collections of `sourceType` elements become arrays of `destType`; `destOwnerType` is stored but never read. */
  datatype SourceDestModel = SourceDestModel(destOwnerType: Option<TypeRef>, sourceType: TypeRef, destType: TypeRef)

  /** Owner compared by FullName, interface by simple Name. */
  predicate InterfaceMatches(u: Universe, x: InterfaceModel, member: Member)
  {
    FullName(u, x.ownerType) == FullName(u, member.declaringType) &&
    Name(u, x.interfaceType) == Name(u, member.memberType)
  }

  /**
   * GetConcreteType: the concrete type of the first interface binding whose
   * owner has the FullName of the member's declaring type and whose
   * interface has the Name of the member's declared type; None if no
   * binding matches.
   */
  function GetConcreteType(u: Universe, models: seq<InterfaceModel>, member: Member): (r: Option<TypeRef>)
    ensures r.None? <==> forall i :: 0 <= i < |models| ==> !InterfaceMatches(u, models[i], member)
    ensures r.Some? ==>
      exists i :: 0 <= i < |models| && InterfaceMatches(u, models[i], member) && r.value == models[i].concreteType &&
                  forall j :: 0 <= j < i ==> !InterfaceMatches(u, models[j], member)
  {
    if |models| == 0 then None
    else if InterfaceMatches(u, models[0], member) then Some(models[0].concreteType)
    else
      var r := GetConcreteType(u, models[1..], member);
      assert forall i :: 1 <= i < |models| ==> models[i] == models[1..][i - 1];
      r
  }

  /** The element binding lookup of ProcessCollections: source type compared by FullName. */
  predicate ElementMatches(u: Universe, x: SourceDestModel, elementType: TypeRef)
  {
    FullName(u, x.sourceType) == FullName(u, elementType)
  }

  /** The first element binding whose source type has the FullName of `elementType`; None if none has. */
  function FindElementModel(u: Universe, models: seq<SourceDestModel>, elementType: TypeRef): (r: Option<SourceDestModel>)
    ensures r.None? <==> forall i :: 0 <= i < |models| ==> !ElementMatches(u, models[i], elementType)
    ensures r.Some? ==>
      exists i :: 0 <= i < |models| && ElementMatches(u, models[i], elementType) && r.value == models[i] &&
                  forall j :: 0 <= j < i ==> !ElementMatches(u, models[j], elementType)
  {
    if |models| == 0 then None
    else if ElementMatches(u, models[0], elementType) then Some(models[0])
    else
      var r := FindElementModel(u, models[1..], elementType);
      assert forall i :: 1 <= i < |models| ==> models[i] == models[1..][i - 1];
      r
  }

  /** Two registries that differ at most in the destination-owner qualifiers. */
  predicate SameUpToOwner(a: seq<SourceDestModel>, b: seq<SourceDestModel>)
  {
    |a| == |b| &&
    forall i :: 0 <= i < |a| ==> a[i].sourceType == b[i].sourceType && a[i].destType == b[i].destType
  }

  /** The destination-owner qualifier takes no part in the lookup: changing it changes neither whether a binding is found nor its destination type. */
  lemma {:induction false} ElementLookupIgnoresOwner(u: Universe, a: seq<SourceDestModel>, b: seq<SourceDestModel>, elementType: TypeRef)
    requires SameUpToOwner(a, b)
    ensures FindElementModel(u, a, elementType).Some? == FindElementModel(u, b, elementType).Some?
    ensures FindElementModel(u, a, elementType).Some? ==>
      FindElementModel(u, a, elementType).value.destType == FindElementModel(u, b, elementType).value.destType
  {
    if |a| > 0 && !ElementMatches(u, a[0], elementType) {
      assert SameUpToOwner(a[1..], b[1..]) by {
        forall i | 0 <= i < |a[1..]|
          ensures a[1..][i].sourceType == b[1..][i].sourceType && a[1..][i].destType == b[1..][i].destType
        {
          assert a[1..][i] == a[i + 1] && b[1..][i] == b[i + 1];
        }
      }
      ElementLookupIgnoresOwner(u, a[1..], b[1..], elementType);
    }
  }

  /**
   * Registration appends, and lookups take the first match: a new interface
   * binding changes GetConcreteType only for members no earlier binding
   * matched, so an identical second registration never has an effect.
   */
  lemma {:induction false} ConcreteTypeAfterRegistration(u: Universe, models: seq<InterfaceModel>, x: InterfaceModel, member: Member)
    ensures GetConcreteType(u, models + [x], member) ==
      if GetConcreteType(u, models, member).Some? then GetConcreteType(u, models, member)
      else if InterfaceMatches(u, x, member) then Some(x.concreteType)
      else None
  {
    if |models| > 0 {
      assert (models + [x])[1..] == models[1..] + [x];
      ConcreteTypeAfterRegistration(u, models[1..], x, member);
    } else {
      assert [x][1..] == [];
    }
  }

  /** The same for element bindings and FindElementModel. */
  lemma {:induction false} ElementModelAfterRegistration(u: Universe, models: seq<SourceDestModel>, x: SourceDestModel, elementType: TypeRef)
    ensures FindElementModel(u, models + [x], elementType) ==
      if FindElementModel(u, models, elementType).Some? then FindElementModel(u, models, elementType)
      else if ElementMatches(u, x, elementType) then Some(x)
      else None
  {
    if |models| > 0 {
      assert (models + [x])[1..] == models[1..] + [x];
      ElementModelAfterRegistration(u, models[1..], x, elementType);
    } else {
      assert [x][1..] == [];
    }
  }
}
