/**
 * Type descriptors standing in for System.Type and MemberInfo. The mapper
 * asks of reflection only this: a type's Name and FullName, its public
 * fields and its public properties in the order reflection lists them,
 * whether its instances are dictionaries or collections, its array element
 * type or generic type definition, and whether it has a default constructor.
 */
module Reflection {
  import opened Outcomes

  /** A type: one declared in the universe, or the array type over an element type. */
  datatype TypeRef = Declared(id: nat) | ArrayOf(element: TypeRef)

  datatype MemberKind = Field | Property

  /** A FieldInfo or a PropertyInfo: its kind, its name, its declared type and its DeclaringType. */
  datatype Member = Member(kind: MemberKind, name: string, memberType: TypeRef, declaringType: TypeRef)

  /** What `obj is IDictionary` and `obj is ICollection` answer for the instances of a type. */
  datatype Shape = Scalar | Collection | Dictionary

  datatype TypeInfo = TypeInfo(
    name: string,
    fullName: string,
    fields: seq<Member>,
    properties: seq<Member>,
    shape: Shape,
    genericDefinition: Option<TypeRef>,
    constructible: bool)

  /** The declared types of a program, by identifier. */
  type Universe = map<nat, TypeInfo>

  /** What an identifier the universe does not declare stands for: no name, no members, not constructible. */
  const Unknown := TypeInfo("", "", [], [], Scalar, None, false)

  function Info(u: Universe, t: TypeRef): TypeInfo
  {
    match t
    case Declared(id) => if id in u then u[id] else Unknown
    case ArrayOf(e) =>
      var ei := Info(u, e);
      TypeInfo(ei.name + "[]", ei.fullName + "[]", [], [], Collection, None, false)
  }

  function Name(u: Universe, t: TypeRef): string
  {
    Info(u, t).name
  }

  function FullName(u: Universe, t: TypeRef): string
  {
    Info(u, t).fullName
  }

  /** `GetFields(Instance | Public | Static)`. */
  function Fields(u: Universe, t: TypeRef): seq<Member>
  {
    Info(u, t).fields
  }

  /** `GetProperties(Instance | Public | Static)`. */
  function Properties(u: Universe, t: TypeRef): seq<Member>
  {
    Info(u, t).properties
  }

  /**
   * `GetElementType() ?? GetGenericTypeDefinition()`: the element type of an
   * array type, otherwise the generic type definition; None where the second
   * call throws because the type is not generic.
   */
  function ElementLookupType(u: Universe, t: TypeRef): (r: Option<TypeRef>)
    ensures t.ArrayOf? ==> r == Some(t.element)
    ensures r.None? <==> t.Declared? && Info(u, t).genericDefinition.None?
  {
    match t
    case ArrayOf(e) => Some(e)
    case Declared(_) => Info(u, t).genericDefinition
  }

  /** Reflection lists fields under GetFields and properties under GetProperties, never the other way round. */
  predicate ValidUniverse(u: Universe)
  {
    forall id :: id in u ==>
      (forall m :: m in u[id].fields ==> m.kind == Field) &&
      (forall m :: m in u[id].properties ==> m.kind == Property)
  }

  lemma {:induction false} MemberKindsOf(u: Universe, t: TypeRef)
    requires ValidUniverse(u)
    ensures forall m :: m in Fields(u, t) ==> m.kind == Field
    ensures forall m :: m in Properties(u, t) ==> m.kind == Property
  {
    match t
    case Declared(id) =>
    case ArrayOf(e) =>
  }
}
