/** Type descriptors of the scripting documentation (`ade_type_info`).

    A descriptor is a tag plus, depending on the tag, an identifier (for a
    simple named type) or a list of nested descriptors: the members of a
    tuple, the element of an array or iterator, the key and value of a map,
    the alternatives of a union, or the return type followed by the argument
    types of a function.  Each constructor in `ade_doc.cpp` fixes the tag and
    the shape of that list; here each is a function returning the value, and
    `WellFormed` states the shapes all constructors agree on. */
module AdeDoc {

  /** A `const char*` that may be null. */
  datatype Option<T> = None | Some(value: T)

  /** `ade_type_info_type`. */
  datatype Kind = Empty | Simple | Tuple | Array | Map | Iterator | Alternative | Function

  /** `ade_type_info`: `_type`, `_identifier`, `_elements` and `_name`. */
  datatype TypeInfo = TypeInfo(kind: Kind, identifier: string, elements: seq<TypeInfo>, name: string)
  {
    /** The `is*` tests; under the shape invariant each also tells what the
        identifier and the element list hold. */
    function IsEmpty(): (b: bool)
      ensures b && WellFormed(this) ==> identifier == [] && elements == []
    {
      kind == Empty
    }

    function IsTuple(): (b: bool)
      ensures b && WellFormed(this) ==> identifier == [] && |elements| >= 1
    {
      kind == Tuple
    }

    function IsSimple(): (b: bool)
      ensures b && WellFormed(this) ==> elements == [] && ',' !in identifier
    {
      kind == Simple
    }

    function IsArray(): (b: bool)
      ensures b && WellFormed(this) ==> identifier == [] && |elements| == 1
    {
      kind == Array
    }

    function IsAlternative(): (b: bool)
      ensures b && WellFormed(this) ==> identifier == []
    {
      kind == Alternative
    }

    /** `elements()`: the nested descriptors, each well formed in turn. */
    function Elements(): (es: seq<TypeInfo>)
      ensures WellFormed(this) ==> forall e | e in es :: WellFormed(e)
    {
      elements
    }

    /** `getIdentifier()`: only a simple type has a non-empty one. */
    function GetIdentifier(): (id: string)
      ensures WellFormed(this) ==> ',' !in id
      ensures WellFormed(this) && kind != Simple ==> id == []
    {
      identifier
    }

    /** `getType()`: the empty and simple types have no elements. */
    function GetType(): (k: Kind)
      ensures WellFormed(this) && (k == Empty || k == Simple) ==> elements == []
    {
      kind
    }

    /** `getName()`: renaming to the current name changes nothing. */
    function GetName(): (n: string)
      ensures SetName(n) == this
    {
      name
    }

    /** `arrayType()`: the first element (`front()` of a non-empty list). */
    function ArrayType(): (e: TypeInfo)
      requires |elements| >= 1
      ensures e in elements && e == elements[0]
    {
      elements[0]
    }

    /** `setName`: only the display name changes. */
    function SetName(newName: string): (t: TypeInfo)
      ensures t.name == newName
      ensures t.kind == kind && t.identifier == identifier && t.elements == elements
    {
      this.(name := newName)
    }
  }

  /** The helper records the composite constructors take. */
  datatype ArrayType = ArrayType(elementType: TypeInfo)
  datatype MapType = MapType(keyType: TypeInfo, valueType: TypeInfo)
  datatype IteratorType = IteratorType(elementType: TypeInfo)
  datatype AlternativeType = AlternativeType(elementTypes: seq<TypeInfo>)
  datatype FunctionType = FunctionType(returnType: TypeInfo, argumentTypes: seq<TypeInfo>)

  /** The shape each tag fixes for the identifier and the element list. */
  predicate ShapeOk(t: TypeInfo)
  {
    match t.kind
    case Empty => t.identifier == [] && t.elements == []
    case Simple => ',' !in t.identifier && t.elements == []
    case Tuple => t.identifier == [] && |t.elements| >= 1
    case Array => t.identifier == [] && |t.elements| == 1
    case Map => t.identifier == [] && |t.elements| == 2
    case Iterator => t.identifier == [] && |t.elements| == 1
    case Alternative => t.identifier == []
    case Function => t.identifier == [] && |t.elements| >= 1
  }

  /** Every descriptor in the tree has the shape of its tag. */
  predicate WellFormed(t: TypeInfo)
    decreases t
  {
    ShapeOk(t) && forall e | e in t.elements :: WellFormed(e)
  }

  // ---------------------------------------------------------------------
  // Constructors
  // ---------------------------------------------------------------------

  /** The initializer-list constructor: a tuple of at least one type (the
      `ade_doc.cpp` asserts this). */
  function TupleOf(tupleTypes: seq<TypeInfo>): (t: TypeInfo)
    requires |tupleTypes| >= 1
    ensures t.IsTuple() && t.Elements() == tupleTypes && ShapeOk(t)
    ensures (forall e | e in tupleTypes :: WellFormed(e)) ==> WellFormed(t)
  {
    TypeInfo(Tuple, [], tupleTypes, [])
  }

  /** The `const char*` constructor: a null pointer gives the empty type;
      any other string, even "", gives a simple type with that identifier,
      which must not contain a comma (the `ade_doc.cpp` asserts this). */
  function FromCString(singleType: Option<string>): (t: TypeInfo)
    requires singleType.Some? ==> ',' !in singleType.value
    ensures t.IsEmpty() <==> singleType.None?
    ensures t.IsSimple() <==> singleType.Some?
    ensures singleType.Some? ==> t.GetIdentifier() == singleType.value
    ensures t.Elements() == [] && WellFormed(t)
  {
    match singleType
    case None => TypeInfo(Empty, [], [], [])
    case Some(s) => TypeInfo(Simple, s, [], [])
  }

  /** The `SCP_string` constructor: the empty string gives the empty type;
      a non-empty one a simple type, which must not contain a comma. */
  function FromString(singleType: string): (t: TypeInfo)
    requires singleType != [] ==> ',' !in singleType
    ensures t.IsEmpty() <==> singleType == []
    ensures t.IsSimple() <==> singleType != []
    ensures t.GetIdentifier() == singleType
    ensures t.Elements() == [] && WellFormed(t)
  {
    if singleType == [] then TypeInfo(Empty, [], [], [])
    else TypeInfo(Simple, singleType, [], [])
  }

  function FromArray(listType: ArrayType): (t: TypeInfo)
    ensures t.IsArray() && |t.Elements()| == 1 && t.ArrayType() == listType.elementType
    ensures WellFormed(listType.elementType) ==> WellFormed(t)
  {
    TypeInfo(Array, [], [listType.elementType], [])
  }

  function FromMap(listType: MapType): (t: TypeInfo)
    ensures t.GetType() == Map && t.Elements() == [listType.keyType, listType.valueType]
    ensures WellFormed(listType.keyType) && WellFormed(listType.valueType) ==> WellFormed(t)
  {
    TypeInfo(Map, [], [listType.keyType, listType.valueType], [])
  }

  function FromIterator(iteratorType: IteratorType): (t: TypeInfo)
    ensures t.GetType() == Iterator && t.Elements() == [iteratorType.elementType]
    ensures WellFormed(iteratorType.elementType) ==> WellFormed(t)
  {
    TypeInfo(Iterator, [], [iteratorType.elementType], [])
  }

  function FromAlternative(alternativeType: AlternativeType): (t: TypeInfo)
    ensures t.IsAlternative() && t.Elements() == alternativeType.elementTypes
    ensures (forall e | e in alternativeType.elementTypes :: WellFormed(e)) ==> WellFormed(t)
  {
    TypeInfo(Alternative, [], alternativeType.elementTypes, [])
  }

  /** The function constructor: the return type first, then the arguments. */
  function FromFunction(functionType: FunctionType): (t: TypeInfo)
    ensures t.GetType() == Function
    ensures |t.Elements()| == |functionType.argumentTypes| + 1
    ensures t.Elements()[0] == functionType.returnType
    ensures t.Elements()[1..] == functionType.argumentTypes
    ensures WellFormed(functionType.returnType) && (forall e | e in functionType.argumentTypes :: WellFormed(e))
            ==> WellFormed(t)
  {
    TypeInfo(Function, [], [functionType.returnType] + functionType.argumentTypes, [])
  }

  // ---------------------------------------------------------------------
  // Properties of the accessors
  // ---------------------------------------------------------------------

  /** At most one of the `is*` tests holds, and each holds exactly for its tag. */
  lemma KindTestsAreExclusive(t: TypeInfo)
    ensures t.IsEmpty() <==> t.GetType() == Empty
    ensures t.IsTuple() <==> t.GetType() == Tuple
    ensures t.IsSimple() <==> t.GetType() == Simple
    ensures t.IsArray() <==> t.GetType() == Array
    ensures t.IsAlternative() <==> t.GetType() == Alternative
    ensures (if t.IsEmpty() then 1 else 0) + (if t.IsTuple() then 1 else 0)
          + (if t.IsSimple() then 1 else 0) + (if t.IsArray() then 1 else 0)
          + (if t.IsAlternative() then 1 else 0) <= 1
  {
  }

  /** The two string constructors agree except on the empty string, which the
      `const char*` constructor keeps as a simple type. */
  lemma StringConstructorsDifferOnlyOnEmpty(s: string)
    requires ',' !in s
    ensures s != [] ==> FromCString(Some(s)) == FromString(s)
    ensures s == [] ==> FromCString(Some(s)).IsSimple() && FromString(s).IsEmpty()
    ensures FromCString(None) == FromString([])
  {
  }

  /** A function descriptor can be taken apart again into the record it was
      built from. */
  lemma FunctionRoundTrip(f: FunctionType)
    ensures var t := FromFunction(f);
            FunctionType(t.Elements()[0], t.Elements()[1..]) == f
  {
  }

  /** Renaming never changes what a descriptor describes. */
  lemma SetNameKeepsWellFormed(t: TypeInfo, newName: string)
    requires WellFormed(t)
    ensures WellFormed(t.SetName(newName))
  {
  }

  // ---------------------------------------------------------------------
  // ade_overload_list
  // ---------------------------------------------------------------------

  /** The argument lists documented for a function, one per overload. */
  datatype OverloadList = OverloadList(argLists: seq<Option<string>>)
  {
    function Overloads(): seq<Option<string>> { argLists }
  }

  /** The single-string constructor: exactly that one overload. */
  function OverloadsOf(arglist: Option<string>): (o: OverloadList)
    ensures o.Overloads() == [arglist]
  {
    OverloadsFromList([arglist])
  }

  /** The initializer-list constructor: the overloads in the order given. */
  function OverloadsFromList(overloads: seq<Option<string>>): (o: OverloadList)
    ensures o.Overloads() == overloads
  {
    OverloadList(overloads)
  }

  /** The default constructor: one overload, the null argument list. */
  function NoOverloads(): (o: OverloadList)
    ensures o.Overloads() == [None] && |o.Overloads()| == 1
  {
    OverloadsOf(None)
  }
}
