/** The value model of include/data/Value.hpp and src/data/Value.cpp: the six field classes as one
    inductive datatype (the alternatives of AnyField's variant), the AnyField wrapper, the boxed
    results of toBoxedValue, and the document. */
module Values {
  import opened Outcomes

  /** The type tags of include/data/IValue.hpp, in declaration order. */
  datatype JsonType = JNull | JBoolean | JNumber | JString | JArray | JObject | JAny

  /** NullField, BooleanField, NumberField, StringField, ArrayField, ObjectField. The number holds
      the lexeme of its token instead of the double std::stod makes of it; since number tokens
      begin at 0, that lexeme is the buffer's prefix of the token's length. Object storage is a
      map, so keys are unique. */
  datatype Field =
    | NullField
    | BooleanField(flag: bool)
    | NumberField(literal: string)
    | StringField(text: string)
    | ArrayField(items: seq<Field>)
    | ObjectField(props: map<string, Field>)
  {
    /** getType of each field class. */
    function GetType(): (t: JsonType)
      ensures t != JAny
      ensures VariantPos(t) == VariantIndex()
    {
      match this
      case NullField => JNull
      case BooleanField(_) => JBoolean
      case NumberField(_) => JNumber
      case StringField(_) => JString
      case ArrayField(_) => JArray
      case ObjectField(_) => JObject
    }

    /** The index of this alternative in variant<Null, Boolean, Number, String, Array, Object>. */
    function VariantIndex(): (i: nat)
      ensures i < 6
    {
      match this
      case NullField => 0
      case BooleanField(_) => 1
      case NumberField(_) => 2
      case StringField(_) => 3
      case ArrayField(_) => 4
      case ObjectField(_) => 5
    }

    /** toBoxedValue: nothing for null, the payload for the scalars, and
        runtime_error("Not implemented") for arrays and objects. */
    function ToBoxedValue(): (r: Result<Boxed>)
      ensures r.Err? <==> ArrayField? || ObjectField?
      ensures r.Err? ==> r.error == RuntimeError("Not implemented")
      ensures NullField? ==> r == Ok(NoValue)
      ensures BooleanField? ==> r == Ok(BoolBox(flag))
      ensures NumberField? ==> r == Ok(NumberBox(literal))
      ensures StringField? ==> r == Ok(StringBox(text))
    {
      match this
      case NullField => Ok(NoValue)
      case BooleanField(b) => Ok(BoolBox(b))
      case NumberField(n) => Ok(NumberBox(n))
      case StringField(s) => Ok(StringBox(s))
      case ArrayField(_) => Err(RuntimeError("Not implemented"))
      case ObjectField(_) => Err(RuntimeError("Not implemented"))
    }

    /** isEmpty of ArrayField and of ObjectField, which agree with the counts. */
    function IsEmpty(): (r: bool)
      requires ArrayField? || ObjectField?
      ensures ArrayField? ==> (r <==> GetLength() == 0)
      ensures ObjectField? ==> (r <==> GetPropertyCount() == 0)
    {
      if ArrayField? then items == [] else props == map[]
    }

    function GetLength(): nat
      requires ArrayField?
    {
      |items|
    }

    /** getItemPtr: vector::at, so a position past the end throws std::out_of_range. */
    function GetItemPtr(pos: nat): (r: Result<Field>)
      requires ArrayField?
      ensures r.Ok? <==> pos < GetLength()
      ensures r.Ok? ==> r.value == items[pos]
    {
      if pos < |items| then Ok(items[pos]) else Err(OutOfRange)
    }

    function GetPropertyCount(): nat
      requires ObjectField?
    {
      |props|
    }

    function HasProperty(key: string): bool
      requires ObjectField?
    {
      key in props
    }

    /** getValuePtr: map::at, so a missing key throws std::out_of_range. */
    function GetValuePtr(key: string): (r: Result<Field>)
      requires ObjectField?
      ensures r.Ok? <==> HasProperty(key)
      ensures r.Ok? ==> r.value == props[key]
    {
      if key in props then Ok(props[key]) else Err(OutOfRange)
    }
  }

  /** Position of a tag in the JsonType enum declaration. */
  function TypeOrdinal(t: JsonType): nat {
    match t
    case JNull => 0
    case JBoolean => 1
    case JNumber => 2
    case JString => 3
    case JArray => 4
    case JObject => 5
    case JAny => 6
  }

  /** What toBoxedValue puts in its std::any. */
  datatype Boxed =
    | NoValue
    | BoolBox(b: bool)
    | NumberBox(n: string)
    | StringBox(s: string)
    | AnyBox(any: AnyField)

  /** toAnyVariantPos<T>, with T named by its tag: Boolean 1 through Object 5, and 0 for NullField
      and for every other type (here JAny stands for AnyField). */
  function VariantPos(t: JsonType): (i: nat)
    ensures i < 6
  {
    if t == JBoolean then 1
    else if t == JNumber then 2
    else if t == JString then 3
    else if t == JArray then 4
    else if t == JObject then 5
    else 0
  }

  /** The wrapper the parser puts around every value it builds. It has one constructor per field
      class and no default constructor. */
  datatype AnyField = AnyField(held: Field) {
    function GetType(): JsonType {
      JAny
    }

    /** AnyField::toBoxedValue boxes the wrapper itself. */
    function ToBoxedValue(): Result<Boxed> {
      Ok(AnyBox(this))
    }

    /** unpackValue<T>: std::get at toAnyVariantPos<T>(), throwing std::bad_variant_access when
        a different alternative is held. */
    function UnpackValue(want: JsonType): (r: Result<Field>)
      ensures r.Ok? <==> VariantPos(want) == held.VariantIndex()
      ensures r.Ok? ==> r.value == held
      ensures r.Err? ==> r.error == BadVariantAccess
    {
      if VariantPos(want) == held.VariantIndex() then Ok(held) else Err(BadVariantAccess)
    }
  }

  /** ToyJsonDocument: a title and the root value. */
  datatype Document = Document(title: string, root: Field) {
    function GetTitle(): string {
      title
    }

    function GetRoot(): Field {
      root
    }
  }

  /** The variant order matches the JsonType order: the tag of a field's class is the
      position of its alternative. */
  lemma VariantOrderMatchesTypeOrder(f: Field)
    ensures VariantPos(f.GetType()) == f.VariantIndex()
    ensures f.VariantIndex() == TypeOrdinal(f.GetType())
  {
  }

  /** toAnyVariantPos agrees with the enum order on every field class. */
  lemma VariantPosIsTypeOrdinal(t: JsonType)
    requires t != JAny
    ensures VariantPos(t) == TypeOrdinal(t)
  {
  }

  /** Unpacking with a field's own class returns it; with any other field class it throws. */
  lemma UnpackSelectsOwnAlternative(f: Field, want: JsonType)
    requires want != JAny
    ensures AnyField(f).UnpackValue(want).Ok? <==> want == f.GetType()
    ensures AnyField(f).UnpackValue(f.GetType()) == Ok(f)
  {
  }

  /** The wrapper's tag differs from every tag it can hold. */
  lemma AnyTagDistinct(f: Field)
    ensures AnyField(f).GetType() != f.GetType()
  {
  }

  /** A default ArrayField (constructed from an empty vector) is empty, and its first item throws. */
  lemma DefaultArrayEmpty()
    ensures ArrayField([]).IsEmpty() && ArrayField([]).GetLength() == 0
    ensures ArrayField([]).GetItemPtr(0) == Err(OutOfRange)
  {
  }

  /** A default ObjectField is empty and has no property. */
  lemma DefaultObjectEmpty(key: string)
    ensures ObjectField(map[]).IsEmpty() && ObjectField(map[]).GetPropertyCount() == 0
    ensures !ObjectField(map[]).HasProperty(key)
  {
  }

  /** The document getters return the constructor arguments. */
  lemma DocumentGetters(title: string, root: Field)
    ensures Document(title, root).GetTitle() == title
    ensures Document(title, root).GetRoot() == root
  {
  }
}
