/**
 * The values the serializer walks, the metadata it reads from them, the
 * primitives it produces and the exceptions it raises.
 *
 * Reflection is replaced by a descriptor side-table carried in the value
 * itself: an object lists its declared properties in declaration order, each
 * with its visibility and its `Ignore` and `Alias` attributes, and the object
 * carries its class's `AliasGenerator`, if any.
 */
module Values {
  import opened Wrappers
  import opened PhpArray

  /** A PHP scalar or null. */
  datatype Prim = Null | Bool(b: bool) | Int(i: int) | Str(s: string)

  /** The visibility of a declared property. */
  datatype Vis = Public | Private | Protected

  /**
   * An `Ignore` attribute: `serialization` hides the property when
   * serializing, `validation` hides it when serializing for validation.
   */
  datatype Ignore = Ignore(serialization: bool, validation: bool)

  /** A field-name transformation: an alias generator, or an `Alias` attribute's `getAlias`. */
  type Generator = string -> string

  /** The generator a fresh serializer holds: `fn (string $name) => $name`. */
  const IdentityGenerator: Generator := name => name

  /**
   * A declared property. `value` is None when the property was never
   * initialized; `alias` is the `getAlias` of its `Alias` attribute.
   */
  datatype Field = Field(name: string, value: Option<Value>, vis: Vis, ignore: Option<Ignore>, alias: Option<Generator>)

  /**
   * A PHP value, by the category the serializer dispatches on.
   * `Prim` and `Array` are not objects; every other constructor is one.
   * `DateTime` carries its `format` method; `Enum` carries whether reflection
   * on it succeeds; `Obj` is any other object, with its class's alias generator.
   */
  datatype Value =
    | Prim(p: Prim)
    | Array(items: seq<(Key, Value)>)
    | StdObject(props: seq<(Key, Value)>)
    | DateTime(format: string -> string)
    | Container(items: seq<(Key, Value)>)
    | Enum(name: string, backing: Option<Prim>, reflectable: bool)
    | Obj(aliasGenerator: Option<Generator>, fields: seq<Field>)

  /** What `serialize` returns: a scalar, or an ordered array of serialized values. */
  datatype Out = Scalar(p: Prim) | Map(entries: seq<(Key, Out)>)

  /** The two `SerializeException`s. */
  datatype SerializeError =
    | InvalidVisibility(token: string)
    | EnumNotSerializable

  /** The four boolean parameters of `serialize`. */
  datatype Options = Options(useIgnores: bool, useValidation: bool, useVisibilityMethods: bool, byAlias: bool)

  const DefaultOptions := Options(useIgnores := true, useValidation := false, useVisibilityMethods := true, byAlias := true)

  const MessagePrefix := "Invalid property visibility '"
  const MessageSuffix := "'. Expected 'public', 'private' or 'protected'."

  /** The exception's message. */
  function Message(e: SerializeError): (m: string)
    ensures e.InvalidVisibility? ==> |m| == |MessagePrefix| + |e.token| + |MessageSuffix|
    ensures e.InvalidVisibility? ==> m[|MessagePrefix|..|m| - |MessageSuffix|] == e.token
  {
    match e
    case InvalidVisibility(token) => MessagePrefix + token + MessageSuffix
    case EnumNotSerializable => "Unable to serialize enum"
  }

  /** `is_object`. */
  predicate IsObject(v: Value)
  {
    !v.Prim? && !v.Array?
  }

  /** A raw array is wrapped in an `ArrayObject` before it is walked. */
  function Wrap(v: Value): (r: Value)
    ensures !r.Array?
    ensures v.Array? ==> r == Container(v.items)
    ensures !v.Array? ==> r == v
    ensures IsObject(r) <==> !v.Prim?
    ensures Size(r) == Size(v)
  {
    if v.Array? then Container(v.items) else v
  }

  /** A measure that decreases along every descent of the serializer. */
  function Size(v: Value): nat
    decreases v
  {
    match v
    case Prim(_) => 1
    case Array(items) => 1 + ItemsSize(items)
    case StdObject(props) => 2 + ItemsSize(props)
    case DateTime(_) => 1
    case Container(items) => 1 + ItemsSize(items)
    case Enum(_, _, _) => 1
    case Obj(_, fields) => 1 + FieldsSize(fields)
  }

  function EntrySize(e: (Key, Value)): nat
    decreases e
  {
    Size(e.1)
  }

  function ItemsSize(items: seq<(Key, Value)>): nat
    decreases items
  {
    if items == [] then 0 else 1 + EntrySize(items[0]) + ItemsSize(items[1..])
  }

  function FieldSize(f: Field): nat
    decreases f
  {
    if f.value.Some? then 1 + Size(f.value.value) else 1
  }

  function FieldsSize(fields: seq<Field>): nat
    decreases fields
  {
    if fields == [] then 0 else 1 + FieldSize(fields[0]) + FieldsSize(fields[1..])
  }

  /** Every item of a container is smaller than the container's items. */
  lemma {:induction false} ItemSmaller(items: seq<(Key, Value)>, i: nat)
    requires i < |items|
    ensures Size(items[i].1) < ItemsSize(items)
  {
    if i > 0 {
      ItemSmaller(items[1..], i - 1);
    }
  }

  /** Every field's value is smaller than the object's fields. */
  lemma {:induction false} FieldSmaller(fields: seq<Field>, i: nat)
    requires i < |fields| && fields[i].value.Some?
    ensures Size(fields[i].value.value) < FieldsSize(fields)
  {
    if i > 0 {
      FieldSmaller(fields[1..], i - 1);
    }
  }
}
