/**
 * The meaning of `Serializer::serialize` as a function: given the state of a
 * serializer and a value, the result it returns (or the exception it raises)
 * and the state it leaves the serializer in.
 *
 * A copy of a serializer is the same state: children are serialized from a
 * copy of the parent's state, and the copy's later changes are not seen by the
 * parent. In the container branch one copy is made for the whole walk and
 * carries the changes each item leaves in it to the next item.
 */
module Traversal {
  import opened Wrappers
  import opened PhpArray
  import opened Values
  import opened Policy

  /** The four fields of a serializer: configuration and the two caches. */
  datatype Engine = Engine(allow: seq<string>, datetimeFormat: string, visibility: Option<seq<Vis>>, gen: Generator)

  /** The allow-list a serializer gets by default: every visibility. */
  const DefaultAllow: seq<string> := ["public", "private", "protected"]

  /** `DateTimeInterface::ATOM`, the default date/time format. */
  const Atom: string := "Y-m-d\\TH:i:sP"

  /** What one call of `serialize` returns and the state it leaves behind. */
  datatype Step = Step(result: Result<Out, SerializeError>, after: Engine)

  /** Lines 56-58: resolve the visibility checks once, on first use. */
  function Prepare(e: Engine): (r: Result<Engine, SerializeError>)
    ensures r.Ok? ==> r.value.visibility.Some?
    ensures r.Ok? ==> r.value.allow == e.allow && r.value.datetimeFormat == e.datetimeFormat && r.value.gen == e.gen
    ensures e.visibility.Some? ==> r == Ok(e)
    ensures e.visibility.None? ==> (r.Err? <==> ResolveVisibility(e.allow).Err?)
  {
    if e.visibility.Some? then Ok(e)
    else
      match ResolveVisibility(e.allow)
      case Err(err) => Err(err)
      case Ok(checks) => Ok(e.(visibility := Some(checks)))
  }

  /** Lines 83-91: a backed enum gives its value, any other its case name. */
  function EnumOut(v: Value): (r: Result<Out, SerializeError>)
    requires v.Enum?
    ensures r.Ok? <==> v.reflectable
    ensures r.Err? ==> r.error == EnumNotSerializable
    ensures r.Ok? ==> r.value.Scalar?
    ensures r.Ok? && v.backing.Some? ==> r.value.p == v.backing.value
    ensures r.Ok? && v.backing.None? ==> r.value.p == Str(v.name)
  {
    if !v.reflectable then Err(EnumNotSerializable)
    else if v.backing.Some? then Ok(Scalar(v.backing.value))
    else Ok(Scalar(Str(v.name)))
  }

  /** `serialize($model)` on a serializer in state `e`. */
  function Run(e: Engine, v: Value, o: Options): (s: Step)
    requires IsObject(v)
    decreases Size(v)
    ensures s.after.allow == e.allow && s.after.datetimeFormat == e.datetimeFormat
    ensures e.visibility.Some? ==> s.after.visibility == e.visibility
    ensures s.result.Ok? ==> s.after.visibility.Some?
  {
    match Prepare(e)
    case Err(err) => Step(Err(err), e)
    case Ok(e1) =>
      if v.StdObject? then
        Step(Run(e1, Container(v.props), o).result, e1)
      else if v.DateTime? then
        Step(Ok(Scalar(Str(v.format(e1.datetimeFormat)))), e1)
      else if v.Container? then
        Step(MapOf(RunItems(e1, v.items, o, [])), e1)
      else if v.Enum? then
        Step(EnumOut(v), e1)
      else
        var e2 := e1.(gen := DefaultAliasGenerator(v.aliasGenerator, e1.gen));
        Step(MapOf(RunFields(e2, v.fields, o, [])), e2)
  }

  /** An array built by a loop, or the exception that stopped the loop. */
  function MapOf(r: Result<seq<(Key, Out)>, SerializeError>): Result<Out, SerializeError>
  {
    match r
    case Ok(entries) => Ok(Map(entries))
    case Err(e) => Err(e)
  }

  /**
   * Lines 71-80: the rest of a container's entries, walked with the one
   * shared copy `c`, onto the array `acc` built so far.
   */
  function RunItems(c: Engine, items: seq<(Key, Value)>, o: Options, acc: seq<(Key, Out)>): (r: Result<seq<(Key, Out)>, SerializeError>)
    requires c.visibility.Some?
    decreases ItemsSize(items)
    ensures r.Ok? ==> Keys(r.value) == AppendAll(Keys(acc), Keys(items))
  {
    if items == [] then Ok(acc)
    else
      var item := Wrap(items[0].1);
      assert Size(item) == EntrySize(items[0]);
      assert Keys(items)[0] == items[0].0 && Keys(items)[1..] == Keys(items[1..]);
      if IsObject(item) then
        var s := Run(c, item, o);
        match s.result
        case Err(err) => Err(err)
        case Ok(out) => RunItems(s.after, items[1..], o, Put(acc, items[0].0, out))
      else
        RunItems(c, items[1..], o, Put(acc, items[0].0, Scalar(item.p)))
  }

  /** Lines 97-103: the property is initialized and passes the inclusion rule. */
  predicate Included(e: Engine, f: Field, o: Options)
    requires e.visibility.Some?
  {
    f.value.Some? && ShouldBeSerialized(e.visibility.value, f, o)
  }

  /**
   * Lines 105-110: what an included property contributes. A scalar is kept
   * as it is and never fails; an object or array is serialized by a copy of
   * the serializer, whose state afterwards is dropped.
   */
  function FieldOut(e: Engine, f: Field, o: Options): (r: Result<Out, SerializeError>)
    requires e.visibility.Some? && f.value.Some?
    decreases FieldSize(f)
    ensures f.value.value.Prim? ==> r == Ok(Scalar(f.value.value.p))
    ensures !f.value.value.Prim? ==> r == Run(e, Wrap(f.value.value), o).result
  {
    var v := Wrap(f.value.value);
    if IsObject(v) then Run(e, v, o).result else Ok(Scalar(v.p))
  }

  /** Lines 96-111: the rest of an object's properties, onto the array `acc` built so far. */
  function RunFields(e: Engine, fields: seq<Field>, o: Options, acc: seq<(Key, Out)>): (r: Result<seq<(Key, Out)>, SerializeError>)
    requires e.visibility.Some?
    decreases FieldsSize(fields)
    ensures r.Ok? ==> Keys(r.value) == AppendAll(Keys(acc), IncludedNames(e, fields, o))
  {
    if fields == [] then Ok(acc)
    else if !Included(e, fields[0], o) then RunFields(e, fields[1..], o, acc)
    else
      var name := PropertyName(e.gen, fields[0], o.byAlias);
      match FieldOut(e, fields[0], o)
      case Err(err) => Err(err)
      case Ok(out) => RunFields(e, fields[1..], o, Put(acc, StrKey(name), out))
  }

  /** The resolved names of the included properties, in declaration order. */
  function IncludedNames(e: Engine, fields: seq<Field>, o: Options): seq<Key>
    requires e.visibility.Some?
  {
    if fields == [] then []
    else if Included(e, fields[0], o) then [StrKey(PropertyName(e.gen, fields[0], o.byAlias))] + IncludedNames(e, fields[1..], o)
    else IncludedNames(e, fields[1..], o)
  }
}
