/**
 * The serializer object itself: its four fields, the methods that set them,
 * the copy it makes of itself, and the recursive `serialize` walk, each
 * proved to do what the functional description in module Traversal says.
 */
module Serialization {
  import opened Wrappers
  import opened PhpArray
  import opened Values
  import opened Policy
  import opened Traversal

  class Serializer {
    var allVisibilityMethods: Option<seq<Vis>>
    var allow: seq<string>
    var datetimeFormat: string
    var defaultAliasGenerator: Generator

    /** The serializer's state as a value. */
    function Snapshot(): Engine
      reads this
    {
      Engine(allow, datetimeFormat, allVisibilityMethods, defaultAliasGenerator)
    }

    /** The allow-list is stored unchecked; it is validated on the first `Serialize`. */
    constructor (allow: seq<string> := DefaultAllow, datetimeFormat: string := Atom)
      ensures Snapshot() == Engine(allow, datetimeFormat, None, IdentityGenerator)
    {
      this.allow := allow;
      this.datetimeFormat := datetimeFormat;
      this.allVisibilityMethods := None;
      this.defaultAliasGenerator := IdentityGenerator;
    }

    method SetVisibilityMethods(visibilityMethods: seq<Vis>)
      modifies this
      ensures Snapshot() == old(Snapshot()).(visibility := Some(visibilityMethods))
    {
      allVisibilityMethods := Some(visibilityMethods);
    }

    method SetDefaultAliasGenerator(generator: Generator)
      modifies this
      ensures Snapshot() == old(Snapshot()).(gen := generator)
    {
      defaultAliasGenerator := generator;
    }

    /**
     * A new serializer with this one's allow-list, format and both caches.
     * The visibility checks must already be resolved (the parameter of
     * `setVisibilityMethods` is a non-null array).
     */
    method Clone() returns (c: Serializer)
      requires allVisibilityMethods.Some?
      ensures fresh(c)
      ensures c.Snapshot() == Snapshot()
    {
      c := new Serializer(allow, datetimeFormat);
      c.SetVisibilityMethods(allVisibilityMethods.value);
      c.SetDefaultAliasGenerator(defaultAliasGenerator);
    }

    /**
     * `getAllVisibilityMethods`: lower-cases each allow-list token and looks
     * it up, failing on the first unknown token; as many checks as there are
     * valid visibilities collapse to none.
     */
    method GetAllVisibilityMethods() returns (r: Result<seq<Vis>, SerializeError>)
      ensures r == ResolveVisibility(allow)
    {
      var allVisibilities: seq<Vis> := [];
      for i := 0 to |allow|
        invariant ResolveTokens(allow[..i]) == Ok(allVisibilities)
      {
        var visibility := Lower(allow[i]);
        ResolveTokensStep(allow, i, allVisibilities);
        if visibility !in ValidVisibilities {
          ResolveTokensStops(allow, i + 1);
          return Err(InvalidVisibility(visibility));
        }
        allVisibilities := allVisibilities + [ValidVisibilities[visibility]];
      }
      assert allow[..|allow|] == allow;
      ResolveVisibilityOf(allow, allVisibilities);
      ValidVisibilitiesCount();
      if |allVisibilities| == |ValidVisibilities| {
        return Ok([]);
      }
      return Ok(allVisibilities);
    }

    /** `serialize`: converts an object into primitives. */
    method Serialize(model: Value, o: Options := DefaultOptions) returns (r: Result<Out, SerializeError>)
      requires IsObject(model)
      modifies this
      decreases Size(model)
      ensures r == Run(old(Snapshot()), model, o).result
      ensures Snapshot() == Run(old(Snapshot()), model, o).after
    {
      if allVisibilityMethods.None? {
        var methods := GetAllVisibilityMethods();
        if methods.Err? {
          return Err(methods.error);
        }
        allVisibilityMethods := Some(methods.value);
      }
      ghost var e1 := Snapshot();
      assert Prepare(old(Snapshot())) == Ok(e1);

      if model.StdObject? {
        var c := Clone();
        r := c.Serialize(Container(model.props), o);
        return;
      }

      if model.DateTime? {
        return Ok(Scalar(Str(model.format(datetimeFormat))));
      }

      if model.Container? {
        var allValues: seq<(Key, Out)> := [];
        var c := Clone();
        for i := 0 to |model.items|
          invariant Snapshot() == e1
          invariant c.allVisibilityMethods.Some?
          invariant RunItems(e1, model.items, o, []) == RunItems(c.Snapshot(), model.items[i..], o, allValues)
        {
          var item := Wrap(model.items[i].1);
          assert model.items[i..][1..] == model.items[i + 1..];
          if IsObject(item) {
            ItemSmaller(model.items, i);
            var out := c.Serialize(item, o);
            if out.Err? {
              return Err(out.error);
            }
            allValues := Put(allValues, model.items[i].0, out.value);
          } else {
            allValues := Put(allValues, model.items[i].0, Scalar(item.p));
          }
        }
        return Ok(Map(allValues));
      }

      if model.Enum? {
        if !model.reflectable {
          return Err(EnumNotSerializable);
        }
        return Ok(Scalar(if model.backing.Some? then model.backing.value else Str(model.name)));
      }

      var data: seq<(Key, Out)> := [];
      defaultAliasGenerator := DefaultAliasGenerator(model.aliasGenerator, defaultAliasGenerator);
      ghost var e2 := Snapshot();
      for i := 0 to |model.fields|
        invariant Snapshot() == e2
        invariant RunFields(e2, model.fields, o, []) == RunFields(e2, model.fields[i..], o, data)
      {
        var property := model.fields[i];
        assert model.fields[i..][1..] == model.fields[i + 1..];
        if property.value.None? {
          continue;
        }
        if !ShouldBeSerialized(allVisibilityMethods.value, property, o) {
          continue;
        }
        var value := Wrap(property.value.value);
        var name := PropertyName(defaultAliasGenerator, property, o.byAlias);
        if IsObject(value) {
          var c := Clone();
          FieldSmaller(model.fields, i);
          var out := c.Serialize(value, o);
          if out.Err? {
            return Err(out.error);
          }
          data := Put(data, StrKey(name), out.value);
        } else {
          data := Put(data, StrKey(name), Scalar(value.p));
        }
      }
      return Ok(Map(data));
    }
  }
}
