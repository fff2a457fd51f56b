/**
 * Some of the repository's integration tests and a few concrete cases of how
 * the serializer's copies share state, restated as lemmas about the model.
 * Attribute-provided behaviour (the "snake" generator, `Alias('my_title')`)
 * enters as a function known only at the names the test uses.
 */
module Scenarios {
  import opened Wrappers
  import opened PhpArray
  import opened Values
  import opened Policy
  import opened Traversal
  import opened Properties

  /** The state of `new Serializer()`: the constructor's default allow-list and format. */
  const Fresh := Engine(DefaultAllow, Atom, None, IdentityGenerator)

  /** A public, attribute-free property holding `v`. */
  function Plain(name: string, v: Value): Field
  {
    Field(name, Some(v), Public, None, None)
  }

  lemma FreshIsUnrestricted()
    ensures Prepare(Fresh) == Ok(Fresh.(visibility := Some([])))
  {
    CollapseLaw(Plain("", Prim(Null)), DefaultOptions);
  }

  /** A first call behaves as a call on the serializer with its checks already resolved. */
  lemma FirstCallAsResolved(e: Engine, v: Value, o: Options)
    requires IsObject(v) && Prepare(e).Ok?
    ensures Run(e, v, o).result == Run(Prepare(e).value, v, o).result
  {
  }

  /** `new Serializer(datetimeFormat: f)` formats a date/time with `f`. */
  lemma DateTimeFormatted(format: string, date: string -> string)
    ensures Run(Fresh.(datetimeFormat := format), DateTime(date), DefaultOptions).result == Ok(Scalar(Str(date(format))))
  {
    FreshIsUnrestricted();
    assert Prepare(Fresh.(datetimeFormat := format)) == Ok(Fresh.(datetimeFormat := format, visibility := Some([])));
  }

  /**
   * A property that was never initialized leaves the output empty. `e` is any
   * serializer whose checks are resolved, such as a default one
   * (`FreshIsUnrestricted`, `FirstCallAsResolved`).
   */
  lemma UninitializedEmpty(e: Engine)
    requires e.visibility.Some?
    ensures Run(e, Obj(None, [Field("hello", None, Private, None, None)]), DefaultOptions).result == Ok(Map([]))
  {
    var f := Field("hello", None, Private, None, None);
    var e2 := e.(gen := DefaultAliasGenerator(None, e.gen));
    UninitializedSkipped(e2, f, [], DefaultOptions, []);
    assert [f] == [f] + [];
  }

  /** Two scalar entries under distinct keys are copied as they are, in order. */
  lemma TwoScalars(c: Engine, k1: Key, p1: Prim, k2: Key, p2: Prim, o: Options)
    requires c.visibility.Some? && k1 != k2
    ensures RunItems(c, [(k1, Prim(p1)), (k2, Prim(p2))], o, []) == Ok([(k1, Scalar(p1)), (k2, Scalar(p2))])
  {
    var items := [(k1, Prim(p1)), (k2, Prim(p2))];
    var acc1 := [(k1, Scalar(p1))];
    assert items[1..] == [(k2, Prim(p2))] && items[1..][1..] == [];
    PutAppends([], k1, Scalar(p1));
    assert [] + acc1 == acc1;
    PutAppends(acc1, k2, Scalar(p2));
    assert acc1 + [(k2, Scalar(p2))] == [(k1, Scalar(p1)), (k2, Scalar(p2))];
    assert RunItems(c, items[1..][1..], o, acc1 + [(k2, Scalar(p2))]) == Ok(acc1 + [(k2, Scalar(p2))]);
    assert RunItems(c, items[1..], o, acc1) == Ok(acc1 + [(k2, Scalar(p2))]);
  }

  /** A `stdClass` with an id and a title gives the array of both, in order. */
  lemma RawObject(e: Engine)
    requires e.visibility.Some?
    ensures Run(e, StdObject([(StrKey("id"), Prim(Int(1))), (StrKey("title"), Prim(Str("My post title")))]), DefaultOptions).result
         == Ok(Map([(StrKey("id"), Scalar(Int(1))), (StrKey("title"), Scalar(Str("My post title")))]))
  {
    assert StrKey("id") != StrKey("title") by {
      assert "id"[0] != "title"[0];
    }
    TwoScalars(e, StrKey("id"), Int(1), StrKey("title"), Str("My post title"), DefaultOptions);
  }

  /** Two valid tokens resolve to their two checks, in order. */
  lemma TwoValid(allow: seq<string>)
    requires |allow| == 2 && ParseVisibility(allow[0]).Some? && ParseVisibility(allow[1]).Some?
    ensures ResolveVisibility(allow) == Ok([ParseVisibility(allow[0]).value, ParseVisibility(allow[1]).value])
  {
    forall i | 0 <= i < |allow| ensures ParseVisibility(allow[i]).Some? {
      if i == 0 {
      } else {
      }
    }
    ResolveTokensMeaning(allow);
    var checks := ResolveTokens(allow).value;
    assert checks == [checks[0], checks[1]];
  }

  /** A valid token followed by an invalid one: the invalid one is reported, lower-cased. */
  lemma SecondInvalid(allow: seq<string>)
    requires |allow| == 2 && ParseVisibility(allow[0]).Some? && ParseVisibility(allow[1]).None?
    ensures ResolveVisibility(allow) == Err(InvalidVisibility(Lower(allow[1])))
  {
    ResolveTokensMeaning(allow);
    var i :| 0 <= i < |allow| && FirstInvalid(allow, i) && ResolveTokens(allow).error == InvalidVisibility(Lower(allow[i]));
    assert i != 0;
  }

  /** One property of a literal property list. */
  lemma FieldsStep(e: Engine, f: Field, rest: seq<Field>, o: Options, acc: seq<(Key, Out)>)
    requires e.visibility.Some?
    ensures RunFields(e, [f] + rest, o, acc) ==
      if !Included(e, f, o) then RunFields(e, rest, o, acc)
      else if FieldOut(e, f, o).Err? then Err(FieldOut(e, f, o).error)
      else RunFields(e, rest, o, Put(acc, StrKey(PropertyName(e.gen, f, o.byAlias)), FieldOut(e, f, o).value))
  {
    assert ([f] + rest)[0] == f && ([f] + rest)[1..] == rest;
  }

  /** One entry of a literal container. */
  lemma ItemsStep(c: Engine, k: Key, v: Value, rest: seq<(Key, Value)>, o: Options, acc: seq<(Key, Out)>)
    requires c.visibility.Some? && IsObject(v)
    ensures RunItems(c, [(k, v)] + rest, o, acc) ==
      if Run(c, v, o).result.Err? then Err(Run(c, v, o).result.error)
      else RunItems(Run(c, v, o).after, rest, o, Put(acc, k, Run(c, v, o).result.value))
  {
    assert ([(k, v)] + rest)[0] == (k, v) && ([(k, v)] + rest)[1..] == rest;
  }

  /** The post of the nested test: the ignored id is dropped, the title aliased. */
  lemma PostOutput(e: Engine, myTitle: Generator)
    requires e.visibility == Some([]) && myTitle("title") == "my_title"
    ensures
      var post := Obj(None, [
        Field("myPostId", Some(Prim(Int(1))), Public, Some(Ignore(serialization := true, validation := false)), None),
        Field("title", Some(Prim(Str("My post title"))), Public, None, Some(myTitle))]);
      Run(e, post, DefaultOptions) == Step(Ok(Map([(StrKey("my_title"), Scalar(Str("My post title")))])), e)
  {
    var o := DefaultOptions;
    var idField := Field("myPostId", Some(Prim(Int(1))), Public, Some(Ignore(serialization := true, validation := false)), None);
    var titleField := Field("title", Some(Prim(Str("My post title"))), Public, None, Some(myTitle));
    FieldsStep(e, idField, [titleField], o, []);
    FieldsStep(e, titleField, [], o, []);
    assert [idField, titleField] == [idField] + [titleField];
    assert [titleField] == [titleField] + [];
  }

  /** A one-property object whose property holds an object. */
  lemma SingleFieldOutput(e: Engine, name: string, child: Value, childOut: Out)
    requires e.visibility == Some([]) && IsObject(child)
    requires Run(e, child, DefaultOptions).result == Ok(childOut)
    ensures Run(e, Obj(None, [Plain(name, child)]), DefaultOptions).result == Ok(Map([(StrKey(e.gen(name)), childOut)]))
  {
    FieldsStep(e, Plain(name, child), [], DefaultOptions, []);
    assert [Plain(name, child)] == [Plain(name, child)] + [];
  }

  /** The user's two properties: the profile object, then a string. */
  lemma UserFields(e: Engine, profile: Value, profileOut: Out)
    requires e.visibility == Some([]) && IsObject(profile)
    requires e.gen("profile") == "profile" && e.gen("fullName") == "full_name"
    requires Run(e, profile, DefaultOptions).result == Ok(profileOut)
    ensures RunFields(e, [Plain("profile", profile), Plain("fullName", Prim(Str("Andre Gil")))], DefaultOptions, [])
         == Ok([(StrKey("profile"), profileOut), (StrKey("full_name"), Scalar(Str("Andre Gil")))])
  {
    var o := DefaultOptions;
    var first := Plain("profile", profile);
    var full := Plain("fullName", Prim(Str("Andre Gil")));
    FieldsStep(e, first, [full], o, []);
    FieldsStep(e, full, [], o, [(StrKey("profile"), profileOut)]);
    assert [first, full] == [first] + [full];
    assert [full] == [full] + [];
    assert FieldOut(e, first, o) == Ok(profileOut);
    PutAppends([(StrKey("profile"), profileOut)], StrKey("full_name"), Scalar(Str("Andre Gil")));
    assert [(StrKey("profile"), profileOut)] + [(StrKey("full_name"), Scalar(Str("Andre Gil")))]
        == [(StrKey("profile"), profileOut), (StrKey("full_name"), Scalar(Str("Andre Gil")))];
  }

  /**
   * `User` (class generator "snake") holds a `Profile` holding a `Post`: the
   * post's id is ignored, its title is aliased, and the profile, which has no
   * generator of its own, names `myPost` with the user's generator. `e` is
   * any serializer whose checks resolved to "unrestricted", such as a default
   * one after its first call (`FreshIsUnrestricted`).
   */
  lemma NestedOptions(e: Engine, snake: Generator, myTitle: Generator)
    requires e.visibility == Some([])
    requires snake("profile") == "profile" && snake("myPost") == "my_post" && snake("fullName") == "full_name"
    requires myTitle("title") == "my_title"
    ensures
      var post := Obj(None, [
        Field("myPostId", Some(Prim(Int(1))), Public, Some(Ignore(serialization := true, validation := false)), None),
        Field("title", Some(Prim(Str("My post title"))), Public, None, Some(myTitle))]);
      var profile := Obj(None, [Plain("myPost", post)]);
      var user := Obj(Some(snake), [Plain("profile", profile), Plain("fullName", Prim(Str("Andre Gil")))]);
      Run(e, user, DefaultOptions).result == Ok(Map([
        (StrKey("profile"), Map([(StrKey("my_post"), Map([(StrKey("my_title"), Scalar(Str("My post title")))]))])),
        (StrKey("full_name"), Scalar(Str("Andre Gil")))]))
  {
    var e2 := e.(gen := snake);
    var post := Obj(None, [
      Field("myPostId", Some(Prim(Int(1))), Public, Some(Ignore(serialization := true, validation := false)), None),
      Field("title", Some(Prim(Str("My post title"))), Public, None, Some(myTitle))]);
    var postOut := Map([(StrKey("my_title"), Scalar(Str("My post title")))]);
    PostOutput(e2, myTitle);
    var profile := Obj(None, [Plain("myPost", post)]);
    SingleFieldOutput(e2, "myPost", post, postOut);
    UserFields(e2, profile, Map([(StrKey("my_post"), postOut)]));
  }

  /**
   * One copy serves every item of a container, so a generator picked up from
   * one item's class names the fields of a later item whose class has none.
   */
  lemma ContainerItemsShareGenerator(e: Engine, g: Generator)
    requires e.visibility == Some([])
    ensures
      var later := Obj(None, [Plain("a", Prim(Int(1)))]);
      Run(e, Container([(IntKey(0), Obj(Some(g), [])), (IntKey(1), later)]), DefaultOptions).result
        == Ok(Map([(IntKey(0), Map([])), (IntKey(1), Map([(StrKey(g("a")), Scalar(Int(1)))]))]))
  {
    var o := DefaultOptions;
    var first := Obj(Some(g), []);
    var later := Obj(None, [Plain("a", Prim(Int(1)))]);
    var c := e.(gen := g);
    assert Run(e, first, o) == Step(Ok(Map([])), c);
    FieldsStep(c, Plain("a", Prim(Int(1))), [], o, []);
    assert [Plain("a", Prim(Int(1)))] == [Plain("a", Prim(Int(1)))] + [];
    assert Run(c, later, o).result == Ok(Map([(StrKey(g("a")), Scalar(Int(1)))]));
    var laterOut := Map([(StrKey(g("a")), Scalar(Int(1)))]);
    ItemsStep(e, IntKey(0), first, [(IntKey(1), later)], o, []);
    ItemsStep(c, IntKey(1), later, [], o, [(IntKey(0), Map([]))]);
    assert [(IntKey(0), first), (IntKey(1), later)] == [(IntKey(0), first)] + [(IntKey(1), later)];
    assert [(IntKey(1), later)] == [(IntKey(1), later)] + [];
    PutAppends([(IntKey(0), Map([]))], IntKey(1), laterOut);
    assert [(IntKey(0), Map([]))] + [(IntKey(1), laterOut)] == [(IntKey(0), Map([])), (IntKey(1), laterOut)];
    assert RunItems(e, [(IntKey(0), first), (IntKey(1), later)], o, []) == Ok([(IntKey(0), Map([])), (IntKey(1), laterOut)]);
  }

  /**
   * The serializer a caller holds keeps the generator of the last class it
   * walked, so a later call on it names the fields of a class without a
   * generator of its own with that one.
   */
  lemma LaterCallSeesEarlierGenerator(e: Engine, g: Generator)
    requires e.visibility == Some([])
    ensures
      var later := Obj(None, [Plain("a", Prim(Int(1)))]);
      var e1 := Run(e, Obj(Some(g), []), DefaultOptions).after;
      Run(e1, later, DefaultOptions).result == Ok(Map([(StrKey(g("a")), Scalar(Int(1)))]))
  {
    var o := DefaultOptions;
    var c := e.(gen := g);
    assert Run(e, Obj(Some(g), []), o).after == c;
    FieldsStep(c, Plain("a", Prim(Int(1))), [], o, []);
    assert [Plain("a", Prim(Int(1)))] == [Plain("a", Prim(Int(1)))] + [];
  }

  /**
   * Each property of an object is serialized by its own copy, so a
   * generator picked up by one property's value does not reach its siblings.
   */
  lemma SiblingFieldsIsolated(e: Engine, g: Generator)
    requires e.visibility == Some([]) && e.gen == IdentityGenerator
    ensures
      var later := Obj(None, [Plain("a", Prim(Int(1)))]);
      Run(e, Obj(None, [Plain("first", Obj(Some(g), [])), Plain("second", later)]), DefaultOptions).result
        == Ok(Map([(StrKey("first"), Map([])), (StrKey("second"), Map([(StrKey("a"), Scalar(Int(1)))]))]))
  {
    var o := DefaultOptions;
    var first := Plain("first", Obj(Some(g), []));
    var later := Obj(None, [Plain("a", Prim(Int(1)))]);
    var second := Plain("second", later);
    assert Run(e, Obj(Some(g), []), o).result == Ok(Map([]));
    FieldsStep(e, Plain("a", Prim(Int(1))), [], o, []);
    assert [Plain("a", Prim(Int(1)))] == [Plain("a", Prim(Int(1)))] + [];
    assert Run(e, later, o).result == Ok(Map([(StrKey("a"), Scalar(Int(1)))]));
    var laterOut := Map([(StrKey("a"), Scalar(Int(1)))]);
    FieldsStep(e, first, [second], o, []);
    FieldsStep(e, second, [], o, [(StrKey("first"), Map([]))]);
    assert [first, second] == [first] + [second];
    assert [second] == [second] + [];
    assert Included(e, first, o) && Included(e, second, o);
    assert FieldOut(e, first, o) == Ok(Map([]));
    assert FieldOut(e, second, o) == Ok(laterOut);
    PutAppends([(StrKey("first"), Map([]))], StrKey("second"), laterOut);
    assert [(StrKey("first"), Map([]))] + [(StrKey("second"), laterOut)] == [(StrKey("first"), Map([])), (StrKey("second"), laterOut)];
    assert e.(gen := DefaultAliasGenerator(None, e.gen)) == e;
    assert RunFields(e, [first, second], o, []) == Ok([(StrKey("first"), Map([])), (StrKey("second"), laterOut)]);
  }

  /** A plain string property whose visibility is checked is kept under its own name. */
  lemma StringField(e: Engine, n: string, vis: Vis, o: Options)
    requires e.visibility.Some? && vis in e.visibility.value && e.gen == IdentityGenerator && o == DefaultOptions
    ensures Included(e, Field(n, Some(Prim(Str(n))), vis, None, None), o)
    ensures FieldOut(e, Field(n, Some(Prim(Str(n))), vis, None, None), o) == Ok(Scalar(Str(n)))
    ensures PropertyName(e.gen, Field(n, Some(Prim(Str(n))), vis, None, None), o.byAlias) == n
  {
  }

  /** Under the checks public and private, of one property per visibility only the protected one is left out. */
  lemma PublicAndPrivateFields(e: Engine)
    requires e.visibility == Some([Public, Private]) && e.gen == IdentityGenerator
    ensures
      var model := Obj(None, [
        Field("public", Some(Prim(Str("public"))), Public, None, None),
        Field("private", Some(Prim(Str("private"))), Private, None, None),
        Field("protected", Some(Prim(Str("protected"))), Protected, None, None)]);
      Run(e, model, DefaultOptions).result
        == Ok(Map([(StrKey("public"), Scalar(Str("public"))), (StrKey("private"), Scalar(Str("private")))]))
  {
    var o := DefaultOptions;
    var pub := Field("public", Some(Prim(Str("public"))), Public, None, None);
    var priv := Field("private", Some(Prim(Str("private"))), Private, None, None);
    var prot := Field("protected", Some(Prim(Str("protected"))), Protected, None, None);
    StringField(e, "public", Public, o);
    StringField(e, "private", Private, o);
    assert !Included(e, prot, o);
    KeepTwoDropThird(e, pub, priv, prot, o);
    assert e.(gen := DefaultAliasGenerator(None, e.gen)) == e;
  }

  /** Of three properties, two kept under distinct names and one left out, the array holds the two in order. */
  lemma KeepTwoDropThird(e: Engine, f1: Field, f2: Field, f3: Field, o: Options)
    requires e.visibility.Some?
    requires Included(e, f1, o) && Included(e, f2, o) && !Included(e, f3, o)
    requires FieldOut(e, f1, o).Ok? && FieldOut(e, f2, o).Ok?
    requires PropertyName(e.gen, f1, o.byAlias) != PropertyName(e.gen, f2, o.byAlias)
    ensures RunFields(e, [f1, f2, f3], o, []) == Ok([
      (StrKey(PropertyName(e.gen, f1, o.byAlias)), FieldOut(e, f1, o).value),
      (StrKey(PropertyName(e.gen, f2, o.byAlias)), FieldOut(e, f2, o).value)])
  {
    var acc1 := [(StrKey(PropertyName(e.gen, f1, o.byAlias)), FieldOut(e, f1, o).value)];
    var acc2 := acc1 + [(StrKey(PropertyName(e.gen, f2, o.byAlias)), FieldOut(e, f2, o).value)];
    PutAppends([], StrKey(PropertyName(e.gen, f1, o.byAlias)), FieldOut(e, f1, o).value);
    assert [] + acc1 == acc1;
    FieldsStep(e, f1, [f2, f3], o, []);
    FieldsStep(e, f2, [f3], o, acc1);
    FieldsStep(e, f3, [], o, acc2);
    assert [f1, f2, f3] == [f1] + [f2, f3];
    assert [f2, f3] == [f2] + [f3];
    assert [f3] == [f3] + [];
    PutAppends(acc1, StrKey(PropertyName(e.gen, f2, o.byAlias)), FieldOut(e, f2, o).value);
    assert RunFields(e, [f3], o, acc2) == Ok(acc2);
    assert RunFields(e, [f2, f3], o, acc1) == Ok(acc2);
    assert RunFields(e, [f1, f2, f3], o, []) == Ok(acc2);
    assert acc2 == [acc1[0], acc2[1]];
  }

  /** `allow = [public, private]` resolves to those two checks, in that order. */
  lemma PublicAndPrivateOnly()
    ensures ResolveVisibility(["public", "private"]) == Ok([Public, Private])
  {
    ParseNames();
    TwoValid(["public", "private"]);
  }

  /** "Bogus" names no visibility; lower-cased it reads "bogus". */
  lemma BogusInvalid()
    ensures Lower("Bogus") == "bogus" && ParseVisibility("Bogus") == None
  {
  }

  /** The object the invalid-visibility test serializes: one public string property. */
  const ValueObject := Obj(None, [Plain("value", Prim(Str("value")))])

  /** `new Serializer(allow: ['public', t])`: the first call raises the error naming `t` lower-cased. */
  lemma SecondTokenRaises(t: string)
    requires ParseVisibility(t).None?
    ensures Run(Engine(["public", t], Atom, None, IdentityGenerator), ValueObject, DefaultOptions).result
         == Err(InvalidVisibility(Lower(t)))
  {
    ParsePublic();
    SecondInvalid(["public", t]);
    InvalidAllowFailsFirstCall(Engine(["public", t], Atom, None, IdentityGenerator), ValueObject, DefaultOptions);
  }

  /** A mixed-case unknown token is reported lower-cased. */
  lemma MixedCaseTokenReported()
    ensures Run(Engine(["public", "Bogus"], Atom, None, IdentityGenerator), ValueObject, DefaultOptions).result
         == Err(InvalidVisibility("bogus"))
  {
    BogusInvalid();
    SecondTokenRaises("Bogus");
  }

  lemma InvalidWord()
    ensures Lower("invalid") == "invalid" && ParseVisibility("invalid") == None
  {
    LowerFixed("invalid");
  }

  lemma IntegerText()
    ensures Lower("123") == "123" && ParseVisibility("123") == None
  {
    LowerFixed("123");
  }

  lemma EmptyText()
    ensures Lower("") == "" && ParseVisibility("") == None
  {
  }

  lemma FloatText()
    ensures Lower("9.1") == "9.1" && ParseVisibility("9.1") == None
  {
    LowerFixed("9.1");
  }

  /**
   * The values the invalid-visibility test puts second in the allow-list,
   * as `(string)` casts them: 'invalid', 123, false and null (both ""), 9.1.
   * Each makes the first call raise the error naming it.
   */
  lemma UnknownTokenRaises()
    ensures Run(Engine(["public", "invalid"], Atom, None, IdentityGenerator), ValueObject, DefaultOptions).result == Err(InvalidVisibility("invalid"))
    ensures Run(Engine(["public", "123"], Atom, None, IdentityGenerator), ValueObject, DefaultOptions).result == Err(InvalidVisibility("123"))
    ensures Run(Engine(["public", ""], Atom, None, IdentityGenerator), ValueObject, DefaultOptions).result == Err(InvalidVisibility(""))
    ensures Run(Engine(["public", "9.1"], Atom, None, IdentityGenerator), ValueObject, DefaultOptions).result == Err(InvalidVisibility("9.1"))
  {
    InvalidWord();
    SecondTokenRaises("invalid");
    IntegerText();
    SecondTokenRaises("123");
    EmptyText();
    SecondTokenRaises("");
    FloatText();
    SecondTokenRaises("9.1");
  }

  /**
   * The collapse counts checks instead of comparing them: three tokens that
   * all say "public" collapse to "unrestricted" and let a private property
   * through.
   */
  lemma ThreeEqualTokensCollapse()
    ensures ResolveVisibility(["public", "public", "public"]) == Ok([])
    ensures ShouldBeSerialized([], Field("secret", Some(Prim(Int(1))), Private, None, None), DefaultOptions)
  {
    ParseNames();
    CountCollapse(["public", "public", "public"]);
  }

  /** Enums: a pure case gives its name, a backed case its value. */
  lemma EnumValues(e: Engine)
    requires e.visibility.Some?
    ensures Run(e, Enum("ADMIN", None, true), DefaultOptions).result == Ok(Scalar(Str("ADMIN")))
    ensures Run(e, Enum("GUEST", Some(Int(1)), true), DefaultOptions).result == Ok(Scalar(Int(1)))
    ensures Run(e, Enum("ADMIN", Some(Str("admin")), true), DefaultOptions).result == Ok(Scalar(Str("admin")))
  {
  }

  /**
   * Serializing for validation keeps a property whose `Ignore` spares
   * validation and drops one whose `Ignore` does not.
   */
  lemma ValidationProperties(e: Engine)
    requires e.visibility == Some([]) && e.gen == IdentityGenerator
    ensures
      var o := DefaultOptions.(useValidation := true);
      var model := Obj(None, [
        Field("validation", Some(Prim(Str("validation"))), Public, Some(Ignore(serialization := true, validation := false)), None),
        Field("serialization", Some(Prim(Str("serialization"))), Public, Some(Ignore(serialization := false, validation := true)), None)]);
      Run(e, model, o).result == Ok(Map([(StrKey("validation"), Scalar(Str("validation")))]))
  {
    var o := DefaultOptions.(useValidation := true);
    var val := Field("validation", Some(Prim(Str("validation"))), Public, Some(Ignore(serialization := true, validation := false)), None);
    var ser := Field("serialization", Some(Prim(Str("serialization"))), Public, Some(Ignore(serialization := false, validation := true)), None);
    FieldsStep(e, val, [ser], o, []);
    FieldsStep(e, ser, [], o, [(StrKey("validation"), Scalar(Str("validation")))]);
    assert [val, ser] == [val] + [ser];
    assert [ser] == [ser] + [];
    assert !Included(e, ser, o);
  }

  /** With `byAlias = false` neither the class generator nor an explicit alias is used. */
  lemma WithoutAlias(e: Engine, snake: Generator, random: Generator)
    requires e.visibility == Some([])
    ensures
      var o := DefaultOptions.(byAlias := false);
      var model := Obj(Some(snake), [
        Field("camelCase", Some(Prim(Str("camelCase"))), Public, None, Some(random)),
        Plain("secondCamelCase", Prim(Str("secondCamelCase")))]);
      Run(e, model, o).result
        == Ok(Map([(StrKey("camelCase"), Scalar(Str("camelCase"))), (StrKey("secondCamelCase"), Scalar(Str("secondCamelCase")))]))
  {
    var o := DefaultOptions.(byAlias := false);
    var e2 := e.(gen := snake);
    var first := Field("camelCase", Some(Prim(Str("camelCase"))), Public, None, Some(random));
    var second := Plain("secondCamelCase", Prim(Str("secondCamelCase")));
    FieldsStep(e2, first, [second], o, []);
    FieldsStep(e2, second, [], o, [(StrKey("camelCase"), Scalar(Str("camelCase")))]);
    assert [first, second] == [first] + [second];
    assert [second] == [second] + [];
    assert Included(e2, first, o) && Included(e2, second, o);
    assert FieldOut(e2, first, o) == Ok(Scalar(Str("camelCase")));
    assert FieldOut(e2, second, o) == Ok(Scalar(Str("secondCamelCase")));
    assert RunFields(e2, [first, second], o, []) == RunFields(e2, [second], o, [(StrKey("camelCase"), Scalar(Str("camelCase")))]);
    PutAppends([(StrKey("camelCase"), Scalar(Str("camelCase")))], StrKey("secondCamelCase"), Scalar(Str("secondCamelCase")));
    assert [(StrKey("camelCase"), Scalar(Str("camelCase")))] + [(StrKey("secondCamelCase"), Scalar(Str("secondCamelCase")))]
        == [(StrKey("camelCase"), Scalar(Str("camelCase"))), (StrKey("secondCamelCase"), Scalar(Str("secondCamelCase")))];
    assert RunFields(e2, [second], o, [(StrKey("camelCase"), Scalar(Str("camelCase")))])
        == Ok([(StrKey("camelCase"), Scalar(Str("camelCase"))), (StrKey("secondCamelCase"), Scalar(Str("secondCamelCase")))]);
  }
}
