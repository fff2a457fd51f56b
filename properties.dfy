/**
 * What one call of `serialize` promises, proved about its functional
 * description in module Traversal.
 */
module Properties {
  import opened Wrappers
  import opened PhpArray
  import opened Values
  import opened Policy
  import opened Traversal

  // ---------------------------------------------------------------------------
  // Lazy validation of the allow-list

  /**
   * An invalid allow-list is only noticed by the first `serialize`: whatever
   * the value, that call raises the exception naming the first bad token and
   * leaves the serializer as it was.
   */
  lemma InvalidAllowFailsFirstCall(e: Engine, v: Value, o: Options)
    requires IsObject(v) && e.visibility.None? && ResolveVisibility(e.allow).Err?
    ensures Run(e, v, o).result == Err(ResolveVisibility(e.allow).error)
    ensures Run(e, v, o).after == e
    ensures exists i :: 0 <= i < |e.allow| && FirstInvalid(e.allow, i) && Run(e, v, o).result.error == InvalidVisibility(Lower(e.allow[i]))
  {
    ResolveTokensMeaning(e.allow);
  }

  /** A valid allow-list is resolved on the first call and the result is kept. */
  lemma VisibilityCachedAfterFirstCall(e: Engine, v: Value, o: Options)
    requires IsObject(v) && e.visibility.None? && ResolveVisibility(e.allow).Ok?
    ensures Run(e, v, o).after.visibility == Some(ResolveVisibility(e.allow).value)
  {
  }

  /** The result of a call that raised nothing, or only the enum exception. */
  predicate NoVisibilityError<T>(r: Result<T, SerializeError>)
  {
    r.Err? ==> r.error == EnumNotSerializable
  }

  /**
   * Once the visibility checks are cached they are never recomputed, so no
   * call, and no nested call, can raise the allow-list exception again.
   */
  lemma {:induction false} CachedRunRaisesOnlyEnumErrors(e: Engine, v: Value, o: Options)
    requires IsObject(v) && e.visibility.Some?
    ensures NoVisibilityError(Run(e, v, o).result)
    ensures Run(e, v, o).after.visibility == e.visibility
    decreases Size(v)
  {
    if v.StdObject? {
      CachedRunRaisesOnlyEnumErrors(e, Container(v.props), o);
    } else if v.Container? {
      ItemsRaiseOnlyEnumErrors(e, v.items, o, []);
    } else if v.Obj? {
      FieldsRaiseOnlyEnumErrors(e.(gen := DefaultAliasGenerator(v.aliasGenerator, e.gen)), v.fields, o, []);
    }
  }

  lemma {:induction false} ItemsRaiseOnlyEnumErrors(c: Engine, items: seq<(Key, Value)>, o: Options, acc: seq<(Key, Out)>)
    requires c.visibility.Some?
    ensures NoVisibilityError(RunItems(c, items, o, acc))
    decreases ItemsSize(items)
  {
    if items != [] {
      var item := Wrap(items[0].1);
      assert Size(item) == EntrySize(items[0]);
      if IsObject(item) {
        CachedRunRaisesOnlyEnumErrors(c, item, o);
        var s := Run(c, item, o);
        if s.result.Ok? {
          ItemsRaiseOnlyEnumErrors(s.after, items[1..], o, Put(acc, items[0].0, s.result.value));
        }
      } else {
        ItemsRaiseOnlyEnumErrors(c, items[1..], o, Put(acc, items[0].0, Scalar(item.p)));
      }
    }
  }

  lemma {:induction false} FieldsRaiseOnlyEnumErrors(e: Engine, fields: seq<Field>, o: Options, acc: seq<(Key, Out)>)
    requires e.visibility.Some?
    ensures NoVisibilityError(RunFields(e, fields, o, acc))
    decreases FieldsSize(fields)
  {
    if fields != [] {
      if !Included(e, fields[0], o) {
        FieldsRaiseOnlyEnumErrors(e, fields[1..], o, acc);
      } else {
        var v := Wrap(fields[0].value.value);
        FieldSmaller(fields, 0);
        if IsObject(v) {
          CachedRunRaisesOnlyEnumErrors(e, v, o);
        }
        var out := FieldOut(e, fields[0], o);
        if out.Ok? {
          FieldsRaiseOnlyEnumErrors(e, fields[1..], o, Put(acc, StrKey(PropertyName(e.gen, fields[0], o.byAlias)), out.value));
        }
      }
    }
  }

  // ---------------------------------------------------------------------------
  // Dispatch

  /**
   * First match wins: a date/time is formatted with the configured format; an
   * enum gives its backing value, else its case name, unless reflection on it
   * fails; a `stdClass` is walked as a container of its properties by a copy.
   */
  lemma Dispatch(e: Engine, v: Value, o: Options)
    requires IsObject(v) && Prepare(e).Ok?
    ensures v.DateTime? ==> Run(e, v, o).result == Ok(Scalar(Str(v.format(e.datetimeFormat))))
    ensures v.Enum? && v.reflectable && v.backing.Some? ==> Run(e, v, o).result == Ok(Scalar(v.backing.value))
    ensures v.Enum? && v.reflectable && v.backing.None? ==> Run(e, v, o).result == Ok(Scalar(Str(v.name)))
    ensures v.Enum? && !v.reflectable ==> Run(e, v, o).result == Err(EnumNotSerializable)
    ensures v.StdObject? ==> Run(e, v, o).result == Run(Prepare(e).value, Container(v.props), o).result
    ensures v.Container? ==> Run(e, v, o).result == MapOf(RunItems(Prepare(e).value, v.items, o, []))
  {
  }

  /**
   * The only state a call leaves behind besides the visibility cache: an
   * object's walk replaces the held generator with its class's generator, if
   * the class declares one; no other value changes it.
   */
  lemma RunLeavesGenerator(e: Engine, v: Value, o: Options)
    requires IsObject(v) && Prepare(e).Ok?
    ensures Run(e, v, o).after == Prepare(e).value.(gen := Run(e, v, o).after.gen)
    ensures v.Obj? && v.aliasGenerator.Some? ==> Run(e, v, o).after.gen == v.aliasGenerator.value
    ensures !(v.Obj? && v.aliasGenerator.Some?) ==> Run(e, v, o).after.gen == e.gen
  {
  }

  // ---------------------------------------------------------------------------
  // Shape of the output

  /** Every array in the output, at any depth, has each key once. */
  predicate WellFormed(out: Out)
    decreases out
  {
    match out
    case Scalar(_) => true
    case Map(entries) => EntriesWellFormed(entries)
  }

  predicate EntriesWellFormed(entries: seq<(Key, Out)>)
    decreases entries
  {
    Unique(Keys(entries)) && forall entry :: entry in entries ==> EntryWellFormed(entry)
  }

  predicate EntryWellFormed(entry: (Key, Out))
    decreases entry
  {
    WellFormed(entry.1)
  }

  lemma PutWellFormed(m: seq<(Key, Out)>, k: Key, v: Out)
    requires EntriesWellFormed(m) && WellFormed(v)
    ensures EntriesWellFormed(Put(m, k, v))
  {
    AppendNewKeepsUnique(Keys(m), k);
  }

  /** A call that succeeds returns an output whose arrays never repeat a key. */
  lemma {:induction false} RunWellFormed(e: Engine, v: Value, o: Options)
    requires IsObject(v) && Run(e, v, o).result.Ok?
    ensures WellFormed(Run(e, v, o).result.value)
    decreases Size(v)
  {
    var e1 := Prepare(e).value;
    if v.StdObject? {
      RunWellFormed(e1, Container(v.props), o);
    } else if v.Container? {
      ItemsWellFormed(e1, v.items, o, []);
    } else if v.Obj? {
      FieldsWellFormed(e1.(gen := DefaultAliasGenerator(v.aliasGenerator, e1.gen)), v.fields, o, []);
    }
  }

  lemma {:induction false} ItemsWellFormed(c: Engine, items: seq<(Key, Value)>, o: Options, acc: seq<(Key, Out)>)
    requires c.visibility.Some? && EntriesWellFormed(acc) && RunItems(c, items, o, acc).Ok?
    ensures EntriesWellFormed(RunItems(c, items, o, acc).value)
    decreases ItemsSize(items)
  {
    if items != [] {
      var item := Wrap(items[0].1);
      assert Size(item) == EntrySize(items[0]);
      if IsObject(item) {
        var s := Run(c, item, o);
        RunWellFormed(c, item, o);
        PutWellFormed(acc, items[0].0, s.result.value);
        ItemsWellFormed(s.after, items[1..], o, Put(acc, items[0].0, s.result.value));
      } else {
        PutWellFormed(acc, items[0].0, Scalar(item.p));
        ItemsWellFormed(c, items[1..], o, Put(acc, items[0].0, Scalar(item.p)));
      }
    }
  }

  lemma {:induction false} FieldsWellFormed(e: Engine, fields: seq<Field>, o: Options, acc: seq<(Key, Out)>)
    requires e.visibility.Some? && EntriesWellFormed(acc) && RunFields(e, fields, o, acc).Ok?
    ensures EntriesWellFormed(RunFields(e, fields, o, acc).value)
    decreases FieldsSize(fields)
  {
    if fields != [] {
      if !Included(e, fields[0], o) {
        FieldsWellFormed(e, fields[1..], o, acc);
      } else {
        var v := Wrap(fields[0].value.value);
        var out := FieldOut(e, fields[0], o).value;
        FieldSmaller(fields, 0);
        if IsObject(v) {
          RunWellFormed(e, v, o);
        }
        var name := StrKey(PropertyName(e.gen, fields[0], o.byAlias));
        PutWellFormed(acc, name, out);
        FieldsWellFormed(e, fields[1..], o, Put(acc, name, out));
      }
    }
  }

  // ---------------------------------------------------------------------------
  // Objects: which keys, in which order, with which values

  /**
   * The first property of an object: the walk goes on with it assigned in
   * `acc'` when it is included, and with `acc` unchanged otherwise.
   */
  lemma FieldsTail(e: Engine, fields: seq<Field>, o: Options, acc: seq<(Key, Out)>) returns (acc': seq<(Key, Out)>)
    requires e.visibility.Some? && fields != [] && RunFields(e, fields, o, acc).Ok?
    ensures RunFields(e, fields, o, acc) == RunFields(e, fields[1..], o, acc')
    ensures !Included(e, fields[0], o) ==> acc' == acc && IncludedNames(e, fields, o) == IncludedNames(e, fields[1..], o)
    ensures Included(e, fields[0], o) ==>
      && FieldOut(e, fields[0], o).Ok?
      && acc' == Put(acc, StrKey(PropertyName(e.gen, fields[0], o.byAlias)), FieldOut(e, fields[0], o).value)
      && IncludedNames(e, fields, o) == [StrKey(PropertyName(e.gen, fields[0], o.byAlias))] + IncludedNames(e, fields[1..], o)
  {
    if Included(e, fields[0], o) {
      acc' := Put(acc, StrKey(PropertyName(e.gen, fields[0], o.byAlias)), FieldOut(e, fields[0], o).value);
    } else {
      acc' := acc;
    }
  }

  /** Assignments to other keys leave a key's value alone. */
  lemma {:induction false} FieldsKeepOtherKeys(e: Engine, fields: seq<Field>, o: Options, acc: seq<(Key, Out)>, k: Key)
    requires e.visibility.Some? && RunFields(e, fields, o, acc).Ok?
    requires k !in IncludedNames(e, fields, o)
    ensures Lookup(RunFields(e, fields, o, acc).value, k) == Lookup(acc, k)
    decreases fields
  {
    if fields != [] {
      var acc' := FieldsTail(e, fields, o, acc);
      FieldsKeepOtherKeys(e, fields[1..], o, acc', k);
    }
  }

  /**
   * An included property appears under its resolved name with its own
   * contribution: its value serialized by a copy of the object's serializer
   * if it is an object or an array, otherwise the value itself.
   */
  lemma {:induction false} IncludedFieldValue(e: Engine, fields: seq<Field>, o: Options, acc: seq<(Key, Out)>, i: nat)
    requires e.visibility.Some? && RunFields(e, fields, o, acc).Ok?
    requires i < |fields| && Included(e, fields[i], o)
    requires Unique(IncludedNames(e, fields, o))
    ensures FieldOut(e, fields[i], o).Ok?
    ensures Lookup(RunFields(e, fields, o, acc).value, StrKey(PropertyName(e.gen, fields[i], o.byAlias)))
         == Some(FieldOut(e, fields[i], o).value)
    decreases fields
  {
    if i == 0 {
      FirstFieldValue(e, fields, o, acc);
    } else {
      var acc' := FieldsTail(e, fields, o, acc);
      if Included(e, fields[0], o) {
        UniqueTail(IncludedNames(e, fields, o));
      }
      IncludedFieldValue(e, fields[1..], o, acc', i - 1);
    }
  }

  /** The key property `f` is assigned under. */
  function FieldKey(e: Engine, f: Field, o: Options): Key
  {
    StrKey(PropertyName(e.gen, f, o.byAlias))
  }

  /** Property `j` is included, resolves to `k`, and no later included property does. */
  predicate LastWithKey(e: Engine, fields: seq<Field>, o: Options, j: nat, k: Key)
    requires e.visibility.Some?
  {
    && j < |fields| && Included(e, fields[j], o) && FieldKey(e, fields[j], o) == k
    && forall l :: j < l < |fields| && Included(e, fields[l], o) ==> FieldKey(e, fields[l], o) != k
  }

  /** A key is among the included names exactly when some included property resolves to it. */
  lemma {:induction false} IncludedNamesMember(e: Engine, fields: seq<Field>, o: Options, k: Key)
    requires e.visibility.Some?
    ensures k in IncludedNames(e, fields, o) <==>
      exists l :: 0 <= l < |fields| && Included(e, fields[l], o) && FieldKey(e, fields[l], o) == k
    decreases fields
  {
    if fields != [] {
      IncludedNamesMember(e, fields[1..], o, k);
      if k in IncludedNames(e, fields[1..], o) {
        var l :| 0 <= l < |fields[1..]| && Included(e, fields[1..][l], o) && FieldKey(e, fields[1..][l], o) == k;
        assert fields[l + 1] == fields[1..][l];
      }
      if exists l :: 0 <= l < |fields| && Included(e, fields[l], o) && FieldKey(e, fields[l], o) == k {
        var l :| 0 <= l < |fields| && Included(e, fields[l], o) && FieldKey(e, fields[l], o) == k;
        if l > 0 {
          assert fields[1..][l - 1] == fields[l];
        }
      }
    }
  }

  /** Every included name has a last property resolving to it. */
  lemma {:induction false} LastWithKeyExists(e: Engine, fields: seq<Field>, o: Options, k: Key)
    requires e.visibility.Some? && k in IncludedNames(e, fields, o)
    ensures exists j: nat :: LastWithKey(e, fields, o, j, k)
    decreases fields
  {
    if k in IncludedNames(e, fields[1..], o) {
      LastWithKeyExists(e, fields[1..], o, k);
      var j: nat :| LastWithKey(e, fields[1..], o, j, k);
      forall l | j + 1 < l < |fields| && Included(e, fields[l], o) ensures FieldKey(e, fields[l], o) != k {
        assert fields[l] == fields[1..][l - 1];
      }
      assert fields[j + 1] == fields[1..][j];
      assert LastWithKey(e, fields, o, j + 1, k);
    } else {
      IncludedNamesMember(e, fields[1..], o, k);
      forall l | 0 < l < |fields| && Included(e, fields[l], o) ensures FieldKey(e, fields[l], o) != k {
        assert fields[l] == fields[1..][l - 1];
      }
      assert LastWithKey(e, fields, o, 0, k);
    }
  }

  /**
   * When several included properties resolve to the same name, the key keeps
   * the position of the first (see `RunFields`) and holds the contribution of
   * the last: each assignment overwrites the one before.
   */
  lemma {:induction false} LastFieldWins(e: Engine, fields: seq<Field>, o: Options, acc: seq<(Key, Out)>, j: nat, k: Key)
    requires e.visibility.Some? && RunFields(e, fields, o, acc).Ok?
    requires LastWithKey(e, fields, o, j, k)
    ensures FieldOut(e, fields[j], o).Ok?
    ensures Lookup(RunFields(e, fields, o, acc).value, k) == Some(FieldOut(e, fields[j], o).value)
    decreases fields
  {
    var acc' := FieldsTail(e, fields, o, acc);
    if j == 0 {
      forall l | 0 <= l < |fields[1..]| && Included(e, fields[1..][l], o) ensures FieldKey(e, fields[1..][l], o) != k {
        assert fields[1..][l] == fields[l + 1];
      }
      IncludedNamesMember(e, fields[1..], o, k);
      FieldsKeepOtherKeys(e, fields[1..], o, acc', k);
    } else {
      forall l | j - 1 < l < |fields[1..]| && Included(e, fields[1..][l], o) ensures FieldKey(e, fields[1..][l], o) != k {
        assert fields[1..][l] == fields[l + 1];
      }
      assert fields[1..][j - 1] == fields[j];
      LastFieldWins(e, fields[1..], o, acc', j - 1, k);
    }
  }

  /** An included first property whose name no later property repeats keeps its contribution. */
  lemma FirstFieldValue(e: Engine, fields: seq<Field>, o: Options, acc: seq<(Key, Out)>)
    requires e.visibility.Some? && RunFields(e, fields, o, acc).Ok?
    requires fields != [] && Included(e, fields[0], o)
    requires Unique(IncludedNames(e, fields, o))
    ensures FieldOut(e, fields[0], o).Ok?
    ensures Lookup(RunFields(e, fields, o, acc).value, StrKey(PropertyName(e.gen, fields[0], o.byAlias)))
         == Some(FieldOut(e, fields[0], o).value)
  {
    var acc' := FieldsTail(e, fields, o, acc);
    UniqueTail(IncludedNames(e, fields, o));
    FieldsKeepOtherKeys(e, fields[1..], o, acc', StrKey(PropertyName(e.gen, fields[0], o.byAlias)));
  }

  /**
   * An object's output: its keys are the resolved names of the initialized,
   * included properties in declaration order (each once), resolved with the
   * generator the object's walk leaves behind; when no two of them resolve
   * to the same name, the keys are exactly those names, and each holds that
   * property's contribution.
   */
  lemma ObjectOutput(e: Engine, v: Value, o: Options)
    requires v.Obj? && Run(e, v, o).result.Ok?
    ensures Run(e, v, o).result.value.Map?
    ensures Keys(Run(e, v, o).result.value.entries) == AppendAll([], IncludedNames(Run(e, v, o).after, v.fields, o))
    ensures Unique(IncludedNames(Run(e, v, o).after, v.fields, o)) ==>
      Keys(Run(e, v, o).result.value.entries) == IncludedNames(Run(e, v, o).after, v.fields, o)
    ensures Unique(IncludedNames(Run(e, v, o).after, v.fields, o)) ==>
      forall i :: 0 <= i < |v.fields| && Included(Run(e, v, o).after, v.fields[i], o) ==>
        && FieldOut(Run(e, v, o).after, v.fields[i], o).Ok?
        && Lookup(Run(e, v, o).result.value.entries, StrKey(PropertyName(Run(e, v, o).after.gen, v.fields[i], o.byAlias)))
           == Some(FieldOut(Run(e, v, o).after, v.fields[i], o).value)
    ensures forall k :: k in IncludedNames(Run(e, v, o).after, v.fields, o) ==> exists j: nat :: LastWithKey(Run(e, v, o).after, v.fields, o, j, k)
    ensures forall j: nat, k :: LastWithKey(Run(e, v, o).after, v.fields, o, j, k) ==>
      && FieldOut(Run(e, v, o).after, v.fields[j], o).Ok?
      && Lookup(Run(e, v, o).result.value.entries, k) == Some(FieldOut(Run(e, v, o).after, v.fields[j], o).value)
  {
    var e2 := Run(e, v, o).after;
    forall k | k in IncludedNames(e2, v.fields, o) ensures exists j: nat :: LastWithKey(e2, v.fields, o, j, k) {
      LastWithKeyExists(e2, v.fields, o, k);
    }
    forall j: nat, k | LastWithKey(e2, v.fields, o, j, k)
      ensures FieldOut(e2, v.fields[j], o).Ok?
      ensures Lookup(RunFields(e2, v.fields, o, []).value, k) == Some(FieldOut(e2, v.fields[j], o).value)
    {
      LastFieldWins(e2, v.fields, o, [], j, k);
    }
    var names := IncludedNames(e2, v.fields, o);
    if Unique(names) {
      assert [] + names == names;
      AppendAllDistinct([], names);
      forall i | 0 <= i < |v.fields| && Included(e2, v.fields[i], o)
        ensures FieldOut(e2, v.fields[i], o).Ok?
        ensures Lookup(RunFields(e2, v.fields, o, []).value, StrKey(PropertyName(e2.gen, v.fields[i], o.byAlias)))
             == Some(FieldOut(e2, v.fields[i], o).value)
      {
        IncludedFieldValue(e2, v.fields, o, [], i);
      }
    }
  }

  /** An uninitialized property is skipped as if it were not declared. */
  lemma UninitializedSkipped(e: Engine, f: Field, fields: seq<Field>, o: Options, acc: seq<(Key, Out)>)
    requires e.visibility.Some? && f.value.None?
    ensures RunFields(e, [f] + fields, o, acc) == RunFields(e, fields, o, acc)
  {
    assert ([f] + fields)[1..] == fields;
  }

  // ---------------------------------------------------------------------------
  // Containers: same keys, same order, scalars kept, objects serialized by the shared copy

  /** The item is an object whose class declares an alias generator. */
  predicate DeclaresGenerator(item: (Key, Value))
  {
    item.1.Obj? && item.1.aliasGenerator.Some?
  }

  /** The generator the shared copy holds after walking `item` while holding `g`. */
  function NextGenerator(g: Generator, item: (Key, Value)): Generator
  {
    if DeclaresGenerator(item) then item.1.aliasGenerator.value else g
  }

  /** The generator the shared copy holds after walking `items`, starting from `g`. */
  function HeldGenerator(g: Generator, items: seq<(Key, Value)>): Generator
    decreases items
  {
    if items == [] then g else HeldGenerator(NextGenerator(g, items[0]), items[1..])
  }

  /** The state of the shared copy `c` when the walk reaches item `i`. */
  function CopyAt(c: Engine, items: seq<(Key, Value)>, i: nat): Engine
    requires i <= |items|
  {
    c.(gen := HeldGenerator(c.gen, items[..i]))
  }

  /** After the first item, the shared copy holds the generator that item left in it. */
  lemma ItemsStepCopy(c: Engine, items: seq<(Key, Value)>, o: Options, acc: seq<(Key, Out)>) returns (acc': seq<(Key, Out)>)
    requires c.visibility.Some? && items != [] && RunItems(c, items, o, acc).Ok?
    ensures RunItems(c, items, o, acc) == RunItems(c.(gen := NextGenerator(c.gen, items[0])), items[1..], o, acc')
  {
    var item := Wrap(items[0].1);
    if IsObject(item) {
      RunLeavesGenerator(c, item, o);
      acc' := Put(acc, items[0].0, Run(c, item, o).result.value);
    } else {
      acc' := Put(acc, items[0].0, Scalar(item.p));
    }
  }

  /** The walk reaches the first item in the state it started from. */
  lemma CopyAtStart(c: Engine, items: seq<(Key, Value)>)
    ensures CopyAt(c, items, 0) == c
  {
    assert items[..0] == [];
  }

  /** Reaching item `i` is walking the first item, then reaching item `i - 1` of the rest. */
  lemma CopyAtShift(c: Engine, items: seq<(Key, Value)>, i: nat)
    requires 0 < i <= |items|
    ensures CopyAt(c, items, i) == CopyAt(c.(gen := NextGenerator(c.gen, items[0])), items[1..], i - 1)
  {
    assert items[..i][0] == items[0] && items[..i][1..] == items[1..][..i - 1];
  }

  /** With no item declaring a generator, the copy keeps the one it started with. */
  lemma {:induction false} HeldGeneratorNone(g: Generator, items: seq<(Key, Value)>)
    requires forall j :: 0 <= j < |items| ==> !DeclaresGenerator(items[j])
    ensures HeldGenerator(g, items) == g
    decreases items
  {
    if items != [] {
      assert !DeclaresGenerator(items[0]);
      forall l | 0 <= l < |items[1..]| ensures !DeclaresGenerator(items[1..][l]) {
        assert items[1..][l] == items[l + 1];
      }
      HeldGeneratorNone(g, items[1..]);
    }
  }

  /** The copy holds the generator of the last item that declares one. */
  lemma {:induction false} HeldGeneratorLast(g: Generator, items: seq<(Key, Value)>, j: nat)
    requires j < |items| && DeclaresGenerator(items[j])
    requires forall l :: j < l < |items| ==> !DeclaresGenerator(items[l])
    ensures HeldGenerator(g, items) == items[j].1.aliasGenerator.value
    decreases items
  {
    forall l | j - 1 < l < |items[1..]| ensures !DeclaresGenerator(items[1..][l]) {
      assert items[1..][l] == items[l + 1];
    }
    if j == 0 {
      HeldGeneratorNone(NextGenerator(g, items[0]), items[1..]);
    } else {
      assert items[1..][j - 1] == items[j];
      HeldGeneratorLast(NextGenerator(g, items[0]), items[1..], j - 1);
    }
  }

  /**
   * The first entry of a container: the walk goes on from the copy's new
   * state `next` with the first entry assigned in `acc'`.
   */
  lemma ItemsTail(c: Engine, items: seq<(Key, Value)>, o: Options, acc: seq<(Key, Out)>) returns (next: Engine, acc': seq<(Key, Out)>)
    requires c.visibility.Some? && items != [] && RunItems(c, items, o, acc).Ok?
    ensures next.visibility.Some?
    ensures RunItems(c, items, o, acc) == RunItems(next, items[1..], o, acc')
    ensures Keys(acc') == AppendNew(Keys(acc), items[0].0)
    ensures forall k :: k != items[0].0 ==> Lookup(acc', k) == Lookup(acc, k)
    ensures items[0].1.Prim? ==> Lookup(acc', items[0].0) == Some(Scalar(items[0].1.p))
  {
    var item := Wrap(items[0].1);
    if IsObject(item) {
      next := Run(c, item, o).after;
      acc' := Put(acc, items[0].0, Run(c, item, o).result.value);
    } else {
      next := c;
      acc' := Put(acc, items[0].0, Scalar(item.p));
    }
  }

  /** Assignments to other keys leave a key's value alone. */
  lemma {:induction false} ItemsKeepOtherKeys(c: Engine, items: seq<(Key, Value)>, o: Options, acc: seq<(Key, Out)>, k: Key)
    requires c.visibility.Some? && RunItems(c, items, o, acc).Ok?
    requires k !in Keys(items)
    ensures Lookup(RunItems(c, items, o, acc).value, k) == Lookup(acc, k)
    decreases items
  {
    if items != [] {
      var next, acc' := ItemsTail(c, items, o, acc);
      assert Keys(items)[0] == items[0].0 && Keys(items)[1..] == Keys(items[1..]);
      ItemsKeepOtherKeys(next, items[1..], o, acc', k);
    }
  }

  /** A scalar item of a container is copied to the output under its own key. */
  lemma {:induction false} ScalarItemKept(c: Engine, items: seq<(Key, Value)>, o: Options, acc: seq<(Key, Out)>, i: nat)
    requires c.visibility.Some? && RunItems(c, items, o, acc).Ok?
    requires i < |items| && items[i].1.Prim? && Unique(Keys(items))
    ensures Lookup(RunItems(c, items, o, acc).value, items[i].0) == Some(Scalar(items[i].1.p))
    decreases items
  {
    var ks := Keys(items);
    assert ks[0] == items[0].0 && ks[1..] == Keys(items[1..]);
    UniqueTail(ks);
    var next, acc' := ItemsTail(c, items, o, acc);
    if i == 0 {
      ItemsKeepOtherKeys(next, items[1..], o, acc', items[0].0);
    } else {
      assert items[1..][i - 1] == items[i];
      ScalarItemKept(next, items[1..], o, acc', i - 1);
    }
  }

  /** The first item is serialized by the copy in the state the walk starts from. */
  lemma FirstObjectItemValue(c: Engine, items: seq<(Key, Value)>, o: Options, acc: seq<(Key, Out)>)
    requires c.visibility.Some? && RunItems(c, items, o, acc).Ok?
    requires items != [] && !items[0].1.Prim? && items[0].0 !in Keys(items[1..])
    ensures Run(c, Wrap(items[0].1), o).result.Ok?
    ensures Lookup(RunItems(c, items, o, acc).value, items[0].0) == Some(Run(c, Wrap(items[0].1), o).result.value)
  {
    var item := Wrap(items[0].1);
    assert IsObject(item);
    var s := Run(c, item, o);
    assert s.result.Ok?;
    var acc1 := Put(acc, items[0].0, s.result.value);
    assert RunItems(c, items, o, acc) == RunItems(s.after, items[1..], o, acc1);
    ItemsKeepOtherKeys(s.after, items[1..], o, acc1, items[0].0);
  }

  /**
   * An object or array item of a container is serialized by the one copy
   * shared along the walk, in the state the earlier items left it in; its key
   * holds that output unless a later item assigns the same key.
   */
  lemma {:induction false} ObjectItemValue(c: Engine, items: seq<(Key, Value)>, o: Options, acc: seq<(Key, Out)>, i: nat)
    requires c.visibility.Some? && RunItems(c, items, o, acc).Ok?
    requires i < |items| && !items[i].1.Prim? && items[i].0 !in Keys(items[i + 1..])
    ensures Run(CopyAt(c, items, i), Wrap(items[i].1), o).result.Ok?
    ensures Lookup(RunItems(c, items, o, acc).value, items[i].0) == Some(Run(CopyAt(c, items, i), Wrap(items[i].1), o).result.value)
    decreases items
  {
    if i == 0 {
      CopyAtStart(c, items);
      FirstObjectItemValue(c, items, o, acc);
    } else {
      var c1 := c.(gen := NextGenerator(c.gen, items[0]));
      var acc' := ItemsStepCopy(c, items, o, acc);
      assert items[1..][i - 1] == items[i] && items[1..][i..] == items[i + 1..];
      ObjectItemValue(c1, items[1..], o, acc', i - 1);
      CopyAtShift(c, items, i);
    }
  }

  /** With no key repeated, no item after item `i` has its key. */
  lemma LaterKeysDiffer(items: seq<(Key, Value)>, i: nat)
    requires i < |items| && Unique(Keys(items))
    ensures items[i].0 !in Keys(items[i + 1..])
  {
    var ks := Keys(items);
    assert Keys(items[i + 1..]) == ks[i + 1..] && ks[i] == items[i].0;
  }

  /**
   * A container's output keeps the container's keys in iteration order (each
   * once), every scalar item under its own key unchanged, and every object or
   * array item serialized by the shared copy in the state `CopyAt` gives.
   */
  lemma ContainerOutput(e: Engine, v: Value, o: Options)
    requires v.Container? && Run(e, v, o).result.Ok?
    ensures Run(e, v, o).result.value.Map?
    ensures Keys(Run(e, v, o).result.value.entries) == AppendAll([], Keys(v.items))
    ensures Unique(Keys(v.items)) ==> Keys(Run(e, v, o).result.value.entries) == Keys(v.items)
    ensures Unique(Keys(v.items)) ==>
      forall i :: 0 <= i < |v.items| && v.items[i].1.Prim? ==>
        Lookup(Run(e, v, o).result.value.entries, v.items[i].0) == Some(Scalar(v.items[i].1.p))
    ensures Unique(Keys(v.items)) ==>
      forall i :: 0 <= i < |v.items| && !v.items[i].1.Prim? ==>
        && Run(CopyAt(Prepare(e).value, v.items, i), Wrap(v.items[i].1), o).result.Ok?
        && Lookup(Run(e, v, o).result.value.entries, v.items[i].0)
           == Some(Run(CopyAt(Prepare(e).value, v.items, i), Wrap(v.items[i].1), o).result.value)
  {
    var e1 := Prepare(e).value;
    if Unique(Keys(v.items)) {
      assert [] + Keys(v.items) == Keys(v.items);
      AppendAllDistinct([], Keys(v.items));
      forall i | 0 <= i < |v.items| && v.items[i].1.Prim?
        ensures Lookup(RunItems(e1, v.items, o, []).value, v.items[i].0) == Some(Scalar(v.items[i].1.p))
      {
        ScalarItemKept(e1, v.items, o, [], i);
      }
      forall i | 0 <= i < |v.items| && !v.items[i].1.Prim?
        ensures Run(CopyAt(e1, v.items, i), Wrap(v.items[i].1), o).result.Ok?
        ensures Lookup(RunItems(e1, v.items, o, []).value, v.items[i].0) == Some(Run(CopyAt(e1, v.items, i), Wrap(v.items[i].1), o).result.value)
      {
        LaterKeysDiffer(v.items, i);
        ObjectItemValue(e1, v.items, o, [], i);
      }
    }
  }
}
