# Serializer: a Dafny model

`Attributes\Serialization\Serializer` converts PHP values into primitive arrays. It walks an object's
declared properties, decides which to include, names each one and recurses into nested objects, arrays
and containers. Along the way it lazily resolves an allow-list of visibilities (`public`, `private`,
`protected`) into visibility checks, and it caches a default alias generator.

The project models that class in four layers:

- **Data.** `Values` holds the host values the serializer meets, each property's reflected metadata, the
  output and the two exceptions. `PhpArray` holds PHP's ordered arrays, where `$a[$k] = $v` keeps an
  existing key's position.
- **Decision rules.** `Policy` resolves the allow-list (`getAllVisibilityMethods`) and decides inclusion
  (`shouldBeSerialized`). It also resolves the alias generator (`getDefaultAliasGenerator`) and the
  property name (`getPropertyName`).
- **Walk as functions.** `Traversal` describes `serialize` as functions over a snapshot of the
  serializer's four fields (`Engine`). `Run` returns both the result and the state the call leaves behind.
- **The object itself.** `Serialization.Serializer` is the object with its four mutable fields and its
  methods. `Serialize` and `GetAllVisibilityMethods` are loops over arrays and are proved equal to those
  functions, including the fields they leave set.

`Properties` proves what the walk promises: the output's keys and values, error behaviour, and the state
left behind. `Scenarios` restates some of the repository's integration tests as lemmas, together with a
few concrete cases of the copy behaviour.

Reflection and attributes are modelled as data. An object is its class's optional alias generator plus
its properties in declaration order. Each property carries its name, its value (absent when
uninitialized), its visibility, its optional `Ignore` flags and its optional `Alias`. Alias generators,
`Alias::getAlias` and `DateTimeInterface::format` are opaque function values.

The model follows the code, including three behaviours a reader of the class might not expect:

- **Collapse to "unrestricted".** The checks collapse when their count equals the number of valid
  visibilities (three), not when they cover all three. `["public", "public", "public"]` therefore
  collapses too and admits private properties (`Scenarios.ThreeEqualTokensCollapse`).
- **Copy isolation.** One might expect every descent to get its own copy, so that one class's
  generator never reaches another subtree. That holds between the properties of one object
  (`Scenarios.SiblingFieldsIsolated`). It does not hold between the items of a container, which share
  one copy (src/Serializer.php:72). Nor does it hold between successive calls on the serializer a caller
  holds, which keeps the last generator it resolved (src/Serializer.php:95). See
  `Scenarios.ContainerItemsShareGenerator` and `Scenarios.LaterCallSeesEarlierGenerator`.
- **Empty names.** Nothing keeps a resolved name from being empty: a generator or alias that returns
  `""` yields the key `""`.

## Model

| member | source | states |
|---|---|---|
| Serialization.Serializer.constructor | src/Serializer.php:35-40 | a new serializer stores the allow-list and format unchecked, has no resolved checks and holds the identity generator |
| Serialization.Serializer.SetVisibilityMethods | src/Serializer.php:197-200 | only the cached checks change, to the given ones |
| Serialization.Serializer.SetDefaultAliasGenerator | src/Serializer.php:205-208 | only the held generator changes, to the given one |
| Serialization.Serializer.Clone | src/Serializer.php:215-222 | the copy is a new object whose allow-list, format, cached checks and generator equal the original's |
| Serialization.Serializer.GetAllVisibilityMethods | src/Serializer.php:121-143 | the loop returns exactly `ResolveVisibility(allow)`: the first unknown token's error, or the checks in allow-list order collapsed to none when there are three |
| Serialization.Serializer.Serialize | src/Serializer.php:54-114 | the method's result and the serializer's new fields are those of `Run` on its old fields; nested values are serialized by fresh copies, one per container and one per object property |
| Traversal.Run | src/Serializer.php:54-114 | a call never changes the allow-list or format, never replaces checks already cached, and succeeds only with checks cached |
| Traversal.Prepare | src/Serializer.php:56-58 | the checks are resolved only when none are cached yet, and the call fails exactly when that resolution fails |
| Values.Message | src/Serializer.php:132 | the invalid-visibility message embeds the offending lower-cased token between the fixed prefix and suffix |
| PhpArray.Put | src/Serializer.php:110 | assignment keeps an existing key's position and appends a new key; the key then maps to the value and every other key keeps its value |
| PhpArray.PutAppends | src/Serializer.php:77 | assigning to a key not yet present appends the entry at the end |
| PhpArray.AppendNewKeepsUnique | src/Serializer.php:110 | one assignment never duplicates a key, and the assigned key is present |
| PhpArray.AppendAllKeepsUnique | src/Serializer.php:96-111 | a sequence of assignments never duplicates a key |
| PhpArray.AppendAllDistinct | src/Serializer.php:96-111 | assigning distinct new keys in turn lists them in assignment order |
| Policy.LowerMeaning | src/Serializer.php:130 | lower-casing keeps the length and maps each A-Z letter to its lower case, leaving other characters alone |
| Policy.LowerIdempotent | src/Serializer.php:130 | lower-casing twice equals lower-casing once |
| Policy.ParseIgnoresCase | src/Serializer.php:130-131 | a token and its lower-cased form name the same visibility |
| Policy.ParseVisibilityNames | src/Serializer.php:123-131 | a token names visibility v if and only if its lower-cased form is v's name |
| Policy.ParseNames | src/Serializer.php:123-131 | the tokens `public`, `private` and `protected` name the public, private and protected checks |
| Policy.ValidVisibilitiesCount | src/Serializer.php:123-127 | there are exactly three valid visibilities |
| Policy.ResolveTokensMeaning | src/Serializer.php:128-136 | the loop succeeds if and only if every token names a visibility, then gives each token's check in order; otherwise it reports the first invalid token, lower-cased |
| Policy.ResolveTokensStep | src/Serializer.php:129-135 | one more token appends its check, or raises the error naming it |
| Policy.ResolveTokensStops | src/Serializer.php:131-133 | after the first invalid token, later tokens do not change the outcome |
| Policy.ResolveVisibility | src/Serializer.php:121-143 | succeeds if and only if every token is valid; on success the checks are empty exactly when the list has zero or three tokens, and otherwise are the tokens' checks in order |
| Policy.ResolveVisibilityOf | src/Serializer.php:138-142 | a resolved list of three checks collapses to none; any other count is returned as is |
| Policy.AllThreeCollapse | src/Serializer.php:138-140 | three tokens naming all three visibilities, in any order and case, resolve to "unrestricted" |
| Policy.CountCollapse | src/Serializer.php:138-140 | any three valid tokens, repeated or not, resolve to "unrestricted": the collapse counts tokens, not distinct visibilities |
| Policy.CollapseLaw | src/Serializer.php:138-140 | the default allow-list and the empty one both resolve to "unrestricted" and include the same fields |
| Policy.RestrictedAdmitsNamed | src/Serializer.php:129-142 | with a non-collapsed list, a visibility is checked for if and only if some token names it |
| Policy.AnyCheckHolds | src/Serializer.php:161-167 | the loop over the checks succeeds if and only if the property's visibility is among them |
| Policy.ShouldBeSerialized | src/Serializer.php:148-168 | with ignores in use and an `Ignore` present, the field is included iff the mode's ignore flag (validation or serialization) is off; otherwise it is included iff there are no checks, visibility methods are off, or its visibility is checked |
| Policy.IgnorePrecedence | src/Serializer.php:150-155 | with ignores in use, an `Ignore` decides alone, whatever the checks or `useVisibilityMethods` |
| Policy.VisibilityOffAdmitsAll | src/Serializer.php:157-159 | with no `Ignore` in play and visibility methods off, every field is included |
| Policy.DefaultAliasGenerator | src/Serializer.php:170-178 | a class that declares an alias generator gives that generator; a class without one leaves the held generator in place |
| Policy.PropertyName | src/Serializer.php:180-192 | `byAlias = false` gives the property's own name; otherwise an explicit `Alias` applied to the name; otherwise the held generator applied to the name |
| Policy.NamePrecedence | src/Serializer.php:180-192 | `byAlias = false` gives the raw name; otherwise an explicit alias wins over any generator; otherwise the held generator names the field |
| Values.Wrap | src/Serializer.php:74-76 | a raw array becomes a container of the same entries, every other value is unchanged, and the result is walked as an object exactly when the value is not a scalar |
| Traversal.EnumOut | src/Serializer.php:83-91 | succeeds exactly when reflection on the enum succeeds, giving the backed value or else the case name; otherwise the enum error |
| Traversal.FieldOut | src/Serializer.php:105-110 | a scalar property value is kept as is and never fails; an object or array value gives the result of walking it with the copy |
| Traversal.RunFields | src/Serializer.php:96-111 | a successful walk over the properties assigns exactly the names of the initialized, included ones, in declaration order, onto the keys already present |
| Traversal.RunItems | src/Serializer.php:71-80 | a successful walk over a container assigns exactly its keys, in iteration order, onto the keys already present |
| Properties.InvalidAllowFailsFirstCall | src/Serializer.php:56-58 | a first call with an invalid allow-list raises the error naming the first bad token, lower-cased, and leaves the serializer unchanged |
| Properties.VisibilityCachedAfterFirstCall | src/Serializer.php:56-58 | a first call with a valid allow-list caches its resolved checks |
| Properties.CachedRunRaisesOnlyEnumErrors | src/Serializer.php:56-58 | once checks are cached, no call at any depth raises the allow-list error again, and the cache is unchanged |
| Properties.ItemsRaiseOnlyEnumErrors | src/Serializer.php:73-78 | walking a container with cached checks raises at most the enum error |
| Properties.FieldsRaiseOnlyEnumErrors | src/Serializer.php:96-111 | walking an object's properties with cached checks raises at most the enum error |
| Properties.Dispatch | src/Serializer.php:60-91 | first match wins: a stdClass is walked as a container of its properties; a date/time is formatted with the held format; a backed enum gives its value, a pure enum its name, and failed reflection the enum error |
| Properties.RunLeavesGenerator | src/Serializer.php:93-95 | besides caching the checks, a call changes only the held generator, which becomes the walked class's generator when it declares one and is otherwise unchanged |
| Properties.PutWellFormed | src/Serializer.php:110 | assigning a well-formed value keeps every array free of repeated keys |
| Properties.RunWellFormed | src/Serializer.php:54-114 | a successful call's output never repeats a key in any array at any depth |
| Properties.ItemsWellFormed | src/Serializer.php:71-80 | a container's output never repeats a key |
| Properties.FieldsWellFormed | src/Serializer.php:93-113 | an object's output never repeats a key |
| Properties.FieldsKeepOtherKeys | src/Serializer.php:96-111 | a key no included property resolves to keeps its earlier value |
| Properties.IncludedFieldValue | src/Serializer.php:105-110 | with distinct names, an included property's key holds its value serialized by a copy, or the value itself when it is not an object |
| Properties.IncludedNamesMember | src/Serializer.php:96-109 | a key is among the assigned names if and only if some initialized, included property resolves to it |
| Properties.LastWithKeyExists | src/Serializer.php:96-110 | every assigned name has a last included property that resolves to it |
| Properties.LastFieldWins | src/Serializer.php:96-110 | when several properties resolve to one name, that key holds the contribution of the last of them |
| Properties.ObjectOutput | src/Serializer.php:93-113 | an object's output is an array keyed by its included properties' names under the generator the walk leaves, first positions kept; every key holds the contribution of the last property resolving to it, and with distinct names each property's contribution sits under its own name |
| Properties.UninitializedSkipped | src/Serializer.php:97-99 | an uninitialized property is skipped as if it were not declared |
| Properties.ItemsKeepOtherKeys | src/Serializer.php:73-78 | a key the container lacks keeps its earlier value |
| Properties.HeldGeneratorNone | src/Serializer.php:95 | while no walked item's class declares a generator, the shared copy keeps the generator it started with |
| Properties.HeldGeneratorLast | src/Serializer.php:95 | after the items walked so far, the shared copy holds the generator of the last one whose class declares one |
| Properties.CopyAtShift | src/Serializer.php:72-77 | the copy's state before item `i` is the state after the first item, walked on from there |
| Properties.ObjectItemValue | src/Serializer.php:72-77 | an object or array item's key holds that item serialized by the one shared copy, in the state the earlier items left it, unless a later item assigns the same key |
| Properties.ScalarItemKept | src/Serializer.php:77 | with distinct keys, a scalar item is copied unchanged under its key |
| Properties.ContainerOutput | src/Serializer.php:70-81 | a container's output has exactly the container's keys, in order; with distinct keys every scalar item is unchanged and every object or array item holds its output from the shared copy in the state the earlier items left it |
| Scenarios.FreshIsUnrestricted | src/Serializer.php:35 | a default serializer's first call resolves its allow-list to "unrestricted" |
| Scenarios.FirstCallAsResolved | src/Serializer.php:56-58 | a first call gives the result a call with the checks already resolved gives |
| Scenarios.RawObject | tests/Integration/SerializersTest.php:188-201 | a stdClass with `id = 1` and a `title` string serializes to exactly those two keys and values |
| Scenarios.DateTimeFormatted | tests/Integration/SerializersTest.php:206-216 | a serializer built with a format serializes a date/time to that date formatted with it |
| Scenarios.UninitializedEmpty | tests/Integration/SerializersTest.php:235-246 | an object whose only property is uninitialized serializes to an empty array |
| Scenarios.NestedOptions | tests/Integration/OptionsTest.php:22-48 | a user with the snake generator, holding a profile that holds a post, serializes to `profile → my_post → my_title`, with the post's ignored id dropped, plus `full_name` |
| Scenarios.PostOutput | tests/Integration/OptionsTest.php:23-25 | a post with an ignored id and an aliased title serializes to the single key `my_title` |
| Scenarios.UserFields | tests/Integration/OptionsTest.php:30-32 | a user's profile object and its full name appear in that order under their generated names |
| Scenarios.SingleFieldOutput | src/Serializer.php:105-110 | an object with one object-valued property serializes to that property's serialized value under the generated name |
| Scenarios.ValidationProperties | tests/Integration/OptionsTest.php:108-126 | in validation mode, a property whose `Ignore` spares validation is kept and the other is dropped |
| Scenarios.WithoutAlias | tests/Integration/OptionsTest.php:128-146 | with `byAlias = false`, neither the class generator nor an explicit alias is applied |
| Scenarios.EnumValues | tests/Integration/SerializersTest.php:220-232 | a pure enum gives its case name, and backed enums give their int or string value |
| Scenarios.PublicAndPrivateOnly | tests/Integration/SerializersTest.php:250-285 | `allow = [public, private]` resolves to exactly those two checks, in that order |
| Scenarios.PublicAndPrivateFields | tests/Integration/SerializersTest.php:262-280 | under those checks, of one property per visibility only the public and private ones appear |
| Scenarios.SecondTokenRaises | tests/Integration/SerializersTest.php:287-293 | `allow = [public, t]` with any token `t` that names no visibility raises the error naming `t` lower-cased on the first call |
| Scenarios.UnknownTokenRaises | tests/Integration/SerializersTest.php:287-296 | `allow = [public, x]` raises the invalid-visibility error for `x` = `'invalid'`, `123`, `false` or `null`, and `9.1`, each taken as its string cast: `"invalid"`, `"123"`, `""`, `"9.1"` |
| Scenarios.MixedCaseTokenReported | src/Serializer.php:130-132 | an added case beyond the tests: `allow = [public, Bogus]` reports the token lower-cased, as `bogus` |
| Scenarios.ThreeEqualTokensCollapse | src/Serializer.php:138-140 | three `public` tokens collapse to "unrestricted", so a private property is included |
| Scenarios.ContainerItemsShareGenerator | src/Serializer.php:72-77 | a class generator picked up by one container item names the fields of a later item whose class declares none |
| Scenarios.SiblingFieldsIsolated | src/Serializer.php:110 | a generator picked up inside one property's value does not reach a sibling property's value |
| Scenarios.LaterCallSeesEarlierGenerator | src/Serializer.php:93-95 | after walking a class with a generator, a later call on the same serializer names the fields of a class without one using that generator |

## Left out

- **Reflection.** `ReflectionClass`, `ReflectionProperty` and `ReflectionEnum` are not modelled as such. An object is modelled as its class's alias generator plus its properties in declaration order, with name, value, visibility, `Ignore` flags and `Alias`. An enum carries whether reflection on it succeeds.
- **Attributes package.** `AliasGenerator`, `Alias` and `Ignore` come from another package, which is not part of this model. Generators and aliases are opaque `string -> string` functions. `Ignore` is its two flags.
- **Date formatting.** `DateTimeInterface::format` is an opaque function of the format string. No date arithmetic or formatting is modelled.
- **Reference cycles.** Values are finite trees, so a self-referential object graph, which recurses without end in PHP, cannot be expressed.
- **Type coverage.** Scalars are null, bool, int and string only. Floats and resources are not modelled.
- **Non-string allow-list tokens.** These are modelled after the `(string)` cast at src/Serializer.php:130: the model takes the tokens as strings.
- **Numeric-string keys.** PHP turns a key such as `"1"` into the integer `1`. The model keeps string and integer keys apart.
- **Overlapping value kinds.** These are modelled as exclusive categories, tested in the source's order. A value that is both, for example an enum implementing `ArrayAccess`, cannot be expressed.
- **Lower-casing.** `strtolower` is modelled for ASCII letters only.
- **Serialization.Serializer.SetVisibilityMethods:** takes a list of visibilities. PHP accepts any array here and later calls each entry as a `ReflectionProperty` method name, so an array of other method names cannot be expressed.
- **Nested, array-object and trait tests.** The tests at tests/Integration/SerializersTest.php:24-184 and 300-317 (nested models, `ArrayObject`s, raw arrays of objects, the `Serializable` trait) are not restated one by one. Their container behaviour is covered in general by `Properties.ContainerOutput` and `Properties.ObjectItemValue`, and the trait is not part of this model.
- **Serializer.Clone.** It requires the checks to be cached already. Both copies in `serialize` (`clone $this` at src/Serializer.php:72 and `clone()` at src/Serializer.php:215-222) happen after the cache is set, and `setVisibilityMethods` does not accept `null`. Because `clone $this` copies the same four fields, the magic `__clone` (src/Serializer.php:224-227) is not modelled separately.
- **Serializer.Serialize.** It is specified by `Traversal.Run`. The object identity of the copies is covered only by `fresh`; no aliasing between serializers is modelled beyond that.
- **Helper files.** `SerializableTrait`, the `Serializable` interface and the `apply_filters` hooks are not part of this model.
- **Test wrapper properties.** The "ignoring ignores" test (tests/Integration/OptionsTest.php:52-77) lists the trait's own `serializer` property in its output, and that test is not restated.
