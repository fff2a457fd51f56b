/**
 * The three decision rules under the serializer's dispatch: which visibility
 * checks the allow-list stands for, whether a property is serialized, and
 * under which name.
 */
module Policy {
  import opened Wrappers
  import opened Values

  /** `strtolower` on one character: ASCII letters only. */
  function LowerChar(c: char): char
  {
    if 'A' <= c <= 'Z' then (c as int + 32) as char else c
  }

  /** `strtolower`. */
  function Lower(s: string): string
  {
    if s == [] then [] else [LowerChar(s[0])] + Lower(s[1..])
  }

  /** Lower-casing keeps the length and lower-cases each character on its own. */
  lemma {:induction false} LowerMeaning(s: string)
    ensures |Lower(s)| == |s|
    ensures forall i :: 0 <= i < |s| ==> Lower(s)[i] == LowerChar(s[i])
  {
    if s != [] {
      LowerMeaning(s[1..]);
    }
  }

  /** The name under which the allow-list names each visibility. */
  function VisibilityName(v: Vis): string
  {
    match v
    case Public => "public"
    case Private => "private"
    case Protected => "protected"
  }

  /** The table of valid visibilities, from allow-list token to visibility check. */
  const ValidVisibilities: map<string, Vis> := map["public" := Public, "private" := Private, "protected" := Protected]

  lemma ValidVisibilitiesCount()
    ensures |ValidVisibilities| == 3
  {
    assert ValidVisibilities.Keys == {"public", "private", "protected"};
  }

  /** The check a single allow-list token stands for, compared without regard to case. */
  function ParseVisibility(token: string): Option<Vis>
  {
    var visibility := Lower(token);
    if visibility in ValidVisibilities then Some(ValidVisibilities[visibility]) else None
  }

  /** Token `i` is the first one that names no visibility. */
  predicate FirstInvalid(allow: seq<string>, i: int)
    requires 0 <= i < |allow|
  {
    && ParseVisibility(allow[i]).None?
    && forall j :: 0 <= j < i ==> ParseVisibility(allow[j]).Some?
  }

  /**
   * The loop over the allow-list: each token's check, in allow-list order, or
   * the exception for the first token that names none.
   */
  function ResolveTokens(allow: seq<string>): Result<seq<Vis>, SerializeError>
  {
    if allow == [] then Ok([])
    else
      var last := |allow| - 1;
      match ResolveTokens(allow[..last])
      case Err(e) => Err(e)
      case Ok(checks) =>
        match ParseVisibility(allow[last])
        case None => Err(InvalidVisibility(Lower(allow[last])))
        case Some(v) => Ok(checks + [v])
  }

  /**
   * The loop succeeds exactly when every token names a visibility, and then
   * gives each token's check in allow-list order; otherwise it reports the
   * first token that names none, lower-cased.
   */
  lemma {:induction false} ResolveTokensMeaning(allow: seq<string>)
    ensures ResolveTokens(allow).Ok? <==> forall i :: 0 <= i < |allow| ==> ParseVisibility(allow[i]).Some?
    ensures ResolveTokens(allow).Ok? ==> |ResolveTokens(allow).value| == |allow|
    ensures ResolveTokens(allow).Ok? ==>
      forall i :: 0 <= i < |allow| ==> ParseVisibility(allow[i]) == Some(ResolveTokens(allow).value[i])
    ensures ResolveTokens(allow).Err? ==>
      exists i :: 0 <= i < |allow| && FirstInvalid(allow, i) && ResolveTokens(allow).error == InvalidVisibility(Lower(allow[i]))
  {
    if allow != [] {
      var last := |allow| - 1;
      ResolveTokensMeaning(allow[..last]);
      assert forall i :: 0 <= i < last ==> allow[..last][i] == allow[i];
      if ResolveTokens(allow[..last]).Ok? && ParseVisibility(allow[last]).None? {
        assert FirstInvalid(allow, last);
      }
    }
  }

  /**
   * `getAllVisibilityMethods`: the checks the allow-list stands for, where as
   * many checks as there are valid visibilities collapse to none at all,
   * meaning "unrestricted".
   */
  function ResolveVisibility(allow: seq<string>): (r: Result<seq<Vis>, SerializeError>)
    ensures r.Ok? <==> forall i :: 0 <= i < |allow| ==> ParseVisibility(allow[i]).Some?
    ensures r.Err? ==> r == ResolveTokens(allow)
    ensures r.Ok? ==> (r.value == [] <==> |allow| == 0 || |allow| == 3)
    ensures r.Ok? && |allow| != 3 ==> ResolveTokens(allow) == Ok(r.value)
  {
    ResolveTokensMeaning(allow);
    match ResolveTokens(allow)
    case Err(e) => Err(e)
    case Ok(checks) =>
      ValidVisibilitiesCount();
      if |checks| == |ValidVisibilities| then Ok([]) else Ok(checks)
  }

  /** One more token of the allow-list: its check is appended, or it is the one reported. */
  lemma ResolveTokensStep(allow: seq<string>, i: nat, checks: seq<Vis>)
    requires i < |allow| && ResolveTokens(allow[..i]) == Ok(checks)
    ensures ResolveTokens(allow[..i + 1]) ==
      var visibility := Lower(allow[i]);
      if visibility in ValidVisibilities then Ok(checks + [ValidVisibilities[visibility]])
      else Err(InvalidVisibility(visibility))
  {
    assert allow[..i + 1][..i] == allow[..i];
    assert allow[..i + 1][i] == allow[i];
  }

  /** The first invalid token stops the loop: later tokens are never looked at. */
  lemma {:induction false} ResolveTokensStops(allow: seq<string>, n: nat)
    requires n <= |allow| && ResolveTokens(allow[..n]).Err?
    ensures ResolveTokens(allow) == ResolveTokens(allow[..n])
    decreases |allow| - n
  {
    if n < |allow| {
      var last := |allow| - 1;
      assert allow[..last][..n] == allow[..n];
      ResolveTokensStops(allow[..last], n);
      assert ResolveTokens(allow) == ResolveTokens(allow[..last]);
    } else {
      assert allow[..n] == allow;
    }
  }

  /** The collapse applied to a fully resolved allow-list. */
  lemma ResolveVisibilityOf(allow: seq<string>, checks: seq<Vis>)
    requires ResolveTokens(allow) == Ok(checks)
    ensures ResolveVisibility(allow) == if |checks| == |ValidVisibilities| then Ok([]) else Ok(checks)
  {
  }

  /** The foreach over the checks: does any of them hold for a property of visibility `vis`? */
  function AnyCheckHolds(checks: seq<Vis>, vis: Vis): (r: bool)
    ensures r <==> vis in checks
  {
    checks != [] && (checks[0] == vis || AnyCheckHolds(checks[1..], vis))
  }

  /**
   * `shouldBeSerialized`: an `Ignore` attribute, when ignores are in use,
   * decides alone; otherwise the visibility checks decide, unless there are
   * none or they are switched off.
   */
  function ShouldBeSerialized(checks: seq<Vis>, f: Field, o: Options): (r: bool)
    ensures o.useIgnores && f.ignore.Some? ==>
      (r <==> !(if o.useValidation then f.ignore.value.validation else f.ignore.value.serialization))
    ensures !(o.useIgnores && f.ignore.Some?) ==>
      (r <==> checks == [] || !o.useVisibilityMethods || f.vis in checks)
  {
    if o.useIgnores && f.ignore.Some? then
      if o.useValidation then !f.ignore.value.validation else !f.ignore.value.serialization
    else if checks == [] || !o.useVisibilityMethods then
      true
    else
      AnyCheckHolds(checks, f.vis)
  }

  /** `getDefaultAliasGenerator`: the class's generator, else the one already held. */
  function DefaultAliasGenerator(classGenerator: Option<Generator>, current: Generator): (r: Generator)
    ensures classGenerator.Some? ==> r == classGenerator.value
    ensures classGenerator.None? ==> r == current
  {
    if classGenerator.Some? then classGenerator.value else current
  }

  /** `getPropertyName`: raw name, else explicit alias, else the default generator. */
  function PropertyName(generator: Generator, f: Field, byAlias: bool): (r: string)
    ensures !byAlias ==> r == f.name
    ensures byAlias && f.alias.Some? ==> r == f.alias.value(f.name)
    ensures byAlias && f.alias.None? ==> r == generator(f.name)
  {
    if !byAlias then f.name
    else if f.alias.Some? then f.alias.value(f.name)
    else generator(f.name)
  }

  // ---------------------------------------------------------------------------
  // Properties of the decision rules

  /** A token names a visibility exactly when, lower-cased, it is that visibility's name. */
  lemma ParseVisibilityNames(token: string, v: Vis)
    ensures ParseVisibility(token) == Some(v) <==> Lower(token) == VisibilityName(v)
  {
    assert ValidVisibilities[VisibilityName(v)] == v;
  }

  /** Lower-casing leaves a string with no upper-case letter unchanged. */
  lemma LowerFixed(s: string)
    requires forall i :: 0 <= i < |s| ==> !('A' <= s[i] <= 'Z')
    ensures Lower(s) == s
  {
    LowerMeaning(s);
  }

  /** Lower-casing an already lower-cased string changes nothing. */
  lemma {:induction false} LowerIdempotent(s: string)
    ensures Lower(Lower(s)) == Lower(s)
  {
    if s != [] {
      LowerIdempotent(s[1..]);
      assert Lower(s) == [LowerChar(s[0])] + Lower(s[1..]);
    }
  }

  /** Any mix of upper and lower case in a token names the same visibility. */
  lemma ParseIgnoresCase(token: string)
    ensures ParseVisibility(Lower(token)) == ParseVisibility(token)
  {
    LowerIdempotent(token);
  }

  /** The allow-list in any order and any case, naming each visibility once, means "unrestricted". */
  lemma AllThreeCollapse(allow: seq<string>)
    requires |allow| == 3
    requires forall v :: exists i :: 0 <= i < 3 && ParseVisibility(allow[i]) == Some(v)
    ensures ResolveVisibility(allow) == Ok([])
  {
    forall i | 0 <= i < |allow| ensures ParseVisibility(allow[i]).Some? {
      if ParseVisibility(allow[i]).None? {
        var j :| 0 <= j < 3 && ParseVisibility(allow[j]) == Some(Public);
        var k :| 0 <= k < 3 && ParseVisibility(allow[k]) == Some(Private);
        var l :| 0 <= l < 3 && ParseVisibility(allow[l]) == Some(Protected);
        assert false;
      }
    }
  }

  /**
   * A restricted allow-list (fewer or more tokens than three) admits exactly
   * the visibilities it names.
   */
  lemma RestrictedAdmitsNamed(allow: seq<string>, v: Vis)
    requires ResolveVisibility(allow).Ok?
    requires |allow| != 3 && |allow| != 0
    ensures v in ResolveVisibility(allow).value <==> exists i :: 0 <= i < |allow| && Lower(allow[i]) == VisibilityName(v)
  {
    var checks := ResolveVisibility(allow).value;
    ResolveTokensMeaning(allow);
    if v in checks {
      var i :| 0 <= i < |checks| && checks[i] == v;
      ParseVisibilityNames(allow[i], v);
    }
    if exists i :: 0 <= i < |allow| && Lower(allow[i]) == VisibilityName(v) {
      var i :| 0 <= i < |allow| && Lower(allow[i]) == VisibilityName(v);
      ParseVisibilityNames(allow[i], v);
      assert checks[i] == v;
    }
  }

  /** The three lower-case names parse to their visibilities. */
  lemma ParseNames()
    ensures ParseVisibility("public") == Some(Public)
    ensures ParseVisibility("private") == Some(Private)
    ensures ParseVisibility("protected") == Some(Protected)
  {
    ParsePublic();
    ParsePrivate();
    ParseProtected();
  }

  lemma ParsePublic()
    ensures ParseVisibility("public") == Some(Public)
  {
    LowerFixed("public");
    assert ValidVisibilities["public"] == Public;
  }

  lemma ParsePrivate()
    ensures ParseVisibility("private") == Some(Private)
  {
    LowerFixed("private");
    assert ValidVisibilities["private"] == Private;
  }

  lemma ParseProtected()
    ensures ParseVisibility("protected") == Some(Protected)
  {
    LowerFixed("protected");
    assert ValidVisibilities["protected"] == Protected;
  }

  /**
   * The collapse counts the checks: any three valid tokens, repeated or not,
   * resolve to "unrestricted".
   */
  lemma CountCollapse(allow: seq<string>)
    requires |allow| == 3
    requires ParseVisibility(allow[0]).Some? && ParseVisibility(allow[1]).Some? && ParseVisibility(allow[2]).Some?
    ensures ResolveVisibility(allow) == Ok([])
  {
    forall i | 0 <= i < |allow| ensures ParseVisibility(allow[i]).Some? {
      if i == 0 {
      } else if i == 1 {
      } else {
      }
    }
  }

  /** With the checks collapsed, every field passes the visibility rule. */
  lemma CollapseLaw(f: Field, o: Options)
    ensures ResolveVisibility(["public", "private", "protected"]) == ResolveVisibility([]) == Ok([])
    ensures ShouldBeSerialized(ResolveVisibility(["public", "private", "protected"]).value, f, o)
         == ShouldBeSerialized(ResolveVisibility([]).value, f, o)
  {
    ParseNames();
    CountCollapse(["public", "private", "protected"]);
  }

  /**
   * An `Ignore` attribute, when ignores are in use, makes the visibility
   * checks and `useVisibilityMethods` irrelevant.
   */
  lemma IgnorePrecedence(checks1: seq<Vis>, checks2: seq<Vis>, f: Field, o1: Options, o2: Options)
    requires f.ignore.Some? && o1.useIgnores && o2.useIgnores && o1.useValidation == o2.useValidation
    ensures ShouldBeSerialized(checks1, f, o1) == ShouldBeSerialized(checks2, f, o2)
  {
  }

  /** Without ignores in play, switching off the visibility checks admits every field. */
  lemma VisibilityOffAdmitsAll(checks: seq<Vis>, f: Field, o: Options)
    requires !(o.useIgnores && f.ignore.Some?) && !o.useVisibilityMethods
    ensures ShouldBeSerialized(checks, f, o)
  {
  }

  /**
   * Name precedence: `byAlias = false` gives the raw name whatever the
   * metadata; otherwise an explicit alias wins over any generator; otherwise
   * the generator names the field.
   */
  lemma NamePrecedence(g1: Generator, g2: Generator, f: Field)
    ensures PropertyName(g1, f, false) == f.name
    ensures f.alias.Some? ==> PropertyName(g1, f, true) == PropertyName(g2, f, true) == f.alias.value(f.name)
    ensures f.alias.None? ==> PropertyName(g1, f, true) == g1(f.name)
  {
  }
}
