/**
 * The property resolver chains of `Uberspect.getPropertyGet` and
 * `Uberspect.getPropertySet`. Each accessor strategy (getter, boolean getter,
 * map, list/array, duck-typed get/set, field, indexed property) is an oracle
 * that, given a class and an identifier, either produces an accessor or
 * declines. The chains are written as the source's early-return code, and
 * each is proved equal to running an explicit ordered list of steps and
 * taking the first one that succeeds.
 */
module Resolution {
  import opened Wrappers
  import opened Host

  /** `a` if it is present, otherwise `b`: one early return of a resolver chain. */
  function OrElse<A>(a: Option<A>, b: Option<A>): Option<A> {
    if a.Some? then a else b
  }

  /** The first result that some step produces, in the order of the steps. */
  function FirstSuccess<S, A>(run: S -> Option<A>, steps: seq<S>): Option<A> {
    if steps == [] then None else OrElse(run(steps[0]), FirstSuccess(run, steps[1..]))
  }

  /**
   * A chain declines exactly when every step declines, and otherwise returns
   * the result of a step before which every step declined.
   */
  lemma {:induction false} FirstSuccessSpec<S, A>(run: S -> Option<A>, steps: seq<S>)
    ensures FirstSuccess(run, steps).None? <==> forall k :: 0 <= k < |steps| ==> run(steps[k]).None?
    ensures FirstSuccess(run, steps).Some? ==>
              exists k :: 0 <= k < |steps| && run(steps[k]) == FirstSuccess(run, steps) &&
                          forall j :: 0 <= j < k ==> run(steps[j]).None?
  {
    if steps != [] {
      FirstSuccessSpec(run, steps[1..]);
      assert forall k :: 1 <= k < |steps| ==> steps[k] == steps[1..][k - 1];
      if run(steps[0]).None? && FirstSuccess(run, steps[1..]).Some? {
        var k :| 0 <= k < |steps[1..]| && run(steps[1..][k]) == FirstSuccess(run, steps[1..]) &&
                 forall j :: 0 <= j < k ==> run(steps[1..][j]).None?;
        assert run(steps[k + 1]) == FirstSuccess(run, steps);
        assert forall j :: 0 <= j < k + 1 ==> run(steps[j]).None? by {
          forall j | 0 <= j < k + 1 ensures run(steps[j]).None? {
            if j > 0 { assert steps[j] == steps[1..][j - 1]; }
          }
        }
      }
    }
  }

  /** A step that succeeds after every earlier step declined is the one that wins. */
  lemma {:induction false} FirstSuccessAt<S, A>(run: S -> Option<A>, steps: seq<S>, k: nat)
    requires k < |steps| && run(steps[k]).Some?
    requires forall j :: 0 <= j < k ==> run(steps[j]).None?
    ensures FirstSuccess(run, steps) == run(steps[k])
  {
    if k > 0 {
      assert forall j :: 0 <= j < k - 1 ==> steps[1..][j] == steps[j + 1];
      FirstSuccessAt(run, steps[1..], k - 1);
    }
  }

  /** Running two lists of steps one after the other is running their concatenation. */
  lemma {:induction false} FirstSuccessAppend<S, A>(run: S -> Option<A>, front: seq<S>, back: seq<S>)
    ensures FirstSuccess(run, front + back) == OrElse(FirstSuccess(run, front), FirstSuccess(run, back))
  {
    if front == [] {
      assert front + back == back;
    } else {
      assert (front + back)[1..] == front[1..] + back;
      FirstSuccessAppend(run, front[1..], back);
    }
  }

  /** A chain of no step declines; a chain of one step gives that step's outcome. */
  lemma FirstSuccessOne<S, A>(run: S -> Option<A>, a: S)
    ensures FirstSuccess(run, []) == None
    ensures FirstSuccess(run, [a]) == run(a)
  {
    assert [a][1..] == [];
  }

  /** A chain of one or two steps. */
  lemma FirstSuccessShort<S, A>(run: S -> Option<A>, a: S, b: S)
    ensures FirstSuccess(run, []) == None
    ensures FirstSuccess(run, [a]) == run(a)
    ensures FirstSuccess(run, [a, b]) == OrElse(run(a), run(b))
  {
    assert [a][1..] == [];
    assert [b][1..] == [];
    assert FirstSuccess(run, [b]) == run(b);
    assert [a, b][1..] == [b];
  }

  /** How an identifier is classified (`AbstractExecutor.castString`, `castInteger`). */
  datatype Casts = Casts(castString: Value -> Value, castInteger: Value -> Option<int>)

  // ---------------------------------------------------------------- get

  /**
   * The `discover` functions of the get-accessor strategies.
   * The indexed-property strategy is given the object, not its class.
   */
  datatype GetResolvers<A> = GetResolvers(
    propertyGet: (ClassName, Value) -> Option<A>,   // getFoo()
    booleanGet: (ClassName, Value) -> Option<A>,    // isFoo()
    mapGet: (ClassName, Value) -> Option<A>,
    listGet: (ClassName, int) -> Option<A>,         // list or array element
    duckGet: (ClassName, Value) -> Option<A>,       // get(key)
    fieldGet: (ClassName, Value) -> Option<A>,
    indexedGet: (Instance, Value) -> Option<A>)     // getFoo(int) / setFoo(int, v) pair

  /** One attempt of the get chain, with the argument it passes to its strategy. */
  datatype GetStep =
    | PropertyGet(property: Value)
    | BooleanGet(property: Value)
    | MapGet(key: Value)
    | ListGet(index: int)
    | DuckGet(key: Value)
    | FieldGet(property: Value)
    | IndexedGet(property: Value)

  function RunGetStep<A>(r: GetResolvers<A>, obj: Instance, step: GetStep): Option<A> {
    match step
    case PropertyGet(p) => r.propertyGet(obj.cls, p)
    case BooleanGet(p) => r.booleanGet(obj.cls, p)
    case MapGet(k) => r.mapGet(obj.cls, k)
    case ListGet(i) => r.listGet(obj.cls, i)
    case DuckGet(k) => r.duckGet(obj.cls, k)
    case FieldGet(p) => r.fieldGet(obj.cls, p)
    case IndexedGet(p) => r.indexedGet(obj, p)
  }

  /** Each get step run against the strategies for one object. */
  function GetRunner<A>(r: GetResolvers<A>, obj: Instance): GetStep -> Option<A> {
    s => RunGetStep(r, obj, s)
  }

  /**
   * The attempts of the get chain in priority order, given the identifier,
   * its string form `property` (or null) and its integer form `index` (or null).
   */
  function GetSteps(identifier: Value, property: Value, index: Option<int>): seq<GetStep> {
    (if property != Null then [PropertyGet(property), BooleanGet(property)] else [])
    + ([MapGet(identifier)]
    + ((if index.Some? then [ListGet(index.value)] else [])
    + ([DuckGet(identifier)]
    + ((if property != Null && property != identifier then [DuckGet(property)] else [])
    + (if property != Null && index.None? then [FieldGet(property), IndexedGet(property)] else [])))))
  }

  /** `Uberspect.getPropertyGet(obj, identifier)`: the first strategy that accepts wins. */
  function GetPropertyGet<A>(r: GetResolvers<A>, casts: Casts, obj: Instance, identifier: Value): (x: Option<A>)
    ensures x == FirstSuccess(GetRunner(r, obj),
                              GetSteps(identifier, casts.castString(identifier), casts.castInteger(identifier)))
  {
    var claz := obj.cls;
    var property := casts.castString(identifier);
    var index := casts.castInteger(identifier);
    ChainGet(r, obj, identifier, property, index);
    if property != Null && r.propertyGet(claz, property).Some? then r.propertyGet(claz, property)
    else if property != Null && r.booleanGet(claz, property).Some? then r.booleanGet(claz, property)
    else if r.mapGet(claz, identifier).Some? then r.mapGet(claz, identifier)
    else if index.Some? && r.listGet(claz, index.value).Some? then r.listGet(claz, index.value)
    else if r.duckGet(claz, identifier).Some? then r.duckGet(claz, identifier)
    else if property == Null then None
    else if property != identifier && r.duckGet(claz, property).Some? then r.duckGet(claz, property)
    else if index.Some? then None
    else if r.fieldGet(claz, property).Some? then r.fieldGet(claz, property)
    else r.indexedGet(obj, property)
  }

  /** The get chain's step list, unfolded into its gated groups. */
  lemma ChainGet<A>(r: GetResolvers<A>, obj: Instance, identifier: Value, property: Value, index: Option<int>)
    ensures var run := GetRunner(r, obj);
      FirstSuccess(run, GetSteps(identifier, property, index)) ==
      OrElse(if property != Null then OrElse(r.propertyGet(obj.cls, property), r.booleanGet(obj.cls, property)) else None,
      OrElse(r.mapGet(obj.cls, identifier),
      OrElse(if index.Some? then r.listGet(obj.cls, index.value) else None,
      OrElse(r.duckGet(obj.cls, identifier),
      OrElse(if property != Null && property != identifier then r.duckGet(obj.cls, property) else None,
             if property != Null && index.None? then OrElse(r.fieldGet(obj.cls, property), r.indexedGet(obj, property)) else None)))))
  {
    var run := GetRunner(r, obj);
    var g1 := if property != Null then [PropertyGet(property), BooleanGet(property)] else [];
    var g2 := [MapGet(identifier)];
    var g3 := if index.Some? then [ListGet(index.value)] else [];
    var g4 := [DuckGet(identifier)];
    var g5 := if property != Null && property != identifier then [DuckGet(property)] else [];
    var g6 := if property != Null && index.None? then [FieldGet(property), IndexedGet(property)] else [];
    assert FirstSuccess(run, g1) ==
           if property != Null then OrElse(r.propertyGet(obj.cls, property), r.booleanGet(obj.cls, property)) else None by {
      FirstSuccessShort(run, PropertyGet(property), BooleanGet(property));
    }
    assert FirstSuccess(run, g2) == r.mapGet(obj.cls, identifier) by {
      FirstSuccessOne(run, MapGet(identifier));
    }
    assert FirstSuccess(run, g3) == if index.Some? then r.listGet(obj.cls, index.value) else None by {
      FirstSuccessOne(run, ListGet(if index.Some? then index.value else 0));
    }
    assert FirstSuccess(run, g4) == r.duckGet(obj.cls, identifier) by {
      FirstSuccessOne(run, DuckGet(identifier));
    }
    assert FirstSuccess(run, g5) == if property != Null && property != identifier then r.duckGet(obj.cls, property) else None by {
      FirstSuccessOne(run, DuckGet(property));
    }
    assert FirstSuccess(run, g6) ==
           if property != Null && index.None? then OrElse(r.fieldGet(obj.cls, property), r.indexedGet(obj, property)) else None by {
      FirstSuccessShort(run, FieldGet(property), IndexedGet(property));
    }
    FirstSuccessAppend(run, g5, g6);
    FirstSuccessAppend(run, g4, g5 + g6);
    FirstSuccessAppend(run, g3, g4 + (g5 + g6));
    FirstSuccessAppend(run, g2, g3 + (g4 + (g5 + g6)));
    FirstSuccessAppend(run, g1, g2 + (g3 + (g4 + (g5 + g6))));
    assert GetSteps(identifier, property, index) == g1 + (g2 + (g3 + (g4 + (g5 + g6))));
  }

  // ---------------------------------------------------------------- set

  /** The `discover` functions of the set-accessor strategies; each also sees the value to assign. */
  datatype SetResolvers<A> = SetResolvers(
    propertySet: (ClassName, Value, Value) -> Option<A>,   // setFoo(v)
    mapSet: (ClassName, Value, Value) -> Option<A>,
    listSet: (ClassName, Value, Value) -> Option<A>,       // given the identifier, not the index
    duckSet: (ClassName, Value, Value) -> Option<A>,       // set(key, v)
    fieldSet: (ClassName, Value, Value) -> Option<A>)

  /** One attempt of the set chain. There is no boolean and no indexed-property step. */
  datatype SetStep =
    | PropertySet(property: Value)
    | MapSet(key: Value)
    | ListSet(key: Value)
    | DuckSet(key: Value)
    | FieldSet(property: Value)

  function RunSetStep<A>(r: SetResolvers<A>, claz: ClassName, arg: Value, step: SetStep): Option<A> {
    match step
    case PropertySet(p) => r.propertySet(claz, p, arg)
    case MapSet(k) => r.mapSet(claz, k, arg)
    case ListSet(k) => r.listSet(claz, k, arg)
    case DuckSet(k) => r.duckSet(claz, k, arg)
    case FieldSet(p) => r.fieldSet(claz, p, arg)
  }

  /** Each set step run against the strategies for one class and value. */
  function SetRunner<A>(r: SetResolvers<A>, claz: ClassName, arg: Value): SetStep -> Option<A> {
    s => RunSetStep(r, claz, arg, s)
  }

  /** The attempts of the set chain in priority order. */
  function SetSteps(identifier: Value, property: Value, index: Option<int>): seq<SetStep> {
    (if property != Null then [PropertySet(property)] else [])
    + ([MapSet(identifier)]
    + ((if index.Some? then [ListSet(identifier)] else [])
    + ([DuckSet(identifier)]
    + ((if property != Null && property != identifier then [DuckSet(property)] else [])
    + (if property != Null && index.None? then [FieldSet(property)] else [])))))
  }

  /** `Uberspect.getPropertySet(obj, identifier, arg)`: the first strategy that accepts wins. */
  function GetPropertySet<A>(r: SetResolvers<A>, casts: Casts, obj: Instance, identifier: Value, arg: Value): (x: Option<A>)
    ensures x == FirstSuccess(SetRunner(r, obj.cls, arg),
                              SetSteps(identifier, casts.castString(identifier), casts.castInteger(identifier)))
  {
    var claz := obj.cls;
    var property := casts.castString(identifier);
    var index := casts.castInteger(identifier);
    ChainSet(r, claz, arg, identifier, property, index);
    if property != Null && r.propertySet(claz, property, arg).Some? then r.propertySet(claz, property, arg)
    else if r.mapSet(claz, identifier, arg).Some? then r.mapSet(claz, identifier, arg)
    else if index.Some? && r.listSet(claz, identifier, arg).Some? then r.listSet(claz, identifier, arg)
    else if r.duckSet(claz, identifier, arg).Some? then r.duckSet(claz, identifier, arg)
    else if property == Null then None
    else if property != identifier && r.duckSet(claz, property, arg).Some? then r.duckSet(claz, property, arg)
    else if index.Some? then None
    else r.fieldSet(claz, property, arg)
  }

  /** The set chain's step list, unfolded into its gated groups. */
  lemma ChainSet<A>(r: SetResolvers<A>, claz: ClassName, arg: Value, identifier: Value, property: Value, index: Option<int>)
    ensures var run := SetRunner(r, claz, arg);
      FirstSuccess(run, SetSteps(identifier, property, index)) ==
      OrElse(if property != Null then r.propertySet(claz, property, arg) else None,
      OrElse(r.mapSet(claz, identifier, arg),
      OrElse(if index.Some? then r.listSet(claz, identifier, arg) else None,
      OrElse(r.duckSet(claz, identifier, arg),
      OrElse(if property != Null && property != identifier then r.duckSet(claz, property, arg) else None,
             if property != Null && index.None? then r.fieldSet(claz, property, arg) else None)))))
  {
    var run := SetRunner(r, claz, arg);
    var g1 := if property != Null then [PropertySet(property)] else [];
    var g2 := [MapSet(identifier)];
    var g3 := if index.Some? then [ListSet(identifier)] else [];
    var g4 := [DuckSet(identifier)];
    var g5 := if property != Null && property != identifier then [DuckSet(property)] else [];
    var g6 := if property != Null && index.None? then [FieldSet(property)] else [];
    assert FirstSuccess(run, g1) == if property != Null then r.propertySet(claz, property, arg) else None by {
      FirstSuccessOne(run, PropertySet(property));
    }
    assert FirstSuccess(run, g2) == r.mapSet(claz, identifier, arg) by {
      FirstSuccessOne(run, MapSet(identifier));
    }
    assert FirstSuccess(run, g3) == if index.Some? then r.listSet(claz, identifier, arg) else None by {
      FirstSuccessOne(run, ListSet(identifier));
    }
    assert FirstSuccess(run, g4) == r.duckSet(claz, identifier, arg) by {
      FirstSuccessOne(run, DuckSet(identifier));
    }
    assert FirstSuccess(run, g5) == if property != Null && property != identifier then r.duckSet(claz, property, arg) else None by {
      FirstSuccessOne(run, DuckSet(property));
    }
    assert FirstSuccess(run, g6) == if property != Null && index.None? then r.fieldSet(claz, property, arg) else None by {
      FirstSuccessOne(run, FieldSet(property));
    }
    FirstSuccessAppend(run, g5, g6);
    FirstSuccessAppend(run, g4, g5 + g6);
    FirstSuccessAppend(run, g3, g4 + (g5 + g6));
    FirstSuccessAppend(run, g2, g3 + (g4 + (g5 + g6)));
    FirstSuccessAppend(run, g1, g2 + (g3 + (g4 + (g5 + g6))));
    assert SetSteps(identifier, property, index) == g1 + (g2 + (g3 + (g4 + (g5 + g6))));
  }

  // ---------------------------------------------------------------- ordering and gating

  /**
   * Whether the get chain for an identifier with string form `property` and
   * integer form `index` tries `step`, one strategy at a time.
   */
  predicate GetStepTried(step: GetStep, identifier: Value, property: Value, index: Option<int>) {
    match step
    case PropertyGet(p) => property != Null && p == property
    case BooleanGet(p) => property != Null && p == property
    case MapGet(k) => k == identifier
    case ListGet(i) => index == Some(i)
    case DuckGet(k) => k == identifier || (property != Null && k == property)
    case FieldGet(p) => property != Null && index.None? && p == property
    case IndexedGet(p) => property != Null && index.None? && p == property
  }

  /** Whether the set chain tries `step`, one strategy at a time. */
  predicate SetStepTried(step: SetStep, identifier: Value, property: Value, index: Option<int>) {
    match step
    case PropertySet(p) => property != Null && p == property
    case MapSet(k) => k == identifier
    case ListSet(k) => index.Some? && k == identifier
    case DuckSet(k) => k == identifier || (property != Null && k == property)
    case FieldSet(p) => property != Null && index.None? && p == property
  }

  /**
   * Gating of the get chain: the getter and then the boolean getter come first
   * when the identifier has a string form; the list/array step is present exactly
   * when the identifier has an integer form; the field and indexed-property steps
   * only when it has none; the duck `get` is tried a second time, with the string
   * form, exactly when that string is not the identifier itself.
   */
  lemma {:induction false} GetStepsGating(identifier: Value, property: Value, index: Option<int>)
    ensures var steps := GetSteps(identifier, property, index);
      property != Null ==> |steps| >= 2 && steps[0] == PropertyGet(property) && steps[1] == BooleanGet(property)
    ensures forall s :: s in GetSteps(identifier, property, index) <==> GetStepTried(s, identifier, property, index)
  {
    var g1 := if property != Null then [PropertyGet(property), BooleanGet(property)] else [];
    var g3 := if index.Some? then [ListGet(index.value)] else [];
    var g5 := if property != Null && property != identifier then [DuckGet(property)] else [];
    var g6 := if property != Null && index.None? then [FieldGet(property), IndexedGet(property)] else [];
    var tail := [MapGet(identifier)] + (g3 + ([DuckGet(identifier)] + (g5 + g6)));
    assert GetSteps(identifier, property, index) == g1 + tail;
    forall s ensures s in g1 + tail <==> GetStepTried(s, identifier, property, index) {
      assert s in g1 + tail <==> s in g1 || s == MapGet(identifier) || s in g3 || s == DuckGet(identifier) || s in g5 || s in g6;
    }
  }

  /**
   * An identifier without a string form, or a string identifier that is its
   * own string form, gets exactly one duck `get` attempt; any other identifier
   * gets two, the identifier's before its string form's.
   */
  lemma DuckGetAttempts(identifier: Value, property: Value, index: Option<int>)
    ensures var steps := GetSteps(identifier, property, index);
      var ducks := set k | 0 <= k < |steps| && steps[k].DuckGet?;
      (property == Null || property == identifier ==> |ducks| == 1) &&
      (property != Null && property != identifier ==>
         exists k1, k2 :: k1 < k2 && ducks == {k1, k2} &&
                          steps[k1] == DuckGet(identifier) && steps[k2] == DuckGet(property))
  {
    var steps := GetSteps(identifier, property, index);
    var n1 := if property != Null then 2 else 0;
    var n3 := if index.Some? then 1 else 0;
    var d := n1 + 1 + n3;
    assert steps[d] == DuckGet(identifier);
    var ducks := set k | 0 <= k < |steps| && steps[k].DuckGet?;
    if property == Null || property == identifier {
      assert ducks == {d};
    } else {
      assert steps[d + 1] == DuckGet(property);
      assert ducks == {d, d + 1};
    }
  }

  /**
   * Gating of the set chain: the setter comes first when the identifier has a
   * string form; the list/array step is present exactly when it has an integer
   * form; the field step exactly when it has a string form and no integer form;
   * the duck `set` is tried with the identifier and then with its string form.
   */
  lemma {:induction false} SetStepsGating(identifier: Value, property: Value, index: Option<int>)
    ensures var steps := SetSteps(identifier, property, index);
      property != Null ==> |steps| >= 1 && steps[0] == PropertySet(property)
    ensures forall s :: s in SetSteps(identifier, property, index) <==> SetStepTried(s, identifier, property, index)
  {
    var g1 := if property != Null then [PropertySet(property)] else [];
    var g3 := if index.Some? then [ListSet(identifier)] else [];
    var g5 := if property != Null && property != identifier then [DuckSet(property)] else [];
    var g6 := if property != Null && index.None? then [FieldSet(property)] else [];
    var tail := [MapSet(identifier)] + (g3 + ([DuckSet(identifier)] + (g5 + g6)));
    assert SetSteps(identifier, property, index) == g1 + tail;
    forall s ensures s in g1 + tail <==> SetStepTried(s, identifier, property, index) {
      assert s in g1 + tail <==> s in g1 || s == MapSet(identifier) || s in g3 || s == DuckSet(identifier) || s in g5 || s in g6;
    }
  }

  /**
   * A getter that accepts wins over every other strategy, and the boolean
   * getter is the result only when the getter declined.
   */
  lemma GetterPrecedence<A>(r: GetResolvers<A>, casts: Casts, obj: Instance, identifier: Value)
    ensures var property := casts.castString(identifier);
      (property != Null && r.propertyGet(obj.cls, property).Some? ==>
         GetPropertyGet(r, casts, obj, identifier) == r.propertyGet(obj.cls, property)) &&
      (property != Null && r.propertyGet(obj.cls, property).None? && r.booleanGet(obj.cls, property).Some? ==>
         GetPropertyGet(r, casts, obj, identifier) == r.booleanGet(obj.cls, property))
  {
    var property := casts.castString(identifier);
    var steps := GetSteps(identifier, property, casts.castInteger(identifier));
    if property != Null {
      GetStepsGating(identifier, property, casts.castInteger(identifier));
      if r.propertyGet(obj.cls, property).Some? {
        FirstSuccessAt(GetRunner(r, obj), steps, 0);
      } else if r.booleanGet(obj.cls, property).Some? {
        FirstSuccessAt(GetRunner(r, obj), steps, 1);
      }
    }
  }

  /** The get chain declines exactly when every one of its steps declines. */
  lemma GetPropertyGetDeclines<A>(r: GetResolvers<A>, casts: Casts, obj: Instance, identifier: Value)
    ensures var steps := GetSteps(identifier, casts.castString(identifier), casts.castInteger(identifier));
      GetPropertyGet(r, casts, obj, identifier).None? <==>
      forall k :: 0 <= k < |steps| ==> RunGetStep(r, obj, steps[k]).None?
  {
    FirstSuccessSpec(GetRunner(r, obj), GetSteps(identifier, casts.castString(identifier), casts.castInteger(identifier)));
  }

  /** The set chain declines exactly when every one of its steps declines. */
  lemma GetPropertySetDeclines<A>(r: SetResolvers<A>, casts: Casts, obj: Instance, identifier: Value, arg: Value)
    ensures var steps := SetSteps(identifier, casts.castString(identifier), casts.castInteger(identifier));
      GetPropertySet(r, casts, obj, identifier, arg).None? <==>
      forall k :: 0 <= k < |steps| ==> RunSetStep(r, obj.cls, arg, steps[k]).None?
  {
    FirstSuccessSpec(SetRunner(r, obj.cls, arg), SetSteps(identifier, casts.castString(identifier), casts.castInteger(identifier)));
  }
}
