/**
 * `DuckSetExecutor`: the accessor that assigns a property through a
 * duck-typed `set(key, value)` method. It is immutable: discovery records the
 * class, the `set` method and the key; `invoke` is the unguarded path used
 * right after discovery, `tryInvoke` the guarded path used when a cached
 * executor is reused on a later evaluation.
 */
module DuckSet {
  import opened Wrappers
  import opened Host

  /**
   * `Introspector.getMethod(clazz, new MethodKey(name, args))`: the most
   * specific public method of that name applicable to the arguments, if any.
   */
  type MethodFinder = (ClassName, string, seq<Value>) -> Option<Method>

  /** `Object.equals` called on a non-null receiver. */
  type Equality = (Instance, Value) -> bool

  /**
   * The executor's final fields: the class it was discovered on and the
   * `set` method (both from `AbstractExecutor`), and the key it passes as
   * the method's first argument.
   */
  datatype DuckSetExecutor = DuckSetExecutor(objectClass: ClassName, setter: Option<Method>, property: Value)

  /** What `invoke` does: return a value, or let the reflective exception escape. */
  datatype InvokeResult = Invoked(value: Value) | InvokeFailed(exception: Exception)

  /** What `tryInvoke` does: return a value, return `TRY_FAILED`, or let an exception escape. */
  datatype TryResult = TrySucceeded(value: Value) | TryFailed | TryRaised(exception: Exception)

  /** The name of the duck-typed setter. */
  const SetName: string := "set"

  /**
   * `DuckSetExecutor.discover(is, clazz, key, value)`: an executor exactly when
   * `clazz` has a `set` method for the argument shape `(key, value)`.
   */
  function Discover(getMethod: MethodFinder, clazz: ClassName, key: Value, value: Value): (r: Option<DuckSetExecutor>)
    ensures r.None? <==> getMethod(clazz, SetName, [key, value]).None?
    ensures r.Some? ==> r.value.objectClass == clazz && r.value.property == key &&
                        r.value.setter.Some? && r.value.setter == getMethod(clazz, SetName, [key, value])
  {
    var m := getMethod(clazz, SetName, [key, value]);
    if m.None? then None else Some(DuckSetExecutor(clazz, m, key))
  }

  /** `getTargetProperty()`: the key recorded at discovery. */
  function GetTargetProperty(e: DuckSetExecutor): (key: Value)
    ensures key == e.property
  {
    e.property
  }

  /** Discovery followed by `getTargetProperty` gives back the key that was looked up. */
  lemma DiscoverRecordsKey(getMethod: MethodFinder, clazz: ClassName, key: Value, value: Value)
    requires Discover(getMethod, clazz, key, value).Some?
    ensures GetTargetProperty(Discover(getMethod, clazz, key, value).value) == key
  {
  }

  /**
   * `invoke(obj, value)`: calls `set(property, value)` on `obj` and returns
   * `value` whatever `set` returned; an exception of the call escapes.
   */
  function Invoke(e: DuckSetExecutor, obj: Value, value: Value, call: Invoker): (r: InvokeResult)
    ensures r.Invoked? ==> r.value == value
    ensures r.InvokeFailed? <==> e.setter.Some? && call(e.setter.value, obj, [e.property, value]).Threw?
    ensures r.InvokeFailed? ==> r.exception == call(e.setter.value, obj, [e.property, value]).exception
  {
    if e.setter.None? then Invoked(value)
    else match call(e.setter.value, obj, [e.property, value])
      case Returned(_) => Invoked(value)
      case Threw(x) => InvokeFailed(x)
  }

  /**
   * The guard of `tryInvoke`, for a non-null recorded key: a non-null target
   * whose runtime class is exactly the recorded one (not a subclass), a
   * method, and a key equal to the recorded one.
   */
  predicate Applies(e: DuckSetExecutor, obj: Value, key: Value, equals: Equality)
    requires e.property.Ref?
  {
    obj.Ref? && e.setter.Some? && equals(e.property.obj, key) && e.objectClass == obj.obj.cls
  }

  /**
   * `tryInvoke(obj, key, value)`: `TRY_FAILED` unless the guard holds; when it
   * holds, calls `set(property, value)` and returns `value`, turning an
   * `InvocationTargetException` or `IllegalAccessException` into `TRY_FAILED`.
   * A null recorded key makes the guard's `property.equals(key)` throw.
   */
  function TryInvoke(e: DuckSetExecutor, obj: Value, key: Value, value: Value,
                     equals: Equality, call: Invoker): (r: TryResult)
    // the two reflective exceptions never escape
    ensures r.TryRaised? ==> r.exception != InvocationTargetException && r.exception != IllegalAccessException
    // a failed guard always yields TRY_FAILED, so a subclass instance is rejected
    ensures (obj.Null? || e.setter.None?) ==> r == TryFailed
    ensures e.property.Ref? && !Applies(e, obj, key, equals) ==> r == TryFailed
    // the only way to succeed: the guard holds, the call returns, and the result is `value`
    ensures r.TrySucceeded? <==>
              e.property.Ref? && Applies(e, obj, key, equals) &&
              call(e.setter.value, obj, [e.property, value]).Returned?
    ensures r.TrySucceeded? ==> r.value == value
    // a null recorded key is dereferenced only once the target and the method are known
    ensures obj.Ref? && e.setter.Some? && e.property.Null? ==> r == TryRaised(NullPointerException)
  {
    if obj.Ref? && e.setter.Some? then
      if e.property.Null? then TryRaised(NullPointerException)
      else if equals(e.property.obj, key) && e.objectClass == obj.obj.cls then
        match call(e.setter.value, obj, [e.property, value])
        case Returned(_) => TrySucceeded(value)
        case Threw(InvocationTargetException) => TryFailed
        case Threw(IllegalAccessException) => TryFailed
        case Threw(x) => TryRaised(x)
      else TryFailed
    else TryFailed
  }

  /**
   * When the guard holds, the guarded path does what the unguarded one does:
   * the same value on success, `TRY_FAILED` for the two reflective exceptions,
   * and any other exception unchanged.
   */
  lemma TryInvokeAgreesWithInvoke(e: DuckSetExecutor, obj: Value, key: Value, value: Value,
                                  equals: Equality, call: Invoker)
    requires e.property.Ref? && Applies(e, obj, key, equals)
    ensures var t := TryInvoke(e, obj, key, value, equals, call);
            var i := Invoke(e, obj, value, call);
      (i.Invoked? <==> t.TrySucceeded?) &&
      (i.Invoked? ==> t.value == i.value) &&
      (i == InvokeFailed(InvocationTargetException) ==> t == TryFailed) &&
      (i == InvokeFailed(IllegalAccessException) ==> t == TryFailed) &&
      (i.InvokeFailed? && !i.exception.InvocationTargetException? && !i.exception.IllegalAccessException? ==>
         t == TryRaised(i.exception))
  {
  }

  /**
   * A cached executor reused on an object of the class it was discovered on,
   * with the same key, sets the same value as a fresh discovery would.
   */
  lemma CachedExecutorReusable(getMethod: MethodFinder, equals: Equality, call: Invoker,
                               obj: Instance, key: Instance, value: Value)
    requires Discover(getMethod, obj.cls, Ref(key), value).Some?
    requires equals(key, Ref(key))
    requires call(getMethod(obj.cls, SetName, [Ref(key), value]).value, Ref(obj), [Ref(key), value]).Returned?
    ensures var e := Discover(getMethod, obj.cls, Ref(key), value).value;
      TryInvoke(e, Ref(obj), Ref(key), value, equals, call) == TrySucceeded(value) &&
      Invoke(e, Ref(obj), value, call) == Invoked(value)
  {
  }
}
