/**
 * `Uberspect.getIterator`: how the introspection layer obtains an iterator
 * over a host object for a `for` loop, chosen by the object's structural kind.
 */
module Iteration {
  import opened Wrappers
  import opened Host

  /** The `instanceof` tests the dispatch makes, as facts about a runtime class. */
  datatype Kinds = Kinds(
    isIterator: ClassName -> bool,      // implements java.util.Iterator
    isArray: ClassName -> bool,         // Class.isArray()
    isMap: ClassName -> bool,           // implements java.util.Map
    isEnumeration: ClassName -> bool,   // implements java.util.Enumeration
    isIterable: ClassName -> bool)      // implements java.lang.Iterable

  /** The outcome of looking up a public no-argument `iterator()` method. */
  datatype Lookup = Found(iteratorMethod: Method) | NotFound | LookupThrew(exception: Exception)

  /** Where the iterator handed back comes from. */
  datatype IteratorSource =
    | Itself(obj: Instance)                // the object is already an iterator
    | ArrayIterator(array: Instance)       // a synthetic iterator over the array's elements
    | MapValues(source: Instance)             // `map.values().iterator()`
    | EnumerationIterator(e: Instance)     // an adapter over the enumeration
    | IterableIterator(iterable: Instance) // `iterable.iterator()`
    | FromMethod(result: Instance)         // the non-null result of a duck-typed `iterator()`

  /**
   * The duck-typed fallback: the `iterator()` method is invoked only when its
   * declared return type is an iterator type; a lookup or invocation that
   * throws, or a null result, gives no iterator.
   */
  function IteratorMethod(kinds: Kinds, obj: Instance, lookup: Instance -> Lookup, invoke: Invoker): (r: Option<IteratorSource>)
    ensures r.Some? <==>
              lookup(obj).Found? && kinds.isIterator(lookup(obj).iteratorMethod.returnType) &&
              invoke(lookup(obj).iteratorMethod, Ref(obj), []).Returned? &&
              invoke(lookup(obj).iteratorMethod, Ref(obj), []).result.Ref?
    ensures r.Some? ==> r == Some(FromMethod(invoke(lookup(obj).iteratorMethod, Ref(obj), []).result.obj))
  {
    match lookup(obj)
    case Found(m) =>
      if !kinds.isIterator(m.returnType) then None
      else (match invoke(m, Ref(obj), [])
            case Returned(Ref(it)) => Some(FromMethod(it))
            case Returned(Null) => None
            case Threw(_) => None)
    case NotFound => None
    case LookupThrew(_) => None
  }

  /** `Uberspect.getIterator(obj)`. */
  function GetIterator(kinds: Kinds, obj: Instance, lookup: Instance -> Lookup, invoke: Invoker): (r: Option<IteratorSource>)
    // each structural kind is tested in a fixed order and the first that holds decides
    ensures r == Some(Itself(obj)) <==> kinds.isIterator(obj.cls)
    ensures r == Some(ArrayIterator(obj)) <==> !kinds.isIterator(obj.cls) && kinds.isArray(obj.cls)
    ensures r == Some(MapValues(obj)) <==>
              !kinds.isIterator(obj.cls) && !kinds.isArray(obj.cls) && kinds.isMap(obj.cls)
    ensures r == Some(EnumerationIterator(obj)) <==>
              !kinds.isIterator(obj.cls) && !kinds.isArray(obj.cls) && !kinds.isMap(obj.cls) &&
              kinds.isEnumeration(obj.cls)
    ensures r == Some(IterableIterator(obj)) <==>
              !kinds.isIterator(obj.cls) && !kinds.isArray(obj.cls) && !kinds.isMap(obj.cls) &&
              !kinds.isEnumeration(obj.cls) && kinds.isIterable(obj.cls)
    // the duck-typed method is looked up only when no structural kind applies
    ensures r.Some? && r.value.FromMethod? <==>
              !StructuralKind(kinds, obj.cls) && IteratorMethod(kinds, obj, lookup, invoke).Some?
    ensures r.None? <==> !StructuralKind(kinds, obj.cls) && IteratorMethod(kinds, obj, lookup, invoke).None?
    // and then what it yields is the fallback's own result
    ensures !StructuralKind(kinds, obj.cls) ==> r == IteratorMethod(kinds, obj, lookup, invoke)
  {
    if kinds.isIterator(obj.cls) then Some(Itself(obj))
    else if kinds.isArray(obj.cls) then Some(ArrayIterator(obj))
    else if kinds.isMap(obj.cls) then Some(MapValues(obj))
    else if kinds.isEnumeration(obj.cls) then Some(EnumerationIterator(obj))
    else if kinds.isIterable(obj.cls) then Some(IterableIterator(obj))
    else IteratorMethod(kinds, obj, lookup, invoke)
  }

  /** The object has one of the kinds the dispatch handles without looking up a method. */
  predicate StructuralKind(kinds: Kinds, cls: ClassName) {
    kinds.isIterator(cls) || kinds.isArray(cls) || kinds.isMap(cls) ||
    kinds.isEnumeration(cls) || kinds.isIterable(cls)
  }

  /**
   * An exception from the lookup or the call never escapes: it yields no
   * iterator, just like a missing method.
   */
  lemma ExceptionsYieldNoIterator(kinds: Kinds, obj: Instance, lookup: Instance -> Lookup, invoke: Invoker)
    requires !StructuralKind(kinds, obj.cls)
    requires lookup(obj).LookupThrew? ||
             (lookup(obj).Found? && invoke(lookup(obj).iteratorMethod, Ref(obj), []).Threw?)
    ensures GetIterator(kinds, obj, lookup, invoke).None?
  {
  }
}
