/**
 * The host (Java) world as the introspection layer sees it: classes by name,
 * objects with a runtime class and an identity, reflective method handles and
 * the outcome of a reflective call. Everything the layer learns about a class
 * comes through oracle functions passed in by the callers of this model.
 */
module Host {

  /** A host class, identified by its fully qualified name. */
  type ClassName = string

  /** `java.lang.Object`, the top of the class hierarchy. */
  const ObjectClass: ClassName := "java.lang.Object"

  /**
   * A live, non-null host object: its runtime class (`getClass()`) and an
   * identity, so that two `Instance` values are the same reference exactly
   * when they are equal.
   */
  datatype Instance = Instance(cls: ClassName, id: nat)

  /** A host reference: `null`, or an object. */
  datatype Value = Null | Ref(obj: Instance)

  /** A reflective method handle (`java.lang.reflect.Method`). */
  datatype Method = Method(declaringClass: ClassName, name: string,
                           parameterTypes: seq<ClassName>, returnType: ClassName)

  /** The exceptions a reflective call can raise. */
  datatype Exception =
    | InvocationTargetException   // the called method itself threw
    | IllegalAccessException      // the method is not accessible
    | NullPointerException
    | OtherRuntimeException       // e.g. IllegalArgumentException on an argument shape mismatch

  /** What a reflective call does: return a value or raise. */
  datatype Outcome = Returned(result: Value) | Threw(exception: Exception)

  /** `Method.invoke(target, args)`, supplied by the host. */
  type Invoker = (Method, Value, seq<Value>) -> Outcome
}
