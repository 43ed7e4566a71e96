/** The class metadata that Java reflection supplies, as plain values.
    A `ClassInfo` stands for one `java.lang.Class` object: its identity, its
    modifiers, its declared superclass, its declared interfaces and its
    declared fields, methods and constructors. */
module ClassMeta {

  /** A class is identified by its fully qualified name. */
  type ClassId = string

  /** The root of the class hierarchy, `java.lang.Object`. */
  const ObjectId: ClassId := "java.lang.Object"

  /** The modifier bits that the checks inspect (`java.lang.reflect.Modifier`). */
  datatype Modifier = Public | Private | Protected | Static | Final | Abstract | Interface

  /** A value read from a static field; `cls` is its run-time class
      (what `getClass()` answers), `payload` the rest of its identity. */
  datatype Value = Value(cls: ClassId, payload: string)

  /** The outcome of `Field.get(null)`: the value, or an `IllegalAccessException`. */
  datatype ReadResult = Read(value: Value) | AccessDenied

  /** One declared field, method or constructor. For a field `declaredType`
      is its type and `paramTypes` is empty; for a method it is the return
      type; a constructor's name is the name of its class. */
  datatype Member = Member(
    name: string,
    mods: set<Modifier>,
    paramTypes: seq<ClassId>,
    declaredType: ClassId)
  {
    /** `getParameterCount()` */
    function ParamCount(): nat { |paramTypes| }
  }

  /** One class. `superclass` is `None` exactly where `getSuperclass()`
      answers null (interfaces, primitives and `Object` itself). */
  datatype ClassInfo = ClassInfo(
    id: ClassId,
    mods: set<Modifier>,
    superclass: Option<ClassId>,
    interfaces: seq<ClassId>,
    fields: seq<Member>,
    methods: seq<Member>,
    constructors: seq<Member>)

  datatype Option<T> = None | Some(value: T)

  /** The exceptions that the modelled code lets escape. */
  datatype Error =
    | ClassNotFound(name: string)        // ClassNotFoundException from Class.forName
    | ClassCast(target: ClassId)         // ClassCastException from Class.cast
    | EnumerationFailed                  // IOException while listing the compiled classes

  datatype Result<T> = Success(value: T) | Failure(error: Error)

  /** The classes that `Class.forName` can load, by name. */
  type Registry = map<string, ClassInfo>

  /** `new Kelas(name)`: load a class by name or fail with `ClassNotFoundException`. */
  function Resolve(reg: Registry, name: string): (r: Result<ClassInfo>)
    ensures r.Success? <==> name in reg
    ensures r.Success? ==> r.value == reg[name]
    ensures r.Failure? ==> r.error == ClassNotFound(name)
  {
    if name in reg then Success(reg[name]) else Failure(ClassNotFound(name))
  }

  /** The Java primitive types, whose `Class` objects accept no instance in `Class.cast`. */
  predicate IsPrimitive(t: ClassId) {
    t in {"boolean", "byte", "char", "short", "int", "long", "float", "double"}
  }

  /** `Modifier.isXxx(m.getModifiers())` */
  predicate HasMod(m: Member, mod: Modifier) { mod in m.mods }
}
